/** What a fixed window promises over any timed history, for one key used with one limit and window. */
module FixedWindow {
  import opened Prelude
  import opened Limiter

  type Filter = (int, real) -> bool

  function Between(a: real, b: real): Filter { (i, t) => a <= t <= b }

  function Since(start: nat): Filter { (i, t) => i >= start }

  function LaterThan(a: real): Filter { (i, t) => t > a }

  /** The allowed hits of a key, counted by position and time. */
  function Count(hits: seq<Attempt>, key: string, p: Filter): nat {
    if hits == [] then 0
    else
      var last := |hits| - 1;
      Count(hits[..last], key, p)
      + if hits[last].key == key && Allowed(hits, last) && p(last, hits[last].now) then 1 else 0
  }

  ghost predicate Fixed(hits: seq<Attempt>, key: string, limit: int, window: int) {
    forall i | 0 <= i < |hits| && hits[i].key == key :: hits[i].limit == limit && hits[i].window == window
  }

  /** A non-positive limit lets nothing through. */
  function Cap(limit: int): nat {
    if limit < 0 then 0 else limit
  }

  /** The position of the hit that opened the key's latest window. */
  function Opener(hits: seq<Attempt>, key: string): nat {
    if hits == [] then 0
    else
      var last := |hits| - 1;
      if hits[last].key == key && Opens(After(hits[..last], key), hits[last]) then last else Opener(hits[..last], key)
  }

  // -- Denials ---------------------------------------------------------------

  lemma {:induction false} CountSinceEnd(hits: seq<Attempt>, key: string, start: nat)
    requires start >= |hits|
    ensures Count(hits, key, Since(start)) == 0
  {
    if hits != [] {
      CountSinceEnd(hits[..|hits| - 1], key, start);
    }
  }

  lemma {:induction false} OpenWindow(hits: seq<Attempt>, key: string, limit: int, window: int)
    requires Timed(hits) && Fixed(hits, key, limit, window) && window > 0
    ensures var (w, s) := (After(hits, key), Opener(hits, key));
            if w.count == 0 then w == NO_WINDOW && forall i | 0 <= i < |hits| :: hits[i].key != key
            else && w.count > 0
                 && s < |hits| && hits[s].key == key
                 && w.expires == hits[s].now + window as real
                 && Count(hits, key, Since(s)) == if w.count <= limit then w.count else Cap(limit)
  {
    if hits != [] {
      var last := |hits| - 1;
      OpenWindow(hits[..last], key, limit, window);
      CountSinceEnd(hits[..last], key, last);
    }
  }

  /** A hit is denied exactly when its window, opened less than the window length ago, has
      already let the whole limit through; it never lets more through. */
  lemma DeniedIffWindowIsFull(hits: seq<Attempt>, i: nat, limit: int, window: int)
    requires i < |hits| && Timed(hits) && Fixed(hits, hits[i].key, limit, window) && window > 0
    ensures var (key, s) := (hits[i].key, Opener(hits[..i + 1], hits[i].key));
            && s <= i && hits[s].key == key && hits[i].now - window as real < hits[s].now <= hits[i].now
            && Count(hits[..i], key, Since(s)) <= Cap(limit)
            && (!Allowed(hits, i) <==> Count(hits[..i], key, Since(s)) == Cap(limit))
  {
    var key, past, done := hits[i].key, hits[..i], hits[..i + 1];
    assert done[..i] == past;
    OpenWindow(past, key, limit, window);
    CountSinceEnd(past, key, i);
  }

  lemma {:induction false} CountSplits(hits: seq<Attempt>, key: string, s: nat, t: real)
    requires s <= |hits| && forall i | s <= i < |hits| :: hits[i].now > t
    ensures Count(hits, key, LaterThan(t)) == Count(hits, key, Since(s)) + Count(hits[..s], key, LaterThan(t))
  {
    if s == |hits| {
      CountSinceEnd(hits, key, s);
      assert hits[..s] == hits;
    } else {
      var last := |hits| - 1;
      CountSplits(hits[..last], key, s, t);
      assert hits[..last][..s] == hits[..s];
    }
  }

  /** Of a denied hit, the window length before it holds the limit and whatever earlier windows
      let through in that time: exactly the limit if and only if they let nothing through. */
  lemma DeniedAfterExactlyLimitIff(hits: seq<Attempt>, i: nat, limit: int, window: int)
    requires i < |hits| && Timed(hits) && Fixed(hits, hits[i].key, limit, window) && window > 0
    requires !Allowed(hits, i)
    ensures var (key, s) := (hits[i].key, Opener(hits[..i + 1], hits[i].key));
            var recent := LaterThan(hits[i].now - window as real);
            && s <= i
            && Count(hits[..i], key, recent) == Cap(limit) + Count(hits[..s], key, recent)
            && (Count(hits[..i], key, recent) == Cap(limit) <==> Count(hits[..s], key, recent) == 0)
  {
    var key, s := hits[i].key, Opener(hits[..i + 1], hits[i].key);
    DeniedIffWindowIsFull(hits, i, limit, window);
    assert hits[..i][..s] == hits[..s];
    CountSplits(hits[..i], key, s, hits[i].now - window as real);
  }

  const BOUNDARY := [
    Attempt("k", 2, 10, 0.0), Attempt("k", 2, 10, 9.0), Attempt("k", 2, 10, 10.0),
    Attempt("k", 2, 10, 11.0), Attempt("k", 2, 10, 12.0)]

  /** Hits at 0, 9, 10, 11 and 12 with limit 2 and window 10: the one at 11 is allowed although
      two were allowed in the ten seconds before it, and the one at 12 is denied although three were. */
  lemma WindowsForgetTheirPast()
    ensures Allowed(BOUNDARY, 3) && Count(BOUNDARY[..3], "k", LaterThan(1.0)) == 2
    ensures !Allowed(BOUNDARY, 4) && Count(BOUNDARY[..4], "k", LaterThan(2.0)) == 3
  {
    var p, q := LaterThan(1.0), LaterThan(2.0);
    assert Count(BOUNDARY[..0], "k", p) == 0 && Count(BOUNDARY[..0], "k", q) == 0;
    assert After(BOUNDARY[..0], "k") == NO_WINDOW;
    hide Count, After;
    OneAtATime(BOUNDARY, 0, p, q);
    OneAtATime(BOUNDARY, 1, p, q);
    OneAtATime(BOUNDARY, 2, p, q);
    OneAtATime(BOUNDARY, 3, p, q);
  }

  lemma OneAtATime(hits: seq<Attempt>, n: nat, p: Filter, q: Filter)
    requires n < |hits|
    ensures var key := hits[n].key;
            var after := Next(After(hits[..n], key), hits[n]);
            var allowed := after.count <= hits[n].limit;
            && After(hits[..n + 1], key) == after
            && Count(hits[..n + 1], key, p)
               == Count(hits[..n], key, p) + (if allowed && p(n, hits[n].now) then 1 else 0)
            && Count(hits[..n + 1], key, q)
               == Count(hits[..n], key, q) + (if allowed && q(n, hits[n].now) then 1 else 0)
  {
    assert hits[..n + 1][..n] == hits[..n];
  }

  // -- The bound -------------------------------------------------------------

  /** How many windows of the key the hits in [a, b] fall into. */
  function WindowsIn(hits: seq<Attempt>, key: string, a: real, b: real): nat {
    if hits == [] then 0
    else
      var (last, before) := (hits[|hits| - 1], hits[..|hits| - 1]);
      var n := WindowsIn(before, key, a, b);
      if last.key != key || !(a <= last.now <= b) then n
      else if n == 0 || Opens(After(before, key), last) then n + 1
      else n
  }

  /** The length of n windows, and what n of them let through. */
  function Length(window: int, n: int): real { n as real * window as real }

  function Total(limit: int, n: int): int { Cap(limit) * n }

  lemma LengthGrows(window: int, n: int, m: int)
    requires window > 0
    ensures Length(window, n + 1) == Length(window, n) + window as real
    ensures n <= m ==> Length(window, n) <= Length(window, m)
  {
    if n <= m {
      assert 0.0 <= (m - n) as real * window as real;
    }
  }

  lemma TotalGrows(limit: int, n: int, m: int)
    ensures Total(limit, n + 1) == Total(limit, n) + Cap(limit)
    ensures n <= m ==> Total(limit, n) <= Total(limit, m)
  {
    if n <= m {
      assert 0 <= Cap(limit) * (m - n);
    }
  }

  lemma {:induction false} WindowsHoldTheHits(hits: seq<Attempt>, key: string, limit: int, window: int, a: real,
                                              b: real)
    requires Timed(hits) && Fixed(hits, key, limit, window) && window > 0
    requires forall i | 0 <= i < |hits| :: hits[i].now <= b
    ensures var (w, n, allowed) := (After(hits, key), WindowsIn(hits, key, a, b), Count(hits, key, Between(a, b)));
            if n == 0 then allowed == 0
            else && w.count > 0
                 && a + Length(window, n - 1) < w.expires <= b + window as real
                 && allowed <= Total(limit, n - 1) + if w.count <= limit then w.count else Cap(limit)
  {
    hide Length, Total;
    if hits == [] {
      return;
    }
    var (before, last) := (hits[..|hits| - 1], hits[|hits| - 1]);
    WindowsHoldTheHits(before, key, limit, window, a, b);
    var w := After(before, key);
    var n: int := WindowsIn(before, key, a, b);
    var allowed := Count(before, key, Between(a, b));
    LastHit(hits, key, a, b);
    hide Opener, Count, After, WindowsIn;
    OpenWindow(before, key, limit, window);
    if last.key == key && last.now >= a {
      WindowsGrow(w, last, limit, window, n, allowed, a, b);
    } else if last.key == key {
      NothingInNoWindows(limit, window);
      LengthGrows(window, 0, n - 1);
    }
  }

  lemma LastHit(hits: seq<Attempt>, key: string, a: real, b: real)
    requires hits != []
    ensures var (before, last) := (hits[..|hits| - 1], hits[|hits| - 1]);
            var (w, n, allowed) := (After(before, key), WindowsIn(before, key, a, b),
                                    Count(before, key, Between(a, b)));
            if last.key == key && a <= last.now <= b then
              && After(hits, key) == Next(w, last)
              && WindowsIn(hits, key, a, b) == n + (if n == 0 || Opens(w, last) then 1 else 0)
              && Count(hits, key, Between(a, b)) == allowed + if Next(w, last).count <= last.limit then 1 else 0
            else
              && After(hits, key) == (if last.key == key then Next(w, last) else w)
              && WindowsIn(hits, key, a, b) == n && Count(hits, key, Between(a, b)) == allowed
  {
  }

  lemma WindowsGrow(w: Window, h: Attempt, limit: int, window: int, n: nat, allowed: nat, a: real, b: real)
    requires window > 0 && a <= h.now <= b && h.limit == limit && h.window == window
    requires if n == 0 then allowed == 0
             else && w.count > 0
                  && a + Length(window, n - 1) < w.expires <= b + window as real
                  && allowed <= Total(limit, n - 1) + if w.count <= limit then w.count else Cap(limit)
    requires w.count >= 0 && (w.count > 0 && !Opens(w, h) ==> h.now < w.expires <= b + window as real)
    requires w.count == 0 ==> Opens(w, h)
    ensures var n': int := n + if n == 0 || Opens(w, h) then 1 else 0;
            var w' := Next(w, h);
            var allowed' := allowed + if w'.count <= limit then 1 else 0;
            && w'.count > 0
            && a + Length(window, n' - 1) < w'.expires <= b + window as real
            && allowed' <= Total(limit, n' - 1) + if w'.count <= limit then w'.count else Cap(limit)
  {
    NothingInNoWindows(limit, window);
    LengthGrows(window, n - 1, n);
    TotalGrows(limit, n - 1, n);
  }

  /** In any closed interval no longer than m windows, at most limit * (m + 1) hits are allowed. */
  lemma {:induction false} AllowedInIntervalIsBounded(
      hits: seq<Attempt>, key: string, limit: int, window: int, a: real, b: real, m: nat)
    requires Timed(hits) && Fixed(hits, key, limit, window) && window > 0
    requires b - a <= Length(window, m)
    ensures Count(hits, key, Between(a, b)) <= Total(limit, m + 1)
  {
    hide Length, Total;
    if hits != [] && hits[|hits| - 1].now > b {
      AllowedInIntervalIsBounded(hits[..|hits| - 1], key, limit, window, a, b, m);
    } else {
      WindowsHoldTheHits(hits, key, limit, window, a, b);
      var n: int := WindowsIn(hits, key, a, b);
      LengthGrows(window, m, n - 2);
      LengthGrows(window, n - 2, n);
      TotalGrows(limit, n - 1, n);
      TotalGrows(limit, n, m + 1);
      TotalGrows(limit, 0, m + 1);
      NothingInNoWindows(limit, window);
    }
  }

  lemma NothingInNoWindows(limit: int, window: int)
    ensures Total(limit, 0) == 0 && Length(window, 0) == 0.0
  {
  }

  /** The least whole number of windows that covers a length. */
  function Ceiling(length: real, window: int): int
    requires window > 0
  {
    -(-length / window as real).Floor
  }

  lemma CeilingCovers(length: real, window: int)
    requires window > 0 && length >= 0.0
    ensures Ceiling(length, window) >= 0
    ensures length <= Ceiling(length, window) as real * window as real
  {
    var c, q := Ceiling(length, window), length / window as real;
    assert q * window as real == length;
    assert -length / window as real == -q;
    assert (c as real - q) * window as real >= 0.0;
  }

  lemma FixedWindowBound(hits: seq<Attempt>, key: string, limit: int, window: int, a: real, b: real)
    requires Timed(hits) && Fixed(hits, key, limit, window) && window > 0 && a <= b
    ensures Count(hits, key, Between(a, b)) <= Cap(limit) * (Ceiling(b - a, window) + 1)
  {
    CeilingCovers(b - a, window);
    AllowedInIntervalIsBounded(hits, key, limit, window, a, b, Ceiling(b - a, window));
  }

  // -- The bound is attained -------------------------------------------------

  /** n bursts of limit hits, one as each window opens, and k hits of the next. */
  function Bursts(limit: nat, window: int, n: nat, k: nat): seq<Attempt>
    decreases n, k
  {
    if k > 0 then Bursts(limit, window, n, k - 1) + [Attempt("k", limit, window, Length(window, n))]
    else if n > 0 then Bursts(limit, window, n - 1, limit)
    else []
  }

  lemma NoHits(key: string, limit: int, window: int, p: Filter)
    ensures Timed([]) && Fixed([], key, limit, window) && After([], key) == NO_WINDOW && Count([], key, p) == 0
  {
  }

  lemma OneMoreHit(hits: seq<Attempt>, h: Attempt, p: Filter)
    requires Timed(hits) && Fixed(hits, h.key, h.limit, h.window) && h.now >= 0.0
    requires forall i | 0 <= i < |hits| :: hits[i].now <= h.now
    ensures Timed(hits + [h]) && Fixed(hits + [h], h.key, h.limit, h.window)
    ensures After(hits + [h], h.key) == Next(After(hits, h.key), h)
    ensures Next(After(hits, h.key), h).count <= h.limit && p(|hits|, h.now) ==>
      Count(hits + [h], h.key, p) == Count(hits, h.key, p) + 1
  {
    assert (hits + [h])[..|hits|] == hits;
  }

  lemma {:induction false} BurstsAreAllowed(limit: nat, window: int, n: nat, k: nat, b: real)
    requires window > 0 && 0 < limit && k <= limit && Length(window, n) <= b
    ensures var hits := Bursts(limit, window, n, k);
            && Timed(hits) && Fixed(hits, "k", limit, window)
            && (forall i | 0 <= i < |hits| :: hits[i].now <= Length(window, n))
            && After(hits, "k") == (if k > 0 then Window(k, Length(window, n + 1))
                                    else if n > 0 then Window(limit, Length(window, n)) else NO_WINDOW)
            && Count(hits, "k", Between(0.0, b)) == Total(limit, n) + k
    decreases n, k
  {
    NoHits("k", limit, window, Between(0.0, b));
    hide Length, Total, Timed, Fixed, After, Count;
    NothingInNoWindows(limit, window);
    LengthGrows(window, n, n);
    LengthGrows(window, 0, n);
    if k > 0 {
      BurstsAreAllowed(limit, window, n, k - 1, b);
      OneMoreHit(Bursts(limit, window, n, k - 1), Attempt("k", limit, window, Length(window, n)), Between(0.0, b));
    } else if n > 0 {
      LengthGrows(window, n - 1, n);
      TotalGrows(limit, n - 1, n);
      BurstsAreAllowed(limit, window, n - 1, limit, b);
    }
  }

  /** The bound cannot be lowered: some history meets it for every limit, window and m. */
  lemma BoundIsAttained(limit: int, window: int, m: nat)
    requires window > 0
    ensures exists hits ::
      && Timed(hits) && Fixed(hits, "k", limit, window)
      && Count(hits, "k", Between(0.0, Length(window, m))) == Total(limit, m + 1)
  {
    var hits: seq<Attempt> := [];
    if limit > 0 {
      BurstsAreAllowed(limit, window, m, limit, Length(window, m));
      TotalGrows(limit, m, m);
      hits := Bursts(limit, window, m, limit);
    }
    assert Timed(hits) && Fixed(hits, "k", limit, window);
    assert Count(hits, "k", Between(0.0, Length(window, m))) == Total(limit, m + 1);
  }
}
