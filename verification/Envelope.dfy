/**
 Envelope encryption: data encryption keys (DEKs) wrapped by a master key, and
 secret values encrypted under a DEK. The cipher is any authenticated cipher with
 12-byte nonces and a 16-byte tag, which is what sections 7.1 and 7.2 of
 NIST SP 800-38D give for GCM; ToySuite shows that such a cipher exists.
 */
module Envelope {
  import opened Prelude

  type Bytes = seq<bv8>

  type Key = b: Bytes | |b| == 32 witness seq(32, _ => 0)

  type Nonce = b: Bytes | |b| == 12 witness seq(12, _ => 0)

  const TAG_LENGTH := 16

  datatype CryptoError = TooShort | InvalidTag | BadKeySize | BadText

  /** The cipher, the text encoding and the master key a process runs with. */
  datatype Suite = Suite(
    encrypt: (Bytes, Bytes, Bytes) -> Bytes,
    decrypt: (Bytes, Bytes, Bytes) -> Option<Bytes>,
    encode: string -> Bytes,
    decode: Bytes -> Option<string>,
    masterKey: Key)

  /** Decryption accepts a ciphertext exactly when encryption produced it under the same key and nonce. */
  ghost predicate Authenticated(s: Suite) {
    && (forall k: Key, n: Nonce, p: Bytes ::
          |s.encrypt(k, n, p)| == |p| + TAG_LENGTH && s.decrypt(k, n, s.encrypt(k, n, p)) == Some(p))
    && (forall k: Key, n: Nonce, c: Bytes {:trigger s.decrypt(k, n, c)} ::
          s.decrypt(k, n, c).Some? ==> c == s.encrypt(k, n, s.decrypt(k, n, c).value))
    && (forall t: string :: s.decode(s.encode(t)) == Some(t))
  }

  // -- Key wrapping ----------------------------------------------------------

  /** Wraps a DEK under the master key; the nonce goes in front of the ciphertext. */
  function EncryptDek(s: Suite, nonce: Nonce, dek: Bytes): Bytes {
    nonce + s.encrypt(s.masterKey, nonce, dek)
  }

  function DecryptDek(s: Suite, wrapped: Bytes): Result<Bytes, CryptoError> {
    if |wrapped| < 28 then Failure(TooShort)
    else match s.decrypt(s.masterKey, wrapped[..12], wrapped[12..])
      case None => Failure(InvalidTag)
      case Some(dek) => Success(dek)
  }

  /** The random DEK and nonce are inputs. */
  function CreateWrappedDek(s: Suite, dek: Key, nonce: Nonce): Bytes {
    EncryptDek(s, nonce, dek)
  }

  // -- Secret values ---------------------------------------------------------

  predicate ValidKeySize(dek: Bytes) {
    |dek| == 16 || |dek| == 24 || |dek| == 32
  }

  function EncryptSecret(s: Suite, plain: string, iv: Nonce, wrapped: Bytes): Result<Bytes, CryptoError> {
    var dek :- DecryptDek(s, wrapped);
    if !ValidKeySize(dek) then Failure(BadKeySize)
    else Success(s.encrypt(dek, iv, s.encode(plain)))
  }

  function DecryptSecret(s: Suite, value: Bytes, iv: Nonce, wrapped: Bytes): Result<string, CryptoError> {
    var dek :- DecryptDek(s, wrapped);
    if !ValidKeySize(dek) then Failure(BadKeySize)
    else match s.decrypt(dek, iv, value)
      case None => Failure(InvalidTag)
      case Some(bytes) =>
        match s.decode(bytes)
        case None => Failure(BadText)
        case Some(text) => Success(text)
  }

  /** A stored wrapped key is usable when it unwraps to a 256-bit DEK. */
  predicate Usable(s: Suite, wrapped: Bytes) {
    var r := DecryptDek(s, wrapped);
    r.Success? && |r.value| == 32
  }

  // -- Properties ------------------------------------------------------------

  /** Unwrapping accepts w and yields dek exactly when w is a wrapping of dek, so in
      particular the length guard never rejects an honest wrapped key and everything
      it rejects is no wrapping at all. */
  lemma UnwrapInvertsWrap(s: Suite, w: Bytes, dek: Bytes)
    requires Authenticated(s)
    ensures DecryptDek(s, w) == Success(dek) <==> exists n: Nonce :: w == EncryptDek(s, n, dek)
  {
    if DecryptDek(s, w) == Success(dek) {
      var n: Nonce := w[..12];
      assert s.decrypt(s.masterKey, n, w[12..]) == Some(dek);
      assert w == w[..12] + w[12..];
      assert w == EncryptDek(s, n, dek);
    }
    if n: Nonce :| w == EncryptDek(s, n, dek) {
      assert |s.encrypt(s.masterKey, n, dek)| == |dek| + TAG_LENGTH;
      assert w[..12] == n && w[12..] == s.encrypt(s.masterKey, n, dek);
    }
  }

  lemma WrappedDekIsUsable(s: Suite, dek: Key, nonce: Nonce)
    requires Authenticated(s)
    ensures DecryptDek(s, CreateWrappedDek(s, dek, nonce)) == Success(dek)
    ensures |CreateWrappedDek(s, dek, nonce)| == 60
    ensures Usable(s, CreateWrappedDek(s, dek, nonce))
  {
    UnwrapInvertsWrap(s, EncryptDek(s, nonce, dek), dek);
  }

  /** Under a usable wrapped key every plaintext encrypts, and the ciphertext decrypts
      back to that plaintext and to no other. */
  lemma EnvelopeRoundTrip(s: Suite, plain: string, iv: Nonce, wrapped: Bytes)
    requires Authenticated(s) && Usable(s, wrapped)
    ensures EncryptSecret(s, plain, iv, wrapped).Success?
    ensures DecryptSecret(s, EncryptSecret(s, plain, iv, wrapped).value, iv, wrapped) == Success(plain)
  {
    var dek: Key := DecryptDek(s, wrapped).value;
    assert s.decrypt(dek, iv, s.encrypt(dek, iv, s.encode(plain))) == Some(s.encode(plain));
  }

  /** Any value that decrypts was encrypted, byte for byte, under that key and IV. */
  lemma OnlyCiphertextsDecrypt(s: Suite, value: Bytes, iv: Nonce, wrapped: Bytes)
    requires Authenticated(s) && Usable(s, wrapped)
    requires DecryptSecret(s, value, iv, wrapped).Success?
    ensures exists bytes: Bytes ::
              && s.decode(bytes) == Some(DecryptSecret(s, value, iv, wrapped).value)
              && value == s.encrypt(DecryptDek(s, wrapped).value, iv, bytes)
  {
    var dek: Key := DecryptDek(s, wrapped).value;
    var bytes := s.decrypt(dek, iv, value).value;
    assert s.decode(bytes) == Some(DecryptSecret(s, value, iv, wrapped).value);
  }

  // -- An instance -----------------------------------------------------------

  function ToyTag(n: Bytes): Bytes {
    n + [0, 0, 0, 0]
  }

  function CharBytes(c: char): Bytes {
    seq(c as int, _ => 1) + [0]
  }

  function ToyEncode(t: string): Bytes {
    if t == "" then [] else CharBytes(t[0]) + ToyEncode(t[1..])
  }

  /** Appends a tag made of the nonce; only there to show that Authenticated can be met. */
  ghost function ToySuite(masterKey: Key): Suite {
    Suite(
      (k, n, p) => p + ToyTag(n),
      (k, n, c) =>
        if |c| >= |ToyTag(n)| && c[|c| - |ToyTag(n)|..] == ToyTag(n)
        then Some(c[..|c| - |ToyTag(n)|]) else None,
      t => ToyEncode(t),
      b => if exists t :: ToyEncode(t) == b then (var t :| ToyEncode(t) == b; Some(t)) else None,
      masterKey)
  }

  lemma {:induction false} ToyEncodeInjective(t: string, u: string)
    requires ToyEncode(t) == ToyEncode(u)
    ensures t == u
  {
    if t != "" && u != "" {
      var a, b := CharBytes(t[0]), CharBytes(u[0]);
      var x, y := ToyEncode(t), ToyEncode(u);
      assert x[..|a|] == a && y[..|b|] == b && x[|a|..] == ToyEncode(t[1..]) && y[|b|..] == ToyEncode(u[1..]);
      assert x[t[0] as int] == 0 && y[u[0] as int] == 0;
      ToyEncodeInjective(t[1..], u[1..]);
      assert t == [t[0]] + t[1..] && u == [u[0]] + u[1..];
    }
  }

  /** Authenticated is satisfiable. */
  lemma ToySuiteIsAuthenticated(masterKey: Key)
    ensures Authenticated(ToySuite(masterKey))
  {
    var s := ToySuite(masterKey);
    forall k: Key, n: Nonce, p: Bytes
      ensures |s.encrypt(k, n, p)| == |p| + TAG_LENGTH && s.decrypt(k, n, s.encrypt(k, n, p)) == Some(p)
    {
      var c := p + ToyTag(n);
      assert c[|p|..] == ToyTag(n) && c[..|p|] == p;
    }
    forall k: Key, n: Nonce, c: Bytes | s.decrypt(k, n, c).Some?
      ensures c == s.encrypt(k, n, s.decrypt(k, n, c).value)
    {
      var cut := |c| - |ToyTag(n)|;
      assert c == c[..cut] + c[cut..];
    }
    forall t: string
      ensures s.decode(s.encode(t)) == Some(t)
    {
      var u := s.decode(ToyEncode(t)).value;
      ToyEncodeInjective(t, u);
    }
  }
}
