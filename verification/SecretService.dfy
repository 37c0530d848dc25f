/** The secret service, step by step on a unit of work. */
module SecretService {
  import opened Prelude
  import opened Envelope
  import opened Schema
  import opened Policies
  import opened Repositories
  import opened UnitOfWork
  import opened Rbac
  import Services

  type Answer = Services.Answer

  class SecretService {
    const crypto: Suite

    constructor (crypto: Suite)
      ensures this.crypto == crypto
    {
      this.crypto := crypto;
    }

    /** The end both writers share: the version row is flushed for its id, the pointer is moved
        to it, and the transaction commits. */
    method FinishVersion(uow: TenantWork, versionId: Id, row: SecretVersion) returns (r: Result<(), Error>)
      requires uow.Gate() == uow.OwnGate() && uow.deferred == Repositories.Commit
      modifies uow
      ensures match Services.FinishVersion(old(uow.Gate()), old(uow.work), versionId, row)
              case Success(db) =>
                r == Success(()) && uow.committed == db && uow.work == db && uow.Gate() == uow.OwnGate()
              case Failure(e) => r == Failure(e) && uow.committed == old(uow.committed)
    {
      hide InsertVersion, PointSecret, CurrentPointersValid;
      var flushed := uow.Execute(InsertVersion(uow.work, uow.Gate(), versionId, row));
      if flushed.Failure? {
        return Failure(flushed.error);
      }
      flushed := uow.Execute(PointSecret(uow.work, uow.Gate(), row.secret, versionId));
      if flushed.Failure? {
        return Failure(flushed.error);
      }
      r := uow.Commit();
    }

    method CreateSecret(uow: TenantWork, env: Id, org: Id, name: string, plain: string, actor: Id,
                        iv: Nonce, id: Id, versionId: Id) returns (r: Result<Answer, Error>)
      requires Ready(uow)
      modifies uow
      ensures Did(uow, old(uow.committed),
                  Services.CreateSecret(crypto, old(uow.Gate()), old(uow.committed), org, actor, env, name, plain, iv,
                                        id, versionId),
                  r)
    {
      hide TableConstraints, InsertSecret, Services.FinishVersion, Services.RequireOrgRole;
      hide Services.ResolveEnvironmentOrg;
      hide EncryptSecret, LiveSecretsByName, ActiveKeys, CurrentPointersValid;
      var g := uow.Gate();
      var checked := RequireOrgRole(uow, org, actor, Member);
      if checked.Failure? {
        return Failure(checked.error);
      }
      var resolved := Services.ResolveEnvironmentOrg(uow.work, g, env, org);
      if resolved.Failure? {
        return Failure(resolved.error);
      }

      OneLiveSecretByName(uow.work, g, env, name);
      var existing := PickOne(LiveSecretsByName(uow.work, g, env, name));
      if existing.Some? {
        return Failure(SecretAlreadyExists);
      }
      OneActiveKey(uow.work, g, env);
      var key := PickOne(ActiveKeys(uow.work, g, env));
      if key.None? {
        return Failure(EncryptionKeyNotFound);
      }
      KeyExists(uow.work, g, env, key.value);
      var encrypted := Services.Encrypted(crypto, plain, iv, uow.work.keys[key.value].wrapped);
      if encrypted.Failure? {
        return Failure(encrypted.error);
      }

      // Flushed before its version, which refers to it.
      var flushed := uow.Execute(InsertSecret(uow.work, g, id, Secret(env, name, None, false)));
      if flushed.Failure? {
        return Failure(flushed.error);
      }
      var done := FinishVersion(uow, versionId, SecretVersion(id, key.value, encrypted.value, iv, 1, actor));
      if done.Failure? {
        return Failure(done.error);
      }
      r := Success(Services.Created(id));
    }

    method AddNewVersion(uow: TenantWork, secret: Id, org: Id, plain: string, actor: Id, iv: Nonce, versionId: Id)
      returns (r: Result<Answer, Error>)
      requires Ready(uow)
      modifies uow
      ensures Did(uow, old(uow.committed),
                  Services.AddNewVersion(crypto, old(uow.Gate()), old(uow.committed), org, actor, secret, plain, iv,
                                         versionId),
                  r)
    {
      hide TableConstraints, Services.FinishVersion, Services.RequireOrgRole, Services.GetOwnedSecret, EncryptSecret;
      hide ActiveKeys, LatestVersions, CurrentPointersValid;
      var g := uow.Gate();
      var checked := RequireOrgRole(uow, org, actor, Member);
      if checked.Failure? {
        return Failure(checked.error);
      }
      var owned := Services.GetOwnedSecret(uow.work, g, secret, org);
      if owned.Failure? {
        return Failure(owned.error);
      }

      OneActiveKey(uow.work, g, owned.value.env);
      var key := PickOne(ActiveKeys(uow.work, g, owned.value.env));
      if key.None? {
        return Failure(EncryptionKeyNotFound);
      }
      KeyExists(uow.work, g, owned.value.env, key.value);
      var encrypted := Services.Encrypted(crypto, plain, iv, uow.work.keys[key.value].wrapped);
      if encrypted.Failure? {
        return Failure(encrypted.error);
      }

      OneLatestVersion(uow.work, g, secret);
      var latest := PickOne(LatestVersions(uow.work, g, secret));
      var number := 1;
      if latest.Some? {
        number := uow.work.versions[latest.value].number + 1;
      }
      var done := FinishVersion(uow, versionId, SecretVersion(secret, key.value, encrypted.value, iv, number, actor));
      if done.Failure? {
        return Failure(done.error);
      }
      r := Success(Services.Created(versionId));
    }

    method ListSecrets(uow: TenantWork, env: Id, org: Id, actor: Id) returns (r: Result<Answer, Error>)
      requires Ready(uow)
      ensures Did(uow, uow.committed, Services.ListSecrets(uow.Gate(), uow.committed, org, actor, env), r)
    {
      hide TableConstraints, Services.RequireOrgRole, Services.ResolveEnvironmentOrg, LiveSecrets, CurrentPointersValid;
      var checked := RequireOrgRole(uow, org, actor, Viewer);
      if checked.Failure? {
        return Failure(checked.error);
      }
      var resolved := Services.ResolveEnvironmentOrg(uow.work, uow.Gate(), env, org);
      if resolved.Failure? {
        return Failure(resolved.error);
      }
      r := Success(Services.SecretRows(LiveSecrets(uow.work, uow.Gate(), env)));
    }

    method GetDecryptedValue(uow: TenantWork, secret: Id, org: Id, actor: Id) returns (r: Result<Answer, Error>)
      requires Ready(uow)
      modifies uow
      ensures Did(uow, old(uow.committed),
                  Services.GetDecryptedValue(crypto, old(uow.Gate()), old(uow.committed), org, actor, secret), r)
    {
      hide TableConstraints, Services.RequireOrgRole, Services.GetOwnedSecret, GetVersion, GetKey, DecryptSecret;
      hide InsertAudit, CurrentPointersValid;
      var g := uow.Gate();
      var checked := RequireOrgRole(uow, org, actor, Member);
      if checked.Failure? {
        return Failure(checked.error);
      }
      var owned := Services.GetOwnedSecret(uow.work, g, secret, org);
      if owned.Failure? {
        return Failure(owned.error);
      }
      if owned.value.current.None? {
        return Failure(NoActiveVersion);
      }

      var versionId := owned.value.current.value;
      var version := GetVersion(uow.work, g, versionId);
      if version.None? {
        return Failure(VersionRecordMissing);
      }
      var key := GetKey(uow.work, g, version.value.key);
      if key.None? {
        return Failure(EncryptionKeyNotFound);
      }
      var plain := Services.Decrypted(crypto, version.value.value, version.value.iv, key.value.wrapped);
      if plain.Failure? {
        return Failure(plain.error);
      }

      var entry := AuditEntry(org, actor, secret, owned.value.name, versionId);
      var recorded := uow.Execute(InsertAudit(uow.work, g, entry));
      if recorded.Failure? {
        return Failure(recorded.error);
      }
      var done := uow.Commit();
      if done.Failure? {
        return Failure(done.error);
      }
      r := Success(Services.Plaintext(plain.value));
    }

    method DeleteSecret(uow: TenantWork, secret: Id, org: Id, actor: Id) returns (r: Result<Answer, Error>)
      requires Ready(uow)
      modifies uow
      ensures Did(uow, old(uow.committed),
                  Services.DeleteSecret(old(uow.Gate()), old(uow.committed), org, actor, secret), r)
    {
      hide TableConstraints, Services.RequireOrgRole, Services.GetOwnedSecret, SoftDelete, CurrentPointersValid;
      var g := uow.Gate();
      var checked := RequireOrgRole(uow, org, actor, Member);
      if checked.Failure? {
        return Failure(checked.error);
      }
      var owned := Services.GetOwnedSecret(uow.work, g, secret, org);
      if owned.Failure? {
        return Failure(owned.error);
      }
      var updated := uow.Execute(SoftDelete(uow.work, g, secret));
      if updated.Failure? {
        return Failure(updated.error);
      }
      var done := uow.Commit();
      if done.Failure? {
        return Failure(done.error);
      }
      r := Success(Services.Done);
    }
  }

  lemma KeyExists(db: Db, g: Gate, env: Id, key: Id)
    requires key in ActiveKeys(db, g, env)
    ensures key in db.keys
  {
  }
}
