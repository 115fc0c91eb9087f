/**
 Envelope encryption, internal/secrets/kms.go and store.go: master keys inside a KMS wrap
 versioned data keys, data keys encrypt secrets, and a deployment keeps a frozen copy of its
 project's secrets.  Ciphertexts are symbolic: sealed under a key, opened by that key alone.
 */
module Secrets {
  import opened Text

  datatype Sealed = Sealed(key: string, plain: string)

  datatype Result<T> = Ok(value: T) | Err

  function Encrypt(plain: string, key: string): Sealed {
    Sealed(key, plain)
  }

  function Decrypt(c: Sealed, key: string): Result<string> {
    if c.key == key then Ok(c.plain) else Err
  }

  // ----- state

  datatype Kms = Kms(keys: map<string, string>, current: string, available: bool)

  datatype Provider = Provider(wrapped: map<int, Sealed>, keyIDs: map<int, string>, current: int)

  datatype Secret = Secret(project: string, deployment: string, name: string, cipher: Sealed, keyVersion: int, version: nat)

  /** The KMS, the key provider, and the store's two maps. */
  datatype Vault = Vault(kms: Kms, provider: Provider, projects: map<string, Secret>, snapshots: map<string, Secret>)

  datatype Outcome = Outcome(vault: Vault, ok: bool)

  // ----- KMS

  const MASTER_PREFIX := "nebula-kms-master-v"

  function MasterName(n: nat): string {
    MASTER_PREFIX + Decimal(n)
  }

  function Rotate(v: Vault, newKey: string): Outcome {
    if !v.kms.available then Outcome(v, false)
    else
      var id := MasterName(|v.kms.keys| + 1);
      Outcome(v.(kms := v.kms.(keys := v.kms.keys[id := newKey], current := id)), true)
  }

  function Wrap(kms: Kms, id: string, plain: string): Result<Sealed> {
    if kms.available && id in kms.keys then Ok(Encrypt(plain, kms.keys[id])) else Err
  }

  function Unwrap(kms: Kms, id: string, c: Sealed): Result<string> {
    if kms.available && id in kms.keys then Decrypt(c, kms.keys[id]) else Err
  }

  /** `up` says whether the KMS answers this call. */
  function ReWrap(kms: Kms, oldID: string, newID: string, c: Sealed, up: bool): Result<Sealed> {
    if !up || !kms.available || oldID !in kms.keys || newID !in kms.keys then Err
    else
      var plain := Decrypt(c, kms.keys[oldID]);
      if plain.Err? then Err else Ok(Encrypt(plain.value, kms.keys[newID]))
  }

  /** A new KMS with its first master key, a provider without data keys, and an empty store. */
  function NewVault(masterKey: string): Vault {
    Vault(Kms(map[MasterName(1) := masterKey], MasterName(1), true), Provider(map[], map[], 1), map[], map[])
  }

  // ----- key provider

  function Generate(v: Vault, version: int, dek: string): Outcome {
    var w := Wrap(v.kms, v.kms.current, dek);
    if w.Err? then Outcome(v, false)
    else
      var p := v.provider;
      Outcome(v.(provider := Provider(p.wrapped[version := w.value], p.keyIDs[version := v.kms.current],
                                      if version >= p.current then version else p.current)), true)
  }

  function GetKey(v: Vault, version: int): Result<string> {
    if version in v.provider.wrapped && version in v.provider.keyIDs
    then Unwrap(v.kms, v.provider.keyIDs[version], v.provider.wrapped[version]) else Err
  }

  function ReWrapOne(v: Vault, version: int, oldID: string, newID: string, up: bool): Outcome {
    var p := v.provider;
    var id := if version in p.keyIDs then p.keyIDs[version] else "";
    if version !in p.wrapped || id != oldID then Outcome(v, true)
    else
      var w := ReWrap(v.kms, oldID, newID, p.wrapped[version], up);
      if w.Err? then Outcome(v, false)
      else Outcome(v.(provider := p.(wrapped := p.wrapped[version := w.value], keyIDs := p.keyIDs[version := newID])), true)
  }

  /** The first `n` versions of the order in which the map yields them, up to the first error. */
  function ReWrapMany(v: Vault, oldID: string, newID: string, order: seq<int>, up: nat -> bool, n: nat): Outcome
    requires n <= |order|
  {
    if n == 0 then Outcome(v, true) else
      var o := ReWrapMany(v, oldID, newID, order, up, n - 1);
      if o.ok then ReWrapOne(o.vault, order[n - 1], oldID, newID, up(n - 1)) else o
  }

  // ----- store

  function Key(owner: string, name: string): string {
    owner + ":" + name
  }

  function SetSecret(v: Vault, project: string, name: string, plain: string): Outcome {
    var key := GetKey(v, v.provider.current);
    if key.Err? then Outcome(v, false)
    else
      var k := Key(project, name);
      var version := if k in v.projects then v.projects[k].version + 1 else 1;
      var s := Secret(project, "", name, Encrypt(plain, key.value), v.provider.current, version);
      Outcome(v.(projects := v.projects[k := s]), true)
  }

  function SnapshotMany(v: Vault, project: string, d: string, order: seq<string>, n: nat): Vault
    requires n <= |order|
  {
    if n == 0 then v else
      var u := SnapshotMany(v, project, d, order, n - 1);
      var k := order[n - 1];
      if k in u.projects && u.projects[k].project == project
      then u.(snapshots := u.snapshots[Key(d, u.projects[k].name) := u.projects[k].(deployment := d)]) else u
  }

  /** Copies the project's secrets, still sealed, under the deployment. */
  function Snapshot(v: Vault, project: string, d: string, order: seq<string>): Vault {
    SnapshotMany(v, project, d, order, |order|)
  }

  function Open(v: Vault, s: Secret): Result<string> {
    var key := GetKey(v, s.keyVersion);
    if key.Err? then Err else Decrypt(s.cipher, key.value)
  }

  function SnapshotKeys(v: Vault, d: string): set<string> {
    set k | k in v.snapshots && v.snapshots[k].deployment == d
  }

  function ProjectKeys(v: Vault, project: string): set<string> {
    set k | k in v.projects && v.projects[k].project == project
  }

  /** `r` is what reading the chosen secrets gives: all of them by name, or an error if one cannot be opened. */
  ghost predicate Reads(v: Vault, secrets: map<string, Secret>, chosen: set<string>, r: Result<map<string, string>>)
    requires chosen <= secrets.Keys
  {
    match r
    case Err => exists k :: k in chosen && Open(v, secrets[k]).Err?
    case Ok(values) =>
      && (forall k :: k in chosen ==> Open(v, secrets[k]).Ok? && secrets[k].name in values)
      && (forall name :: name in values ==> Supplies(v, secrets, chosen, name, values[name]))
  }

  ghost predicate Supplies(v: Vault, secrets: map<string, Secret>, chosen: set<string>, name: string, value: string)
    requires chosen <= secrets.Keys
  {
    exists k :: k in chosen && secrets[k].name == name && Open(v, secrets[k]) == Ok(value)
  }

  class SecretService {
    var vault: Vault

    /** A KMS with one master key, and a provider that generates data key version 1 under it. */
    constructor (masterKey: string, dek: string)
      ensures vault == Generate(NewVault(masterKey), 1, dek).vault
    {
      vault := NewVault(masterKey);
      new;
      var ok := GenerateAndWrapKey(1, dek);
    }

    method RotateKey(newKey: string) returns (r: Result<string>)
      modifies this
      ensures var o := Rotate(old(vault), newKey); vault == o.vault && (r.Ok? <==> o.ok) && (r.Ok? ==>
            r.value == vault.kms.current)
    {
      if !vault.kms.available {
        return Err;
      }
      var id := MasterName(|vault.kms.keys| + 1);
      vault := vault.(kms := vault.kms.(keys := vault.kms.keys[id := newKey], current := id));
      return Ok(id);
    }

    method GenerateAndWrapKey(version: int, dek: string) returns (ok: bool)
      modifies this
      ensures Outcome(vault, ok) == Generate(old(vault), version, dek)
    {
      var id := vault.kms.current;
      var w := Wrap(vault.kms, id, dek);
      if w.Err? {
        return false;
      }
      var p := vault.provider;
      var current := p.current;
      if version >= current {
        current := version;
      }
      vault := vault.(provider := Provider(p.wrapped[version := w.value], p.keyIDs[version := id], current));
      return true;
    }

    method ReWrapKeys(oldID: string, newID: string, order: seq<int>, up: nat -> bool) returns (ok: bool)
      modifies this
      ensures Outcome(vault, ok) == ReWrapMany(old(vault), oldID, newID, order, up, |order|)
    {
      ghost var start := vault;
      ok := true;
      for n := 0 to |order|
        invariant ok && Outcome(vault, ok) == ReWrapMany(start, oldID, newID, order, up, n)
      {
        var o := ReWrapOne(vault, order[n], oldID, newID, up(n));
        vault := o.vault;
        if !o.ok {
          ErrorEndsReWrap(start, oldID, newID, order, up, n + 1, |order|);
          return false;
        }
      }
    }

    method PutSecret(project: string, name: string, plain: string) returns (ok: bool)
      modifies this
      ensures Outcome(vault, ok) == SetSecret(old(vault), project, name, plain)
    {
      var keyVersion := vault.provider.current;
      var key := GetKey(vault, keyVersion);
      if key.Err? {
        return false;
      }
      var k, version := Key(project, name), 1;
      if k in vault.projects {
        version := vault.projects[k].version + 1;
      }
      vault := vault.(projects := vault.projects[k := Secret(project, "", name, Encrypt(plain, key.value), keyVersion, version)]);
      return true;
    }

    method SnapshotForDeployment(project: string, d: string, order: seq<string>)
      modifies this
      ensures vault == Snapshot(old(vault), project, d, order)
    {
      ghost var start := vault;
      for n := 0 to |order|
        invariant vault == SnapshotMany(start, project, d, order, n)
      {
        var k := order[n];
        if k in vault.projects && vault.projects[k].project == project {
          vault := vault.(snapshots := vault.snapshots[Key(d, vault.projects[k].name) := vault.projects[k].(deployment := d)]);
        }
      }
    }

    /** Opens the chosen secrets one by one, in any order. */
    method ReadAll(secrets: map<string, Secret>, chosen: set<string>) returns (r: Result<map<string, string>>)
      requires chosen <= secrets.Keys
      ensures Reads(vault, secrets, chosen, r)
    {
      var todo, values := chosen, map[];
      while todo != {}
        invariant todo <= chosen
        invariant forall k :: k in chosen - todo ==> Open(vault, secrets[k]).Ok? && secrets[k].name in values
        invariant forall name :: name in values ==> Supplies(vault, secrets, chosen, name, values[name])
        decreases |todo|
      {
        var k :| k in todo;
        var plain := Open(vault, secrets[k]);
        if plain.Err? {
          return Err;
        }
        values := values[secrets[k].name := plain.value];
        todo := todo - {k};
      }
      return Ok(values);
    }

    method GetSecretsForDeployment(d: string) returns (r: Result<map<string, string>>)
      ensures Reads(vault, vault.snapshots, SnapshotKeys(vault, d), r)
    {
      r := ReadAll(vault.snapshots, SnapshotKeys(vault, d));
    }

    method GetSecretsForProject(project: string) returns (r: Result<map<string, string>>)
      ensures Reads(vault, vault.projects, ProjectKeys(vault, project), r)
    {
      r := ReadAll(vault.projects, ProjectKeys(vault, project));
    }
  }

  lemma {:induction false} ErrorEndsReWrap(v: Vault, oldID: string, newID: string, order: seq<int>,
                                           up: nat -> bool, n: nat, m: nat)
    requires n <= m <= |order| && !ReWrapMany(v, oldID, newID, order, up, n).ok
    ensures ReWrapMany(v, oldID, newID, order, up, m) == ReWrapMany(v, oldID, newID, order, up, n)
    decreases m
  {
    if n < m {
      ErrorEndsReWrap(v, oldID, newID, order, up, n, m - 1);
    }
  }
}
