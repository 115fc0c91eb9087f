/**
 What each operation on the vault brings about: a rotation decides what later keys are
 wrapped under, a complete re-wrap lets the old master key go, and a secret is sealed under
 the newest data key.
 */
module SecretOutcomes {
  import opened Text
  import opened Secrets
  import opened SecretSafety

  // ----- rotation

  /** A rotation adds the new key under a new name and makes it current; without the KMS nothing happens. */
  lemma {:induction false} RotationTakesOver(v: Vault, newKey: string)
    requires Inv(v)
    ensures var o := Rotate(v, newKey); var id := o.vault.kms.current;
            && o.ok == v.kms.available
            && (!o.ok ==> o.vault == v)
            && (o.ok ==> id == "nebula-kms-master-v" + Decimal(|v.kms.keys| + 1) && id !in v.kms.keys)
            && (o.ok ==> o.vault == v.(kms := Kms(v.kms.keys[id := newKey], id, true)))
  {
    RotateNumbers(v.kms, newKey);
  }

  /** A data key generated after a rotation is wrapped under the new master key. */
  lemma {:induction false} RotationDecidesWrapping(v: Vault, newKey: string, version: int, dek: string)
    requires Inv(v) && v.kms.available
    ensures var r := Rotate(v, newKey).vault; var o := Generate(r, version, dek); var p := o.vault.provider;
            && o.ok && o.vault == r.(provider := p)
            && p.wrapped == v.provider.wrapped[version := Sealed(newKey, dek)]
            && p.keyIDs == v.provider.keyIDs[version := r.kms.current]
            && p.current == (if version > v.provider.current then version else v.provider.current)
  {
  }

  // ----- re-wrapping

  /** Version `n` is wrapped under the new master key, with the same data key inside. */
  predicate MovedTo(v: Vault, u: Vault, newID: string, n: int) {
    && n in v.provider.wrapped && n in u.provider.wrapped && n in u.provider.keyIDs && newID in v.kms.keys
    && u.provider.keyIDs[n] == newID && u.provider.wrapped[n] == Sealed(v.kms.keys[newID], v.provider.wrapped[n].plain)
  }

  predicate SameVersion(v: Vault, u: Vault, n: int) {
    && (n in u.provider.wrapped <==> n in v.provider.wrapped) && (n in u.provider.keyIDs <==> n in v.provider.keyIDs)
    && (n in v.provider.wrapped ==> u.provider.wrapped[n] == v.provider.wrapped[n])
    && (n in v.provider.keyIDs ==> u.provider.keyIDs[n] == v.provider.keyIDs[n])
  }

  predicate Under(v: Vault, n: int, id: string) {
    n in v.provider.wrapped && n in v.provider.keyIDs && v.provider.keyIDs[n] == id
  }

  /** Those of `done` that were wrapped under the old master key have moved, and no other version has. */
  ghost predicate ReWrapped(v: Vault, u: Vault, oldID: string, newID: string, done: seq<int>) {
    && u == v.(provider := Provider(u.provider.wrapped, u.provider.keyIDs, v.provider.current))
    && forall n :: if n in done && Under(v, n, oldID) then MovedTo(v, u, newID, n) else SameVersion(v, u, n)
  }

  /** Entry `k` of the order is the one at which its version is re-wrapped. */
  predicate Due(v: Vault, oldID: string, order: seq<int>, k: nat) {
    k < |order| && Under(v, order[k], oldID) && order[k] !in order[..k]
  }

  /** The KMS can re-wrap to `newID` and answers each of the first `n` calls made to it. */
  ghost predicate Answers(v: Vault, oldID: string, newID: string, order: seq<int>, up: nat -> bool, n: nat) {
    forall k: nat :: k < n && Due(v, oldID, order, k) ==> up(k) && v.kms.available && newID in v.kms.keys
  }

  lemma {:induction false} ReWrapOneMoves(v: Vault, u: Vault, oldID: string, newID: string, done: seq<int>, n: int, up: bool)
    requires Inv(v) && oldID != newID && ReWrapped(v, u, oldID, newID, done)
    ensures var o := ReWrapOne(u, n, oldID, newID, up);
            && (o.ok <==> (Under(v, n, oldID) && n !in done ==> up && v.kms.available && newID in v.kms.keys))
            && (o.ok ==> ReWrapped(v, o.vault, oldID, newID, done + [n]))
            && (!o.ok ==> o.vault == u)
  {
    var o := ReWrapOne(u, n, oldID, newID, up);
    assert if n in done && Under(v, n, oldID) then MovedTo(v, u, newID, n) else SameVersion(v, u, n);
    if o.ok {
      forall m ensures if m in done + [n] && Under(v, m, oldID) then MovedTo(v, o.vault, newID, m) else SameVersion(v, o.vault, m) {
        assert if m in done && Under(v, m, oldID) then MovedTo(v, u, newID, m) else SameVersion(v, u, m);
      }
    }
  }

  lemma {:induction false} ReWrapManyMoves(v: Vault, oldID: string, newID: string, order: seq<int>, up: nat -> bool, n: nat)
    requires Inv(v) && oldID != newID && n <= |order|
    ensures var o := ReWrapMany(v, oldID, newID, order, up, n);
            (o.ok <==> Answers(v, oldID, newID, order, up, n)) && (o.ok ==> ReWrapped(v, o.vault, oldID, newID, order[..n]))
  {
    if n > 0 {
      ReWrapManyMoves(v, oldID, newID, order, up, n - 1);
      var o := ReWrapMany(v, oldID, newID, order, up, n - 1);
      assert Answers(v, oldID, newID, order, up, n) <==>
             Answers(v, oldID, newID, order, up, n - 1)
             && (Due(v, oldID, order, n - 1) ==> up(n - 1) && v.kms.available && newID in v.kms.keys);
      if o.ok {
        ReWrapOneMoves(v, o.vault, oldID, newID, order[..n - 1], order[n - 1], up(n - 1));
        assert order[..n] == order[..n - 1] + [order[n - 1]];
      }
    }
  }

  /**
   A re-wrap over all versions succeeds if and only if the KMS answers every call made, and then
   no version is left under the old master key, those that were are under the new one, and every
   version holds the data key it held.
   */
  lemma {:induction false} ReWrapIsComplete(v: Vault, oldID: string, newID: string, order: seq<int>, up: nat -> bool)
    requires Inv(v) && oldID != newID && forall n :: n in v.provider.wrapped ==> n in order
    ensures var o := ReWrapMany(v, oldID, newID, order, up, |order|);
            && (o.ok <==> Answers(v, oldID, newID, order, up, |order|))
            && (o.ok ==> forall n :: n in v.provider.wrapped ==>
                  if v.provider.keyIDs[n] == oldID then MovedTo(v, o.vault, newID, n) else SameVersion(v, o.vault, n))
            && (o.ok ==> forall n :: n in o.vault.provider.keyIDs ==> o.vault.provider.keyIDs[n] != oldID)
  {
    var o := ReWrapMany(v, oldID, newID, order, up, |order|);
    ReWrapManyMoves(v, oldID, newID, order, up, |order|);
    assert order[..|order|] == order;
    if o.ok {
      forall n ensures Under(v, n, oldID) ==> MovedTo(v, o.vault, newID, n)
               ensures !Under(v, n, oldID) ==> SameVersion(v, o.vault, n)
      {
        assert if n in order && Under(v, n, oldID) then MovedTo(v, o.vault, newID, n) else SameVersion(v, o.vault, n);
      }
      forall n | n in o.vault.provider.keyIDs ensures o.vault.provider.keyIDs[n] != oldID {
        assert n in v.provider.keyIDs ==> n in v.provider.wrapped;
        assert Under(v, n, oldID) || SameVersion(v, o.vault, n);
      }
    }
  }

  function Destroy(v: Vault, id: string): Vault {
    v.(kms := v.kms.(keys := v.kms.keys - {id}))
  }

  /** What re-wrapping is for: once it has completed, every data key can be read without the old master key. */
  lemma {:induction false} OldMasterCanGo(v: Vault, oldID: string, newID: string, order: seq<int>, up: nat -> bool, n: int)
    requires Inv(v) && v.kms.available && oldID != newID && n in v.provider.wrapped
    requires forall m :: m in v.provider.wrapped ==> m in order
    requires ReWrapMany(v, oldID, newID, order, up, |order|).ok
    ensures GetKey(Destroy(ReWrapMany(v, oldID, newID, order, up, |order|).vault, oldID), n) == GetKey(v, n) == Ok(DataKey(v, n))
  {
    var u := ReWrapMany(v, oldID, newID, order, up, |order|).vault;
    ReWrapIsComplete(v, oldID, newID, order, up);
    ReWrapManyMoves(v, oldID, newID, order, up, |order|);
    ReWrapManyKeeps(v, oldID, newID, order, up, |order|);
    GetKeyMeans(v, n);
    GetKeyMeans(u, n);
  }

  // ----- secrets

  /**
   A secret is set exactly if the current data key can be read: it is sealed under that key, takes
   the next version number of its name, reads back as given, and nothing else changes.
   */
  lemma {:induction false} SetSecretOutcome(v: Vault, project: string, name: string, plain: string)
    requires Inv(v)
    ensures var o, n, k := SetSecret(v, project, name, plain), v.provider.current, project + ":" + name;
            && (o.ok <==> v.kms.available && n in v.provider.wrapped)
            && (!o.ok ==> o.vault == v)
            && (o.ok ==> k in o.vault.projects && Open(o.vault, o.vault.projects[k]) == Ok(plain))
            && (o.ok ==> o.vault == v.(projects := v.projects[k := Secret(project, "", name, Sealed(DataKey(v, n), plain), n,
                                                                           if k in v.projects then v.projects[k].version + 1 else 1)]))
  {
    if v.kms.available && v.provider.current in v.provider.wrapped {
      GetKeyMeans(v, v.provider.current);
    }
  }

  /** A data key of a new highest version is what secrets are sealed under from then on. */
  lemma {:induction false} NewestKeySeals(v: Vault, version: int, dek: string, project: string, name: string, plain: string)
    requires Inv(v) && v.kms.available && version !in v.provider.wrapped && version >= v.provider.current
    ensures var u := SetSecret(Generate(v, version, dek).vault, project, name, plain).vault;
            var k := project + ":" + name;
            k in u.projects && u.projects[k].keyVersion == version && u.projects[k].cipher == Sealed(dek, plain)
  {
    GenerateKeeps(v, version, dek);
    SetSecretOutcome(Generate(v, version, dek).vault, project, name, plain);
  }

  /** Generating a used version anew leaves what was sealed under it readable exactly if the key is the same. */
  lemma {:induction false} ReusedVersionLosesSecrets(v: Vault, version: int, dek: string, k: string)
    requires Inv(v) && version in v.provider.wrapped && Generate(v, version, dek).ok
    requires k in v.projects && v.projects[k].keyVersion == version
    ensures Open(Generate(v, version, dek).vault, v.projects[k]).Ok? <==> dek == DataKey(v, version)
  {
    assert ProjectEntry(v, k);
  }

  /** A snapshot copies each of the project's secrets, version and seal included, and copies no others. */
  lemma {:induction false} SnapshotCopiesRecords(v: Vault, project: string, d: string, order: seq<string>)
    requires Inv(v) && ColonFree(d) && SnapshotKeys(v, d) == {} && forall k :: k in v.projects ==> k in order
    ensures var u := Snapshot(v, project, d, order);
            && u == v.(snapshots := u.snapshots)
            && (forall k :: k in v.projects && v.projects[k].project == project ==> Copied(v, u, d, k))
            && (forall c :: c in u.snapshots && u.snapshots[c].deployment == d ==> IsCopy(v, u, project, d, c))
  {
    var u := Snapshot(v, project, d, order);
    SnapshotKeeps(v, project, d, order, |order|);
    SnapshotCopies(v, project, d, order, |order|);
    forall k | k in v.projects && v.projects[k].project == project ensures Copied(v, u, d, k) {
      assert k in order;
      var j :| 0 <= j < |order| && order[j] == k;
      assert order[j] in ProjectKeys(v, project);
    }
    forall c | c in u.snapshots && u.snapshots[c].deployment == d ensures IsCopy(v, u, project, d, c) {
      assert c in SnapshotKeys(u, d);
    }
  }
}
