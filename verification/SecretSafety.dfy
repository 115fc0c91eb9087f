/**
 Rotation preserves meaning: whatever is rotated, re-wrapped, generated or overwritten, even
 with errors midway, a data key version means the key first generated for it, and a
 deployment's snapshot reads as the project's secrets did when it was taken.
 */
module SecretSafety {
  import opened Text
  import opened Secrets

  // ----- invariant

  /** The names of master keys 1 to n. */
  ghost function NamesTo(n: nat): set<string> {
    if n == 0 then {} else NamesTo(n - 1) + {MasterName(n)}
  }

  /** The master keys are exactly versions 1 to n, so a rotation never reuses a name. */
  ghost predicate MastersNumbered(kms: Kms) {
    kms.current in kms.keys && kms.keys.Keys == NamesTo(|kms.keys|)
  }

  /** The data key version `n` stands for. */
  ghost function DataKey(v: Vault, n: int): string
    requires n in v.provider.wrapped
  {
    v.provider.wrapped[n].plain
  }

  ghost predicate WrappedProperly(v: Vault) {
    && v.provider.wrapped.Keys == v.provider.keyIDs.Keys
    && forall n :: n in v.provider.wrapped ==>
         v.provider.keyIDs[n] in v.kms.keys && v.provider.wrapped[n].key == v.kms.keys[v.provider.keyIDs[n]]
  }

  predicate ColonFree(s: string) {
    ':' !in s
  }

  ghost predicate SealedProperly(v: Vault, s: Secret) {
    s.keyVersion in v.provider.wrapped && s.cipher.key == DataKey(v, s.keyVersion)
  }

  ghost predicate ProjectEntry(v: Vault, k: string)
    requires k in v.projects
  {
    k == Key(v.projects[k].project, v.projects[k].name) && ColonFree(v.projects[k].project) && SealedProperly(v, v.projects[k])
  }

  ghost predicate SnapshotEntry(v: Vault, k: string)
    requires k in v.snapshots
  {
    k == Key(v.snapshots[k].deployment, v.snapshots[k].name) && ColonFree(v.snapshots[k].deployment) && SealedProperly(v, v.snapshots[k])
  }

  ghost predicate Inv(v: Vault) {
    && MastersNumbered(v.kms) && WrappedProperly(v)
    && (forall k :: k in v.projects ==> ProjectEntry(v, k))
    && (forall k :: k in v.snapshots ==> SnapshotEntry(v, k))
  }

  // ----- names

  /** A colon-free owner and a name are recovered from their map key. */
  lemma {:induction false} KeyInjective(a: string, m: string, b: string, n: string)
    requires ColonFree(a) && ColonFree(b) && Key(a, m) == Key(b, n)
    ensures a == b && m == n
  {
    SplitAtSeparator(a, m, b, n, ':');
  }

  /** Another owner has a secret under the same map key. */
  ghost predicate Shared(owner: string, name: string) {
    exists p, m :: p != owner && Key(p, m) == Key(owner, name)
  }

  lemma {:induction false} SharedNeedsColon(owner: string, name: string, p: string, m: string)
    requires p != owner && Key(p, m) == Key(owner, name)
    ensures ':' in owner || ':' in name
  {
    var k := Key(owner, name);
    assert k == Key(p, m) && k[|p|] == ':';
    assert forall i :: 0 <= i < |owner| ==> k[i] == owner[i];
    assert forall i :: 0 <= i < |name| ==> k[|owner| + 1 + i] == name[i];
    assert p == k[..|p|] && owner == k[..|owner|];
    if |p| < |owner| {
      assert owner[|p|] == ':';
    } else {
      assert name[|p| - |owner| - 1] == ':';
    }
  }

  lemma {:induction false} ColonShares(owner: string, name: string)
    requires ':' in owner || ':' in name
    ensures Shared(owner, name)
  {
    if ':' in owner {
      var i :| 0 <= i < |owner| && owner[i] == ':';
      var p, m := owner[..i], owner[i + 1..] + ":" + name;
      assert owner == p + ":" + owner[i + 1..];
      assert Key(p, m) == Key(owner, name);
    } else {
      var i :| 0 <= i < |name| && name[i] == ':';
      var p, m := owner + ":" + name[..i], name[i + 1..];
      assert name == name[..i] + ":" + m;
      assert Key(p, m) == Key(owner, name);
    }
  }

  /** A secret's map key is shared with another owner if and only if there is a colon in its owner's ID or its name. */
  lemma {:induction false} SharedExactlyWithColon(owner: string, name: string)
    ensures Shared(owner, name) <==> ':' in owner || ':' in name
  {
    if p, m :| p != owner && Key(p, m) == Key(owner, name) {
      SharedNeedsColon(owner, name, p, m);
    }
    if ':' in owner || ':' in name {
      ColonShares(owner, name);
    }
  }

  lemma {:induction false} ColonsCollide()
    ensures Key("a", "b:c") == Key("a:b", "c")
  {
    assert Key("a", "b:c") == "a:b:c";
  }

  /** The store holds this value for the project under this name. */
  ghost predicate Holds(v: Vault, project: string, name: string, plain: string) {
    exists k :: k in v.projects && v.projects[k].project == project && v.projects[k].name == name && v.projects[k].cipher.plain == plain
  }

  /**
   Of two different secrets set one after the other, the first is still held exactly if they do
   not share a map key.
   */
  lemma {:induction false} SharedKeyReplaces(v: Vault, p: string, m: string, x: string, q: string, n: string, y: string)
    requires (p, m) != (q, n) && GetKey(v, v.provider.current).Ok?
    requires forall k :: k in v.projects ==> k == Key(v.projects[k].project, v.projects[k].name)
    ensures var u := SetSecret(SetSecret(v, p, m, x).vault, q, n, y).vault;
            Holds(u, q, n, y) && (Holds(u, p, m, x) <==> Key(p, m) != Key(q, n))
  {
    var w := SetSecret(v, p, m, x).vault;
    var u := SetSecret(w, q, n, y).vault;
    assert GetKey(w, w.provider.current) == GetKey(v, v.provider.current);
    assert Key(q, n) in u.projects;
    if Key(p, m) != Key(q, n) {
      assert Key(p, m) in u.projects && u.projects[Key(p, m)] == w.projects[Key(p, m)];
    }
  }

  lemma {:induction false} MasterNameInjective(m: nat, n: nat)
    requires MasterName(m) == MasterName(n)
    ensures m == n
  {
    assert MasterName(m)[|MASTER_PREFIX|..] == Decimal(m);
    assert MasterName(n)[|MASTER_PREFIX|..] == Decimal(n);
    DecimalInjective(m, n);
  }

  // ----- operations

  datatype Op =
    | RotateOp(newKey: string)
    | ReWrapOp(oldID: string, newID: string, order: seq<int>, up: nat -> bool)
    | GenerateOp(version: int, dek: string)
    | SetOp(project: string, name: string, plain: string)
    | SnapshotOp(project: string, d: string, names: seq<string>)
    | SetAvailableOp(available: bool)

  function Apply(v: Vault, op: Op): Vault {
    match op
    case RotateOp(newKey) => Rotate(v, newKey).vault
    case ReWrapOp(oldID, newID, order, up) => ReWrapMany(v, oldID, newID, order, up, |order|).vault
    case GenerateOp(version, dek) => Generate(v, version, dek).vault
    case SetOp(project, name, plain) => SetSecret(v, project, name, plain).vault
    case SnapshotOp(project, d, order) => Snapshot(v, project, d, order)
    case SetAvailableOp(available) => v.(kms := v.kms.(available := available))
  }

  /** Only unused versions are generated, and owners' IDs have no colon. */
  ghost predicate Fits(v: Vault, op: Op) {
    match op
    case GenerateOp(version, _) => version !in v.provider.wrapped
    case SetOp(project, _, _) => ColonFree(project)
    case SnapshotOp(_, d, _) => ColonFree(d)
    case _ => true
  }

  /** No data key changes its meaning. */
  ghost predicate KeysKept(v: Vault, u: Vault) {
    forall n :: n in v.provider.wrapped ==> n in u.provider.wrapped && DataKey(u, n) == DataKey(v, n)
  }

  lemma {:induction false} SealedStill(v: Vault, u: Vault)
    requires KeysKept(v, u)
    ensures forall s :: SealedProperly(v, s) ==> SealedProperly(u, s)
  {
  }

  lemma {:induction false} EntriesStill(v: Vault, u: Vault)
    requires Inv(v) && KeysKept(v, u) && u.projects == v.projects && u.snapshots == v.snapshots
    ensures forall k :: k in u.projects ==> ProjectEntry(u, k)
    ensures forall k :: k in u.snapshots ==> SnapshotEntry(u, k)
  {
    SealedStill(v, u);
    forall k | k in u.projects ensures ProjectEntry(u, k) {
      assert ProjectEntry(v, k);
    }
    forall k | k in u.snapshots ensures SnapshotEntry(u, k) {
      assert SnapshotEntry(v, k);
    }
  }

  lemma {:induction false} LaterNameIsNew(n: nat, m: nat)
    requires n < m
    ensures MasterName(m) !in NamesTo(n)
  {
    if n > 0 {
      LaterNameIsNew(n - 1, m);
      if MasterName(m) == MasterName(n) {
        MasterNameInjective(m, n);
      }
    }
  }

  lemma {:induction false} OneKeyMore(keys: map<string, string>, id: string, key: string)
    requires id !in keys
    ensures |keys[id := key]| == |keys| + 1 && keys[id := key].Keys == keys.Keys + {id}
  {
    assert keys[id := key].Keys == keys.Keys + {id};
    assert |keys[id := key]| == |keys[id := key].Keys| && |keys| == |keys.Keys|;
  }

  lemma {:induction false} RotateNumbers(kms: Kms, newKey: string)
    requires MastersNumbered(kms)
    ensures var id := MasterName(|kms.keys| + 1);
            id !in kms.keys && MastersNumbered(kms.(keys := kms.keys[id := newKey], current := id))
  {
    LaterNameIsNew(|kms.keys|, |kms.keys| + 1);
    OneKeyMore(kms.keys, MasterName(|kms.keys| + 1), newKey);
  }

  lemma {:induction false} RotateWraps(v: Vault, newKey: string)
    requires WrappedProperly(v) && v.kms.available && MasterName(|v.kms.keys| + 1) !in v.kms.keys
    ensures WrappedProperly(Rotate(v, newKey).vault)
  {
  }

  lemma {:induction false} RotateKeeps(v: Vault, newKey: string)
    requires Inv(v)
    ensures Inv(Rotate(v, newKey).vault) && KeysKept(v, Rotate(v, newKey).vault)
  {
    if v.kms.available {
      RotateNumbers(v.kms, newKey);
      RotateWraps(v, newKey);
      EntriesStill(v, Rotate(v, newKey).vault);
    }
  }

  lemma {:induction false} ReWrapOneKeeps(v: Vault, version: int, oldID: string, newID: string, up: bool)
    requires Inv(v)
    ensures Inv(ReWrapOne(v, version, oldID, newID, up).vault)
    ensures KeysKept(v, ReWrapOne(v, version, oldID, newID, up).vault)
    ensures var u := ReWrapOne(v, version, oldID, newID, up).vault; u.projects == v.projects && u.snapshots == v.snapshots
  {
    EntriesStill(v, ReWrapOne(v, version, oldID, newID, up).vault);
  }

  lemma {:induction false} ReWrapManyKeeps(v: Vault, oldID: string, newID: string, order: seq<int>,
                                           up: nat -> bool, n: nat)
    requires Inv(v) && n <= |order|
    ensures Inv(ReWrapMany(v, oldID, newID, order, up, n).vault)
    ensures KeysKept(v, ReWrapMany(v, oldID, newID, order, up, n).vault)
    ensures var u := ReWrapMany(v, oldID, newID, order, up, n).vault; u.projects == v.projects && u.snapshots == v.snapshots
  {
    if n > 0 {
      ReWrapManyKeeps(v, oldID, newID, order, up, n - 1);
      ReWrapOneKeeps(ReWrapMany(v, oldID, newID, order, up, n - 1).vault, order[n - 1], oldID, newID, up(n - 1));
    }
  }

  lemma {:induction false} GenerateKeeps(v: Vault, version: int, dek: string)
    requires Inv(v) && version !in v.provider.wrapped
    ensures Inv(Generate(v, version, dek).vault) && KeysKept(v, Generate(v, version, dek).vault)
  {
    EntriesStill(v, Generate(v, version, dek).vault);
  }

  lemma {:induction false} SetKeeps(v: Vault, project: string, name: string, plain: string)
    requires Inv(v) && ColonFree(project)
    ensures Inv(SetSecret(v, project, name, plain).vault) && KeysKept(v, SetSecret(v, project, name, plain).vault)
  {
    var u := SetSecret(v, project, name, plain).vault;
    forall k | k in u.projects ensures ProjectEntry(u, k) {
      if k in v.projects {
        assert ProjectEntry(v, k);
      }
    }
    forall k | k in u.snapshots ensures SnapshotEntry(u, k) {
      assert SnapshotEntry(v, k);
    }
  }

  lemma {:induction false} SnapshotKeeps(v: Vault, project: string, d: string, order: seq<string>, n: nat)
    requires Inv(v) && ColonFree(d) && n <= |order|
    ensures Inv(SnapshotMany(v, project, d, order, n)) && KeysKept(v, SnapshotMany(v, project, d, order, n))
    ensures var u := SnapshotMany(v, project, d, order, n); u == v.(snapshots := u.snapshots)
    ensures SameFor(v, SnapshotMany(v, project, d, order, n), d)
  {
    if n > 0 {
      SnapshotKeeps(v, project, d, order, n - 1);
      SnapshotOneKeeps(SnapshotMany(v, project, d, order, n - 1), project, d, order[n - 1]);
    }
  }

  function SnapshotOne(v: Vault, project: string, d: string, k: string): Vault {
    if k in v.projects && v.projects[k].project == project
    then v.(snapshots := v.snapshots[Key(d, v.projects[k].name) := v.projects[k].(deployment := d)]) else v
  }

  lemma {:induction false} SnapshotOneKeeps(v: Vault, project: string, d: string, k: string)
    requires Inv(v) && ColonFree(d)
    ensures Inv(SnapshotOne(v, project, d, k)) && SameFor(v, SnapshotOne(v, project, d, k), d)
  {
    var u := SnapshotOne(v, project, d, k);
    forall j | j in u.projects ensures ProjectEntry(u, j) {
      assert ProjectEntry(v, j);
    }
    forall j | j in u.snapshots ensures SnapshotEntry(u, j) {
      if j in v.snapshots {
        assert SnapshotEntry(v, j);
      }
    }
    if u != v {
      forall j | j in v.snapshots && v.snapshots[j].deployment != d ensures j != Key(d, v.projects[k].name) {
        assert SnapshotEntry(v, j);
        if j == Key(d, v.projects[k].name) {
          KeyInjective(d, v.projects[k].name, v.snapshots[j].deployment, v.snapshots[j].name);
        }
      }
    }
  }

  /** Snapshots of deployments other than `d` are the same. */
  ghost predicate SameFor(v: Vault, u: Vault, d: string) {
    && (forall k :: k in v.snapshots && v.snapshots[k].deployment != d ==>
        k in u.snapshots && u.snapshots[k] == v.snapshots[k])
    && (forall k :: k in u.snapshots && u.snapshots[k].deployment != d ==>
        k in v.snapshots && u.snapshots[k] == v.snapshots[k])
  }

  lemma {:induction false} ApplyKeeps(v: Vault, op: Op)
    requires Inv(v) && Fits(v, op)
    ensures Inv(Apply(v, op)) && KeysKept(v, Apply(v, op))
  {
    match op
    case RotateOp(newKey) => RotateKeeps(v, newKey);
    case ReWrapOp(oldID, newID, order, up) => ReWrapManyKeeps(v, oldID, newID, order, up, |order|);
    case GenerateOp(version, dek) => GenerateKeeps(v, version, dek);
    case SetOp(project, name, plain) => SetKeeps(v, project, name, plain);
    case SnapshotOp(project, d, order) => SnapshotKeeps(v, project, d, order, |order|);
    case SetAvailableOp(available) => EntriesStill(v, Apply(v, op));
  }

  // ----- whole runs

  function Run(v: Vault, ops: seq<Op>): Vault
    decreases |ops|
  {
    if ops == [] then v else Run(Apply(v, ops[0]), ops[1..])
  }

  ghost predicate AllFit(v: Vault, ops: seq<Op>)
    decreases |ops|
  {
    ops == [] || (Fits(v, ops[0]) && AllFit(Apply(v, ops[0]), ops[1..]))
  }

  lemma {:induction false} RunKeeps(v: Vault, ops: seq<Op>)
    requires Inv(v) && AllFit(v, ops)
    ensures Inv(Run(v, ops)) && KeysKept(v, Run(v, ops))
    decreases |ops|
  {
    if ops != [] {
      ApplyKeeps(v, ops[0]);
      RunKeeps(Apply(v, ops[0]), ops[1..]);
    }
  }

  /** When the KMS answers, a wrapped version unwraps to the data key it stands for. */
  lemma {:induction false} GetKeyMeans(v: Vault, n: int)
    requires Inv(v) && v.kms.available && n in v.provider.wrapped
    ensures GetKey(v, n) == Ok(DataKey(v, n))
  {
  }

  /**
   Rotation preserves the keys: after a version is generated, and after any run of rotations,
   re-wraps (complete or stopped by an error), further generations and outages, reading that
   version gives the key it was generated with.
   */
  lemma {:induction false} GeneratedKeySurvives(v: Vault, version: int, dek: string, ops: seq<Op>)
    requires Inv(v) && version !in v.provider.wrapped && Generate(v, version, dek).ok
    requires AllFit(Generate(v, version, dek).vault, ops) && Run(Generate(v, version, dek).vault, ops).kms.available
    ensures GetKey(Run(Generate(v, version, dek).vault, ops), version) == Ok(dek)
  {
    var u := Generate(v, version, dek).vault;
    GenerateKeeps(v, version, dek);
    RunKeeps(u, ops);
    GetKeyMeans(Run(u, ops), version);
  }

  /** The vault the constructors build meets the invariant, before and after they generate version 1. */
  lemma {:induction false} NewVaultFits(masterKey: string, dek: string)
    ensures Inv(NewVault(masterKey))
    ensures Generate(NewVault(masterKey), 1, dek).ok && Inv(Generate(NewVault(masterKey), 1, dek).vault)
  {
    var v := NewVault(masterKey);
    assert v.kms.keys.Keys == {MasterName(1)};
    assert NamesTo(1) == NamesTo(0) + {MasterName(1)};
    GenerateKeeps(v, 1, dek);
  }

  /** The version the constructor generates reads as its key after any run. */
  lemma {:induction false} FirstKeySurvives(masterKey: string, dek: string, ops: seq<Op>)
    requires var v := Generate(NewVault(masterKey), 1, dek).vault; AllFit(v, ops) && Run(v, ops).kms.available
    ensures GetKey(Run(Generate(NewVault(masterKey), 1, dek).vault, ops), 1) == Ok(dek)
    ensures Inv(Run(Generate(NewVault(masterKey), 1, dek).vault, ops))
  {
    NewVaultFits(masterKey, dek);
    GeneratedKeySurvives(NewVault(masterKey), 1, dek, ops);
    RunKeeps(Generate(NewVault(masterKey), 1, dek).vault, ops);
  }

  /** Overwriting a used version breaks what was sealed under it, which is why only unused versions are generated. */
  lemma {:induction false} ReusedVersionBreaks(v: Vault, version: int, dek: string)
    requires Inv(v) && version in v.provider.wrapped && Generate(v, version, dek).ok
    ensures GetKey(Generate(v, version, dek).vault, version) == GetKey(v, version) <==> dek == DataKey(v, version)
  {
    GetKeyMeans(v, version);
  }

  // ----- snapshots

  /** What the deployment's secrets read as. */
  ghost function SnapshotValues(v: Vault, d: string): map<string, string>
    requires Inv(v)
  {
    NamesAreKeys(v, d);
    map name | name in (set k | k in SnapshotKeys(v, d) :: v.snapshots[k].name) :: v.snapshots[Key(d, name)].cipher.plain
  }

  lemma {:induction false} NamesAreKeys(v: Vault, d: string)
    requires Inv(v)
    ensures forall k :: k in SnapshotKeys(v, d) ==> k == Key(d, v.snapshots[k].name)
  {
    forall k | k in SnapshotKeys(v, d) ensures k == Key(d, v.snapshots[k].name) {
      assert SnapshotEntry(v, k);
    }
  }

  /** What the project's secrets read as. */
  ghost function ProjectValues(v: Vault, project: string): map<string, string>
    requires Inv(v)
  {
    ProjectNamesAreKeys(v, project);
    map name | name in (set k | k in ProjectKeys(v, project) :: v.projects[k].name) :: v.projects[Key(project, name)].cipher.plain
  }

  lemma {:induction false} ProjectNamesAreKeys(v: Vault, project: string)
    requires Inv(v)
    ensures forall k :: k in ProjectKeys(v, project) ==> k == Key(project, v.projects[k].name)
  {
    forall k | k in ProjectKeys(v, project) ensures k == Key(project, v.projects[k].name) {
      assert ProjectEntry(v, k);
    }
  }

  lemma {:induction false} OpensTo(v: Vault, s: Secret)
    requires Inv(v) && v.kms.available && SealedProperly(v, s)
    ensures Open(v, s) == Ok(s.cipher.plain)
  {
    GetKeyMeans(v, s.keyVersion);
  }

  /** With the KMS up, reading a deployment's secrets gives exactly their values. */
  lemma {:induction false} ReadingGivesSnapshot(v: Vault, d: string, r: Result<map<string, string>>)
    requires Inv(v) && v.kms.available && Reads(v, v.snapshots, SnapshotKeys(v, d), r)
    ensures r == Ok(SnapshotValues(v, d))
  {
    NamesAreKeys(v, d);
    forall k | k in SnapshotKeys(v, d) ensures Open(v, v.snapshots[k]) == Ok(v.snapshots[k].cipher.plain) {
      assert SnapshotEntry(v, k);
      OpensTo(v, v.snapshots[k]);
    }
    var chosen := SnapshotKeys(v, d);
    forall name | name in r.value ensures name in SnapshotValues(v, d) && r.value[name] == SnapshotValues(v, d)[name] {
      assert Supplies(v, v.snapshots, chosen, name, r.value[name]);
      var k :| k in chosen && v.snapshots[k].name == name && Open(v, v.snapshots[k]) == Ok(r.value[name]);
      assert k == Key(d, name);
    }
    assert r.value == SnapshotValues(v, d);
  }

  lemma {:induction false} ReadingGivesProject(v: Vault, project: string, r: Result<map<string, string>>)
    requires Inv(v) && v.kms.available && Reads(v, v.projects, ProjectKeys(v, project), r)
    ensures r == Ok(ProjectValues(v, project))
  {
    ProjectNamesAreKeys(v, project);
    forall k | k in ProjectKeys(v, project) ensures Open(v, v.projects[k]) == Ok(v.projects[k].cipher.plain) {
      assert ProjectEntry(v, k);
      OpensTo(v, v.projects[k]);
    }
    var chosen := ProjectKeys(v, project);
    forall name | name in r.value
      ensures name in ProjectValues(v, project) && r.value[name] == ProjectValues(v, project)[name]
    {
      assert Supplies(v, v.projects, chosen, name, r.value[name]);
      var k :| k in chosen && v.projects[k].name == name && Open(v, v.projects[k]) == Ok(r.value[name]);
      assert k == Key(project, name);
    }
    assert r.value == ProjectValues(v, project);
  }

  /** The snapshots of `d` are the same in both. */
  ghost predicate Frozen(v: Vault, u: Vault, d: string) {
    SnapshotKeys(u, d) == SnapshotKeys(v, d) && forall k :: k in SnapshotKeys(v, d) ==> u.snapshots[k] == v.snapshots[k]
  }

  /** The operation does not take another snapshot for `d`. */
  ghost predicate Spares(op: Op, d: string) {
    op.SnapshotOp? ==> op.d != d
  }

  lemma {:induction false} ApplyFreezes(v: Vault, op: Op, d: string)
    requires Inv(v) && Fits(v, op) && Spares(op, d)
    ensures Frozen(v, Apply(v, op), d)
  {
    match op
    case ReWrapOp(oldID, newID, order, up) => ReWrapManyKeeps(v, oldID, newID, order, up, |order|);
    case SnapshotOp(project, other, order) => SnapshotKeeps(v, project, other, order, |order|);
    case _ =>
  }

  lemma {:induction false} RunFreezes(v: Vault, ops: seq<Op>, d: string)
    requires Inv(v) && AllFit(v, ops) && forall n :: 0 <= n < |ops| ==> Spares(ops[n], d)
    ensures Frozen(v, Run(v, ops), d)
    decreases |ops|
  {
    if ops != [] {
      ApplyKeeps(v, ops[0]);
      ApplyFreezes(v, ops[0], d);
      RunFreezes(Apply(v, ops[0]), ops[1..], d);
    }
  }

  lemma {:induction false} FrozenReadsSame(v: Vault, u: Vault, d: string)
    requires Inv(v) && Inv(u) && Frozen(v, u, d)
    ensures SnapshotValues(u, d) == SnapshotValues(v, d)
  {
    NamesAreKeys(v, d);
    NamesAreKeys(u, d);
    forall name ensures name in SnapshotValues(u, d) <==> name in SnapshotValues(v, d) {
      assert (exists k :: k in SnapshotKeys(u, d) && u.snapshots[k].name == name) <==>
             (exists k :: k in SnapshotKeys(v, d) && v.snapshots[k].name == name);
    }
    forall name | name in SnapshotValues(v, d) ensures SnapshotValues(u, d)[name] == SnapshotValues(v, d)[name] {
      assert Key(d, name) in SnapshotKeys(v, d);
    }
  }

  /** Secret `k` of the project has been copied for the deployment. */
  ghost predicate Copied(v: Vault, u: Vault, d: string, k: string)
    requires k in v.projects
  {
    var c := Key(d, v.projects[k].name);
    c in u.snapshots && u.snapshots[c] == v.projects[k].(deployment := d)
  }

  /** The snapshot `c` of `d` is a copy of a project secret. */
  ghost predicate IsCopy(v: Vault, u: Vault, project: string, d: string, c: string) {
    c in u.snapshots
    && exists k :: k in ProjectKeys(v, project) && c == Key(d, v.projects[k].name) && u.snapshots[c] == v.projects[k].(deployment := d)
  }

  ghost predicate CopiedSoFar(v: Vault, u: Vault, project: string, d: string, order: seq<string>, n: nat) {
    && n <= |order|
    && (forall j :: 0 <= j < n && order[j] in ProjectKeys(v, project) ==> Copied(v, u, d, order[j]))
    && (forall c :: c in SnapshotKeys(u, d) ==> IsCopy(v, u, project, d, c))
  }

  lemma {:induction false} SnapshotCopies(v: Vault, project: string, d: string, order: seq<string>, n: nat)
    requires Inv(v) && ColonFree(d) && n <= |order| && SnapshotKeys(v, d) == {}
    ensures CopiedSoFar(v, SnapshotMany(v, project, d, order, n), project, d, order, n)
  {
    if n > 0 {
      SnapshotCopies(v, project, d, order, n - 1);
      SnapshotKeeps(v, project, d, order, n - 1);
      var w := SnapshotMany(v, project, d, order, n - 1);
      SnapshotCopiesOne(v, w, project, d, order, n - 1);
      assert SnapshotMany(v, project, d, order, n) == SnapshotOne(w, project, d, order[n - 1]);
    }
  }

  lemma {:induction false} SameNameSameSecret(v: Vault, project: string, j: string, k: string)
    requires Inv(v) && j in ProjectKeys(v, project) && k in ProjectKeys(v, project)
    requires v.projects[j].name == v.projects[k].name
    ensures j == k
  {
    ProjectNamesAreKeys(v, project);
  }

  lemma {:induction false} SnapshotCopiesOne(v: Vault, w: Vault, project: string, d: string, order: seq<string>, n: nat)
    requires Inv(v) && n < |order| && w.projects == v.projects
    requires CopiedSoFar(v, w, project, d, order, n)
    ensures CopiedSoFar(v, SnapshotOne(w, project, d, order[n]), project, d, order, n + 1)
  {
    var u, k := SnapshotOne(w, project, d, order[n]), order[n];
    forall j | 0 <= j < n + 1 && order[j] in ProjectKeys(v, project) ensures Copied(v, u, d, order[j]) {
      if j < n {
        assert Copied(v, w, d, order[j]);
        if k in ProjectKeys(v, project) && Key(d, v.projects[order[j]].name) == Key(d, v.projects[k].name) {
          SameKeySameName(d, v.projects[order[j]].name, v.projects[k].name);
          SameNameSameSecret(v, project, order[j], k);
        }
      }
    }
    forall c | c in SnapshotKeys(u, d) ensures IsCopy(v, u, project, d, c) {
      if k in ProjectKeys(v, project) && c == Key(d, v.projects[k].name) {
        assert u.snapshots[c] == v.projects[k].(deployment := d);
      } else {
        assert c in SnapshotKeys(w, d) && IsCopy(v, w, project, d, c);
      }
    }
  }

  lemma {:induction false} SameKeySameName(d: string, m: string, n: string)
    requires Key(d, m) == Key(d, n)
    ensures m == n
  {
    assert m == Key(d, m)[|d| + 1..];
    assert n == Key(d, n)[|d| + 1..];
  }

  /** A fresh snapshot reads as the project does. */
  lemma {:induction false} SnapshotReadsAsProject(v: Vault, project: string, d: string, order: seq<string>)
    requires Inv(v) && ColonFree(d) && SnapshotKeys(v, d) == {} && forall k :: k in v.projects ==> k in order
    ensures Inv(Snapshot(v, project, d, order))
    ensures SnapshotValues(Snapshot(v, project, d, order), d) == ProjectValues(v, project)
  {
    var u := Snapshot(v, project, d, order);
    SnapshotKeeps(v, project, d, order, |order|);
    SnapshotCopies(v, project, d, order, |order|);
    NamesAreKeys(u, d);
    ProjectNamesAreKeys(v, project);
    forall name | name in ProjectValues(v, project)
      ensures name in SnapshotValues(u, d) && SnapshotValues(u, d)[name] == ProjectValues(v, project)[name]
    {
      var k := Key(project, name);
      assert k in order;
      var j :| 0 <= j < |order| && order[j] == k;
      assert Copied(v, u, d, order[j]);
      assert Key(d, name) in SnapshotKeys(u, d);
    }
    forall name | name in SnapshotValues(u, d) ensures name in ProjectValues(v, project) {
      var c := Key(d, name);
      assert IsCopy(v, u, project, d, c);
      var k :| k in ProjectKeys(v, project) && c == Key(d, v.projects[k].name) && u.snapshots[c] == v.projects[k].(deployment := d);
      SameKeySameName(d, name, v.projects[k].name);
    }
  }

  /**
   A deployment's snapshot is frozen: whatever is set, rotated, re-wrapped, generated or
   snapshot for others afterwards, reading it gives the values the project's secrets had
   when it was taken.
   */
  lemma {:induction false} SnapshotIsFrozen(v: Vault, project: string, d: string, order: seq<string>,
                                            ops: seq<Op>, r: Result<map<string, string>>)
    requires Inv(v) && ColonFree(d) && SnapshotKeys(v, d) == {} && forall k :: k in v.projects ==> k in order
    requires AllFit(Snapshot(v, project, d, order), ops) && forall n :: 0 <= n < |ops| ==> Spares(ops[n], d)
    requires var u := Run(Snapshot(v, project, d, order), ops); u.kms.available && Reads(u, u.snapshots, SnapshotKeys(u, d), r)
    ensures r == Ok(ProjectValues(v, project))
  {
    var s := Snapshot(v, project, d, order);
    SnapshotReadsAsProject(v, project, d, order);
    RunKeeps(s, ops);
    RunFreezes(s, ops, d);
    FrozenReadsSame(s, Run(s, ops), d);
    ReadingGivesSnapshot(Run(s, ops), d, r);
  }

  /**
   In terms of what callers see: with the KMS up both times, what the deployment reads at any
   later moment is what the project read when the snapshot was taken.
   */
  lemma {:induction false} DeploymentReadsWhatProjectRead(v: Vault, project: string, d: string,
                                                          order: seq<string>, ops: seq<Op>,
                                                          atSnapshot: Result<map<string, string>>, now: Result<map<string, string>>)
    requires Inv(v) && ColonFree(d) && SnapshotKeys(v, d) == {} && forall k :: k in v.projects ==> k in order
    requires v.kms.available && Reads(v, v.projects, ProjectKeys(v, project), atSnapshot)
    requires AllFit(Snapshot(v, project, d, order), ops) && forall n :: 0 <= n < |ops| ==> Spares(ops[n], d)
    requires var u := Run(Snapshot(v, project, d, order), ops); u.kms.available && Reads(u, u.snapshots, SnapshotKeys(u, d), now)
    ensures now == atSnapshot && now.Ok?
  {
    ReadingGivesProject(v, project, atSnapshot);
    SnapshotIsFrozen(v, project, d, order, ops, now);
  }
}
