/**
 The write-by-write machine refines the service: taken without interruption, the writes of one
 pipeline, from the creation of the deployment to its final status, are exactly the service's
 create, whatever fails on the way.
 */
module PipelineWrites {
  import opened Wrappers
  import opened Cluster
  import opened Reconcile
  import opened Deployments
  import opened CrashSafety
  import Runs

  // ----- joining runs

  /** Some writes lead from `s` to `t`. */
  ghost predicate Leads(s: State, t: State) {
    exists steps :: Reaches(s, steps, t)
  }

  lemma {:induction false} Stays(s: State)
    ensures Leads(s, s)
  {
    assert Reaches(s, [], s);
  }

  lemma {:induction false} Through(s: State, t: State, u: State)
    requires Leads(s, t) && Leads(t, u)
    ensures Leads(s, u)
  {
    var a :| Reaches(s, a, t);
    var b :| Reaches(t, b, u);
    Runs.ExecAppend(Next, s, a, b);
    assert Reaches(s, a + b, u);
  }

  lemma {:induction false} OneStep(s: State, step: Step, t: State)
    requires Next(s, step) == Some(t)
    ensures Leads(s, t)
  {
    Runs.ExecOne(Next, s, step);
    assert Reaches(s, [step], t);
  }

  /** The stage of `d` is overwritten by the next one. */
  function Put(s: State, d: string, w: World, stage: Stage): State {
    State(w, s.stages[d := stage])
  }

  lemma {:induction false} PutTwice(s: State, d: string, u: World, a: Stage, w: World, b: Stage)
    ensures Put(Put(s, d, u, a), d, w, b) == Put(s, d, w, b)
  {
    assert s.stages[d := a][d := b] == s.stages[d := b];
  }

  /** The status writes spelled out: at which stage each is made, what it writes, and where it leads. */
  predicate Writes(step: Step, stage: Stage, status: DeploymentStatus, next: Stage) {
    || (step.StartBuild? && stage == AtQueued && status == BUILDING && next == AtBuilding)
    || (step.FinishBuild? && stage == AtImaged && status == BUILT && next == AtBuilt)
    || (step.Abort? && stage in {AtQueued, AtBuilding} && status == FAILED && next == AtEnd)
    || (step.EnterScheduling? && stage in {AtQueued, AtBuilt} && status == SCHEDULING && next == AtScheduling)
    || (step.EnterStarting? && stage == AtScheduling && status == STARTING && next == AtStarting)
    || (step.GiveUp? && stage == AtBroken && status == FAILED && next == AtEnd)
    || (step.Finish? && stage == AtStarting && status == RUNNING && next == AtEnd)
  }

  lemma {:induction false} StatusWrite(s: State, step: Step, d: string, stage: Stage, status: DeploymentStatus, next: Stage)
    requires At(s, d, stage) && step.d == d && Writes(step, stage, status, next)
    ensures Leads(s, Put(s, d, SetStatus(s.world, d, status), next))
  {
    OneStep(s, step, Put(s, d, SetStatus(s.world, d, status), next));
  }

  // ----- the instances

  /** Every instance of the series comes with names not in use when its turn comes. */
  ghost predicate FreshOrders(w: World, d: string, digest: string, signature: string, orders: nat -> Order, n: nat) {
    forall k: nat :: k < n ==> FreshOrder(Series(w, Placing(d, digest, signature, orders), k).world, orders(k))
  }

  predicate FreshOrder(w: World, o: Order) {
    o.id !in w.instances && NameFresh(w, o)
  }

  function SeriesOf(s: State, d: string, signature: string, orders: nat -> Order, n: nat): Progress
    requires d in s.world.deployments
  {
    Series(s.world, Placing(d, s.world.deployments[d].digest, signature, orders), n)
  }

  function AfterSeries(s: State, d: string, signature: string, orders: nat -> Order, n: nat): State
    requires d in s.world.deployments
  {
    var p := SeriesOf(s, d, signature, orders, n);
    Put(s, d, p.world, if p.ok then AtStarting else AtBroken)
  }

  function AfterDispatch(s: State, d: string, signature: string, o: Order): State
    requires d in s.world.deployments
  {
    var p := Dispatch(s.world, d, s.world.deployments[d].digest, signature, o);
    Put(s, d, p.world, if p.ok then AtStarting else AtBroken)
  }

  lemma {:induction false} DispatchLeads(s: State, d: string, signature: string, o: Order)
    requires At(s, d, AtStarting) && FreshOrder(s.world, o)
    ensures Leads(s, AfterDispatch(s, d, signature, o))
  {
    WritesMakeDispatch(s, d, signature, o);
  }

  /** A series that has not failed goes on with one dispatch; one that has failed stays as it is. */
  lemma {:induction false} SeriesGoesOn(s: State, d: string, signature: string, orders: nat -> Order, n: nat)
    requires At(s, d, AtStarting)
    ensures var t := AfterSeries(s, d, signature, orders, n);
            && d in t.world.deployments && (At(t, d, AtStarting) <==> SeriesOf(s, d, signature, orders, n).ok)
            && AfterSeries(s, d, signature, orders, n + 1) == if At(t, d, AtStarting) then AfterDispatch(t, d, signature, orders(n)) else t
  {
    var p := SeriesOf(s, d, signature, orders, n);
    PlacingKeepsDeployments(s.world, d, s.world.deployments[d].digest, signature, orders, n);
    var q := SeriesOf(s, d, signature, orders, n + 1);
    PutTwice(s, d, p.world, if p.ok then AtStarting else AtBroken, q.world, if q.ok then AtStarting else AtBroken);
  }

  ghost predicate GoesOn(s: State, d: string, signature: string, orders: nat -> Order, n: nat) {
    d in s.world.deployments
    && Leads(AfterSeries(s, d, signature, orders, n), AfterSeries(s, d, signature, orders, n + 1))
  }

  lemma {:induction false} SeriesStepLeads(s: State, d: string, signature: string, orders: nat -> Order, n: nat)
    requires At(s, d, AtStarting) && FreshOrder(SeriesOf(s, d, signature, orders, n).world, orders(n))
    ensures GoesOn(s, d, signature, orders, n)
  {
    var t := AfterSeries(s, d, signature, orders, n);
    SeriesGoesOn(s, d, signature, orders, n);
    if At(t, d, AtStarting) {
      DispatchLeads(t, d, signature, orders(n));
    } else {
      Stays(t);
    }
  }

  lemma {:induction false} SeriesChain(s: State, d: string, signature: string, orders: nat -> Order, n: nat)
    requires d in s.world.deployments && forall k: nat :: k < n ==> GoesOn(s, d, signature, orders, k)
    ensures Leads(AfterSeries(s, d, signature, orders, 0), AfterSeries(s, d, signature, orders, n))
  {
    if n == 0 {
      Stays(AfterSeries(s, d, signature, orders, 0));
    } else {
      SeriesChain(s, d, signature, orders, n - 1);
      assert GoesOn(s, d, signature, orders, n - 1);
      Through(AfterSeries(s, d, signature, orders, 0), AfterSeries(s, d, signature, orders, n - 1),
              AfterSeries(s, d, signature, orders, n));
    }
  }

  lemma {:induction false} SeriesLeads(s: State, d: string, signature: string, orders: nat -> Order, n: nat)
    requires At(s, d, AtStarting) && FreshOrders(s.world, d, s.world.deployments[d].digest, signature, orders, n)
    ensures Leads(s, AfterSeries(s, d, signature, orders, n))
  {
    forall k: nat | k < n ensures GoesOn(s, d, signature, orders, k) {
      SeriesStepLeads(s, d, signature, orders, k);
    }
    SeriesChain(s, d, signature, orders, n);
    assert s.stages[d := AtStarting] == s.stages;
  }

  // ----- the pipeline

  function Starting(w: World, d: string): World {
    SetStatus(SetStatus(w, d, SCHEDULING), d, STARTING)
  }

  /** From a queued image or a finished build to the final status. */
  lemma {:induction false} WritesMakePipeline(s: State, d: string, signature: string, orders: nat -> Order)
    requires At(s, d, AtQueued) || At(s, d, AtBuilt)
    requires FreshOrders(Starting(s.world, d), d, s.world.deployments[d].digest, signature, orders, Want(s.world, d))
    ensures Leads(s, Put(s, d, ScheduleAndDispatch(s.world, d, signature, orders).world, AtEnd))
  {
    var t := Put(s, d, Starting(s.world, d), AtStarting);
    var u := AfterSeries(t, d, signature, orders, Want(s.world, d));
    StartingLeads(s, d);
    SeriesLeads(t, d, signature, orders, Want(s.world, d));
    Through(s, t, u);
    EndLeads(s, d, signature, orders);
    Through(s, u, Put(s, d, ScheduleAndDispatch(s.world, d, signature, orders).world, AtEnd));
  }

  lemma {:induction false} StartingLeads(s: State, d: string)
    requires At(s, d, AtQueued) || At(s, d, AtBuilt)
    ensures Leads(s, Put(s, d, Starting(s.world, d), AtStarting))
  {
    var s1 := Put(s, d, SetStatus(s.world, d, SCHEDULING), AtScheduling);
    StatusWrite(s, EnterScheduling(d), d, s.stages[d], SCHEDULING, AtScheduling);
    StatusWrite(s1, EnterStarting(d), d, AtScheduling, STARTING, AtStarting);
    PutTwice(s, d, s1.world, AtScheduling, Starting(s.world, d), AtStarting);
    Through(s, s1, Put(s, d, Starting(s.world, d), AtStarting));
  }

  lemma {:induction false} EndLeads(s: State, d: string, signature: string, orders: nat -> Order)
    requires d in s.world.deployments
    ensures Leads(AfterSeries(Put(s, d, Starting(s.world, d), AtStarting), d, signature, orders, Want(s.world, d)),
                  Put(s, d, ScheduleAndDispatch(s.world, d, signature, orders).world, AtEnd))
  {
    var t, n := Put(s, d, Starting(s.world, d), AtStarting), Want(s.world, d);
    var u, p := AfterSeries(t, d, signature, orders, n), SeriesOf(t, d, signature, orders, n);
    var end := SetStatus(p.world, d, if p.ok then RUNNING else FAILED);
    PlacingKeepsDeployments(t.world, d, t.world.deployments[d].digest, signature, orders, n);
    StatusWrite(u, if p.ok then Finish(d) else GiveUp(d), d, u.stages[d], if p.ok then RUNNING else FAILED, AtEnd);
    PutTwice(t, d, p.world, u.stages[d], end, AtEnd);
    PutTwice(s, d, t.world, AtStarting, end, AtEnd);
  }

  // ----- the build

  /** Where a build leaves the pipeline. */
  function BuildEnd(b: Build): Stage {
    if b.BuiltAs? then AtBuilt else if b.NoDigest? || b.Resolved? then AtQueued else AtEnd
  }

  lemma {:induction false} BuildEnds(w: World, d: string, b: Build)
    requires d in w.deployments
    ensures BuildPhase(w, d, b).ok <==> BuildEnd(b) != AtEnd
  {
  }

  lemma {:induction false} WritesMakeBuild(s: State, d: string, b: Build)
    requires At(s, d, AtQueued)
    ensures Leads(s, Put(s, d, BuildPhase(s.world, d, b).world, BuildEnd(b)))
  {
    match b
    case BuildFailed => BrokenBuild(s, d);
    case PushFailed => BrokenBuild(s, d);
    case BuiltAs(image, digest) => GoodBuild(s, d, image, digest);
    case RegistryDown => StatusWrite(s, Abort(d), d, AtQueued, FAILED, AtEnd);
    case NoDigest =>
      assert s.stages[d := AtQueued] == s.stages;
      Stays(s);
    case Resolved(digest) =>
      OneStep(s, StoreDigest(d, digest), Put(s, d, BuildPhase(s.world, d, b).world, AtQueued));
  }

  lemma {:induction false} BrokenBuild(s: State, d: string)
    requires At(s, d, AtQueued)
    ensures Leads(s, Put(s, d, SetStatus(SetStatus(s.world, d, BUILDING), d, FAILED), AtEnd))
  {
    var s1 := Put(s, d, SetStatus(s.world, d, BUILDING), AtBuilding);
    StatusWrite(s, StartBuild(d), d, AtQueued, BUILDING, AtBuilding);
    StatusWrite(s1, Abort(d), d, AtBuilding, FAILED, AtEnd);
    PutTwice(s, d, s1.world, AtBuilding, SetStatus(s1.world, d, FAILED), AtEnd);
    Through(s, s1, Put(s, d, SetStatus(s1.world, d, FAILED), AtEnd));
  }

  lemma {:induction false} GoodBuild(s: State, d: string, image: string, digest: string)
    requires At(s, d, AtQueued)
    ensures Leads(s, Put(s, d, SetStatus(SetImage(SetStatus(s.world, d, BUILDING), d, image, digest), d, BUILT), AtBuilt))
  {
    var s1 := Put(s, d, SetStatus(s.world, d, BUILDING), AtBuilding);
    var s2 := Put(s, d, SetImage(s1.world, d, image, digest), AtImaged);
    StatusWrite(s, StartBuild(d), d, AtQueued, BUILDING, AtBuilding);
    PutTwice(s, d, s1.world, AtBuilding, s2.world, AtImaged);
    OneStep(s1, StoreImage(d, image, digest), s2);
    Through(s, s1, s2);
    StatusWrite(s2, FinishBuild(d), d, AtImaged, BUILT, AtBuilt);
    PutTwice(s, d, s2.world, AtImaged, SetStatus(s2.world, d, BUILT), AtBuilt);
    Through(s, s2, Put(s, d, SetStatus(s2.world, d, BUILT), AtBuilt));
  }

  // ----- the whole create

  /** A create may begin: the deployment's name is new. */
  predicate CanBegin(s: State, d: string) {
    d !in s.world.deployments && d !in s.stages && d != "" && NoTrace(s.world, d)
  }

  /** The service's create is a run of the machine, from before its first write to its final status. */
  lemma {:induction false} WritesMakeCreate(s: State, d: string, dep: Deployment, b: Build, signature: string,
                                            orders: nat -> Order)
    requires CanBegin(s, d)
    requires var p := BuildPhase(CreateDeployment(s.world, d, dep), d, b);
             p.ok ==> FreshOrders(Starting(p.world, d), d, p.world.deployments[d].digest, signature, orders, Want(p.world, d))
    ensures Leads(s, Put(s, d, Create(s.world, d, dep, b, signature, orders).world, AtEnd))
  {
    var s2 := Put(s, d, BuildPhase(CreateDeployment(s.world, d, dep), d, b).world, BuildEnd(b));
    BuiltLeads(s, d, dep, b);
    BuildEnds(CreateDeployment(s.world, d, dep), d, b);
    if BuildEnd(b) != AtEnd {
      var end := ScheduleAndDispatch(s2.world, d, signature, orders).world;
      WritesMakePipeline(s2, d, signature, orders);
      PutTwice(s, d, s2.world, BuildEnd(b), end, AtEnd);
      Through(s, s2, Put(s, d, end, AtEnd));
    }
  }

  lemma {:induction false} BuiltLeads(s: State, d: string, dep: Deployment, b: Build)
    requires CanBegin(s, d)
    ensures Leads(s, Put(s, d, BuildPhase(CreateDeployment(s.world, d, dep), d, b).world, BuildEnd(b)))
  {
    var s1 := Put(s, d, CreateDeployment(s.world, d, dep), AtQueued);
    OneStep(s, Begin(d, dep), s1);
    WritesMakeBuild(s1, d, b);
    var built := BuildPhase(s1.world, d, b).world;
    PutTwice(s, d, s1.world, AtQueued, built, BuildEnd(b));
    Through(s, s1, Put(s, d, built, BuildEnd(b)));
  }
}
