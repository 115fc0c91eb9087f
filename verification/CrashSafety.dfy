/**
 Crash anywhere, then recover.  Pipelines are run write by write, any number of them
 interleaved; whatever state a crash leaves behind, recovery fails every deployment in
 flight, leaves none of its work, touches nothing else, and has nothing left to do.
 */
module CrashSafety {
  import opened Wrappers
  import opened Scheduler
  import opened Diff
  import opened Cluster
  import opened Reconcile
  import opened Deployments
  import opened Recovery
  import Runs

  // ----- the pipeline, one write at a time

  /** Where a pipeline stands between two writes; the order is the instance it is working on, `t` its worker. */
  datatype Stage =
    | AtQueued | AtBuilding | AtImaged | AtBuilt | AtScheduling | AtStarting
    | AtCreated(o: Order) | AtLaunched(o: Order, t: string) | AtMarked(o: Order, t: string) | AtRouted(o: Order, t: string)
    | AtBroken | AtEnd

  datatype State = State(world: World, stages: map<string, Stage>)

  datatype Step =
    | Begin(d: string, dep: Deployment)
    | StartBuild(d: string)
    | StoreImage(d: string, image: string, digest: string)
    | FinishBuild(d: string)
    | StoreDigest(d: string, digest: string)
    | Abort(d: string)
    | EnterScheduling(d: string)
    | EnterStarting(d: string)
    | CreateRecord(d: string, o: Order)
    | FailRecord(d: string)
    | Launch(d: string, signature: string)
    | MarkRecord(d: string)
    | RouteInstance(d: string)
    | CountWorkload(d: string)
    | GiveUp(d: string)
    | Finish(d: string)

  function StatusAt(s: Stage): DeploymentStatus {
    match s
    case AtQueued => QUEUED
    case AtBuilding => BUILDING
    case AtImaged => BUILDING
    case AtBuilt => BUILT
    case AtScheduling => SCHEDULING
    case _ => STARTING
  }

  predicate At(s: State, d: string, stage: Stage) {
    d in s.stages && s.stages[d] == stage && d in s.world.deployments
  }

  function Moved(s: State, d: string, w: World, stage: Stage): Option<State> {
    Some(State(w, s.stages[d := stage]))
  }

  predicate Accepted(w: World, d: string, o: Order)
    requires d in w.deployments
  {
    Pick(w, d, o).Chosen? && o.dialed && o.ran
  }

  /** Names a worker and the control plane give to new containers do not clash with one another. */
  predicate NameFresh(w: World, o: Order) {
    o.key != o.containerID && forall c :: c in w.containers ==> c.id != o.key && c.key != o.containerID
  }

  /** The deployment a container is labelled with. */
  function Owner(c: Container): string {
    Label(c.labels, DEPLOYMENT_LABEL)
  }

  /** No container is labelled with the deployment. */
  predicate NoTrace(w: World, d: string) {
    forall c :: c in w.containers ==> Owner(c) != d
  }

  /** The status writes: from which stage, to which status and stage. */
  function StatusMove(stage: Stage, step: Step): Option<(DeploymentStatus, Stage)> {
    match step
    case StartBuild(_) => if stage == AtQueued then Some((BUILDING, AtBuilding)) else None
    case FinishBuild(_) => if stage == AtImaged then Some((BUILT, AtBuilt)) else None
    case Abort(_) => if stage == AtQueued || stage == AtBuilding then Some((FAILED, AtEnd)) else None
    case EnterScheduling(_) => if stage == AtQueued || stage == AtBuilt then Some((SCHEDULING, AtScheduling)) else None
    case EnterStarting(_) => if stage == AtScheduling then Some((STARTING, AtStarting)) else None
    case GiveUp(_) => if stage == AtBroken then Some((FAILED, AtEnd)) else None
    case Finish(_) => if stage == AtStarting then Some((RUNNING, AtEnd)) else None
    case _ => None
  }

  /** One write of one pipeline, if that pipeline is at the point where the service makes it. */
  function Next(s: State, step: Step): Option<State> {
    if step.Begin? then BeginWrite(s, step.d, step.dep)
    else if step.d !in s.stages || step.d !in s.world.deployments then None
    else
      var w, d, stage := s.world, step.d, s.stages[step.d];
      match step
      case StoreImage(_, image, digest) =>
        if stage == AtBuilding then Moved(s, d, SetImage(w, d, image, digest), AtImaged) else None
      case StoreDigest(_, digest) =>
        if stage == AtQueued then Moved(s, d, SetImage(w, d, w.deployments[d].image, digest), AtQueued) else None
      case CreateRecord(_, o) =>
        if stage == AtStarting && o.id !in w.instances then Moved(s, d, CreateInstance(w, NewInstance(d, o)), AtCreated(o)) else None
      case FailRecord(_) =>
        if stage.AtCreated? && !Accepted(w, d, stage.o) then Moved(s, d, MarkFailed(w, d, stage.o), AtBroken) else None
      case Launch(_, signature) => if stage.AtCreated? then LaunchWrite(s, d, stage.o, signature) else None
      case MarkRecord(_) =>
        if stage.AtLaunched? then Moved(s, d, MarkRunning(w, d, stage.t, stage.o), AtMarked(stage.o, stage.t)) else None
      case RouteInstance(_) =>
        if stage.AtMarked? then Moved(s, d, Route(w, d, stage.o.id, stage.t), AtRouted(stage.o, stage.t)) else None
      case CountWorkload(_) =>
        if stage.AtRouted? then Moved(s, d, UpdateWorkload(w, stage.t, 1), AtStarting) else None
      case _ =>
        var m := StatusMove(stage, step);
        if m.Some? then Moved(s, d, SetStatus(w, d, m.value.0), m.value.1) else None
  }

  function BeginWrite(s: State, d: string, dep: Deployment): Option<State> {
    if d in s.world.deployments || d in s.stages || d == "" || !NoTrace(s.world, d) then None
    else Moved(s, d, CreateDeployment(s.world, d, dep), AtQueued)
  }

  function LaunchWrite(s: State, d: string, o: Order, signature: string): Option<State>
    requires d in s.world.deployments
  {
    if Accepted(s.world, d, o) && NameFresh(s.world, o) then
      var t := Pick(s.world, d, o).worker.id;
      Moved(s, d, StartContainer(s.world, d, t, o, s.world.deployments[d].digest, signature), AtLaunched(o, t))
    else None
  }

  ghost predicate Reaches(s: State, steps: seq<Step>, t: State) {
    Runs.Exec(Next, s, steps) == Some(t)
  }

  // ----- the writes of one instance make up one dispatch

  lemma {:induction false} CreateStep(s: State, d: string, o: Order)
    requires At(s, d, AtStarting) && o.id !in s.world.instances
    ensures Next(s, CreateRecord(d, o)) == Some(State(CreateInstance(s.world, NewInstance(d, o)), s.stages[d := AtCreated(o)]))
  {
  }

  lemma {:induction false} FailStep(s: State, d: string, o: Order)
    requires At(s, d, AtCreated(o)) && !Accepted(s.world, d, o)
    ensures Reaches(s, [FailRecord(d)], State(MarkFailed(s.world, d, o), s.stages[d := AtBroken]))
  {
    var t := State(MarkFailed(s.world, d, o), s.stages[d := AtBroken]);
    assert Next(s, FailRecord(d)) == Some(t);
    assert [FailRecord(d)][1..] == [] && Reaches(t, [], t);
  }

  lemma {:induction false} OneThen(s: State, a: Step, s1: State, rest: seq<Step>, t: State)
    requires Next(s, a) == Some(s1) && Reaches(s1, rest, t)
    ensures Reaches(s, [a] + rest, t)
  {
    assert ([a] + rest)[1..] == rest;
  }

  /** The writes of one instance, uninterrupted, are the service's dispatch, whether it succeeds or fails. */
  lemma {:induction false} WritesMakeDispatch(s: State, d: string, signature: string, o: Order)
    requires At(s, d, AtStarting) && o.id !in s.world.instances && NameFresh(s.world, o)
    ensures var p := Dispatch(s.world, d, s.world.deployments[d].digest, signature, o);
            Reaches(s, [CreateRecord(d, o)] + (if p.ok then Successful(d, signature) else [FailRecord(d)]),
                    State(p.world, s.stages[d := if p.ok then AtStarting else AtBroken]))
  {
    var pending := CreateInstance(s.world, NewInstance(d, o));
    if Accepted(pending, d, o) {
      WritesSucceed(s, d, signature, o);
    } else {
      WritesFail(s, d, o);
    }
  }

  lemma {:induction false} WritesSucceed(s: State, d: string, signature: string, o: Order)
    requires At(s, d, AtStarting) && o.id !in s.world.instances && NameFresh(s.world, o)
    requires Accepted(CreateInstance(s.world, NewInstance(d, o)), d, o)
    ensures Reaches(s, [CreateRecord(d, o)] + Successful(d, signature),
                    State(Dispatch(s.world, d, s.world.deployments[d].digest, signature, o).world, s.stages[d := AtStarting]))
  {
    var s1 := State(CreateInstance(s.world, NewInstance(d, o)), s.stages[d := AtCreated(o)]);
    var t := State(Dispatch(s.world, d, s.world.deployments[d].digest, signature, o).world, s.stages[d := AtStarting]);
    assert s1.stages[d := AtStarting] == s.stages[d := AtStarting];
    assert Reaches(s1, Successful(d, signature), t) by {
      DispatchWrites(s1, d, signature, o);
    }
    CreateStep(s, d, o);
    OneThen(s, CreateRecord(d, o), s1, Successful(d, signature), t);
  }

  lemma {:induction false} WritesFail(s: State, d: string, o: Order)
    requires At(s, d, AtStarting) && o.id !in s.world.instances
    requires !Accepted(CreateInstance(s.world, NewInstance(d, o)), d, o)
    ensures Reaches(s, [CreateRecord(d, o)] + [FailRecord(d)],
                    State(MarkFailed(CreateInstance(s.world, NewInstance(d, o)), d, o), s.stages[d := AtBroken]))
  {
    var s1 := State(CreateInstance(s.world, NewInstance(d, o)), s.stages[d := AtCreated(o)]);
    assert s1.stages[d := AtBroken] == s.stages[d := AtBroken];
    FailStep(s1, d, o);
    CreateStep(s, d, o);
    OneThen(s, CreateRecord(d, o), s1, [FailRecord(d)], State(MarkFailed(s1.world, d, o), s.stages[d := AtBroken]));
  }

  function Successful(d: string, signature: string): seq<Step> {
    [Launch(d, signature), MarkRecord(d), RouteInstance(d), CountWorkload(d)]
  }

  lemma {:induction false} DispatchWrites(s: State, d: string, signature: string, o: Order)
    requires At(s, d, AtCreated(o)) && Accepted(s.world, d, o) && NameFresh(s.world, o)
    ensures var w, t := s.world, Pick(s.world, d, o).worker.id;
            var running := MarkRunning(StartContainer(w, d, t, o, w.deployments[d].digest, signature), d, t, o);
            Reaches(s, Successful(d, signature),
                    State(UpdateWorkload(Route(running, d, o.id, t), t, 1), s.stages[d := AtStarting]))
  {
    var w, t := s.world, Pick(s.world, d, o).worker.id;
    var s1 := State(StartContainer(w, d, t, o, w.deployments[d].digest, signature), s.stages[d := AtLaunched(o, t)]);
    var rest := [MarkRecord(d), RouteInstance(d), CountWorkload(d)];
    var last := State(UpdateWorkload(Route(MarkRunning(s1.world, d, t, o), d, o.id, t), t, 1), s.stages[d := AtStarting]);
    assert Reaches(s1, rest, last) by {
      assert s1.stages[d := AtStarting] == s.stages[d := AtStarting];
      LastSteps(s1, d, o, t);
    }
    assert Next(s, Launch(d, signature)) == Some(s1) by {
      LaunchStep(s, d, signature, o);
    }
    OneThen(s, Launch(d, signature), s1, rest, last);
    assert Successful(d, signature) == [Launch(d, signature)] + rest;
  }

  lemma {:induction false} LaunchStep(s: State, d: string, signature: string, o: Order)
    requires At(s, d, AtCreated(o)) && Accepted(s.world, d, o) && NameFresh(s.world, o)
    ensures var w, t := s.world, Pick(s.world, d, o).worker.id;
            Next(s, Launch(d, signature))
            == Some(State(StartContainer(w, d, t, o, w.deployments[d].digest, signature), s.stages[d := AtLaunched(o, t)]))
  {
  }

  lemma {:induction false} LastSteps(s: State, d: string, o: Order, t: string)
    requires At(s, d, AtLaunched(o, t))
    ensures Reaches(s, [MarkRecord(d), RouteInstance(d), CountWorkload(d)],
                    State(UpdateWorkload(Route(MarkRunning(s.world, d, t, o), d, o.id, t), t, 1), s.stages[d := AtStarting]))
  {
    var w2 := MarkRunning(s.world, d, t, o);
    var w3 := Route(w2, d, o.id, t);
    var s2, s3 := State(w2, s.stages[d := AtMarked(o, t)]), State(w3, s.stages[d := AtRouted(o, t)]);
    var s4 := State(UpdateWorkload(w3, t, 1), s.stages[d := AtStarting]);
    MarkStep(s, d, o, t);
    assert s2.stages[d := AtRouted(o, t)] == s3.stages;
    RouteStep(s2, d, o, t);
    assert s3.stages[d := AtStarting] == s4.stages;
    CountStep(s3, d, o, t);
    Runs.ExecThree(Next, s, MarkRecord(d), RouteInstance(d), CountWorkload(d));
  }

  lemma {:induction false} MarkStep(s: State, d: string, o: Order, t: string)
    requires At(s, d, AtLaunched(o, t))
    ensures Next(s, MarkRecord(d)) == Some(State(MarkRunning(s.world, d, t, o), s.stages[d := AtMarked(o, t)]))
  {
  }

  lemma {:induction false} RouteStep(s: State, d: string, o: Order, t: string)
    requires At(s, d, AtMarked(o, t))
    ensures Next(s, RouteInstance(d)) == Some(State(Route(s.world, d, o.id, t), s.stages[d := AtRouted(o, t)]))
  {
  }

  lemma {:induction false} CountStep(s: State, d: string, o: Order, t: string)
    requires At(s, d, AtRouted(o, t))
    ensures Next(s, CountWorkload(d)) == Some(State(UpdateWorkload(s.world, t, 1), s.stages[d := AtStarting]))
  {
  }

  // ----- what a crash can leave behind

  /** Before STARTING a deployment has no instances and no containers. */
  predicate Early(s: DeploymentStatus) {
    s == QUEUED || s == BUILDING || s == BUILT || s == SCHEDULING
  }

  ghost predicate InFlight(w: World, d: string) {
    d in w.deployments && IsInFlight(w.deployments[d].status)
  }

  ghost predicate NothingEarly(w: World) {
    && (forall i :: i in w.instances ==>
          w.instances[i].deployment in w.deployments && !Early(w.deployments[w.instances[i].deployment].status))
    && (forall c :: c in w.containers && Owner(c) in w.deployments ==> !Early(w.deployments[Owner(c)].status))
  }

  /**
   The instance key of a container of a deployment in flight names, on its worker, only that
   deployment's containers.
   */
  ghost predicate KeysOwned(w: World) {
    forall c, x :: c in w.containers && x in w.containers && InFlight(w, Owner(c)) && Hits(c, x) ==>
        Owner(x) == Owner(c)
  }

  /** Stopping `c` by its instance key stops `x` too. */
  predicate Hits(c: Container, x: Container) {
    x.worker == c.worker && (x.key == c.key || x.id == c.key)
  }

  ghost predicate IDsMatch(w: World) {
    forall i :: i in w.instances ==> w.instances[i].id == i
  }

  /** What holds of the world at every moment, so wherever a crash comes. */
  ghost predicate CrashInv(w: World) {
    NothingEarly(w) && KeysOwned(w) && IDsMatch(w) && "" !in w.deployments
  }

  /** A pipeline that has not ended is in flight, at the status of its stage. */
  ghost predicate StagesFit(s: State) {
    forall d :: d in s.stages && d in s.world.deployments && s.stages[d] != AtEnd ==>
        s.world.deployments[d].status == StatusAt(s.stages[d])
  }

  ghost predicate Inv(s: State) {
    CrashInv(s.world) && StagesFit(s)
  }

  // ----- every write keeps it

  /** Only `d`'s record differs, by a status that is not early unless it was. */
  ghost predicate Advances(w: World, v: World, d: string) {
    && d in w.deployments && d in v.deployments
    && v == w.(deployments := w.deployments[d := v.deployments[d]])
    && (Early(v.deployments[d].status) ==> Early(w.deployments[d].status))
    && (IsInFlight(v.deployments[d].status) ==> IsInFlight(w.deployments[d].status))
  }

  lemma {:induction false} OwnedCarriesOver(w: World, v: World)
    requires KeysOwned(w) && v.containers <= w.containers
    requires forall c :: c in v.containers && InFlight(v, Owner(c)) ==> InFlight(w, Owner(c))
    ensures KeysOwned(v)
  {
  }

  lemma {:induction false} AdvanceKeeps(w: World, v: World, d: string)
    requires CrashInv(w) && Advances(w, v, d)
    ensures CrashInv(v)
  {
    OwnedCarriesOver(w, v);
  }

  lemma {:induction false} BeginKeeps(w: World, d: string, dep: Deployment)
    requires CrashInv(w) && d !in w.deployments && d != "" && NoTrace(w, d)
    ensures CrashInv(CreateDeployment(w, d, dep))
  {
    var v := CreateDeployment(w, d, dep);
    OwnedCarriesOver(w, v);
  }

  /** Only records of `d` differ. */
  ghost predicate OwnRecord(w: World, v: World, d: string, inst: Instance) {
    && inst.deployment == d && v.containers == w.containers && v.deployments == w.deployments
    && v.instances == w.instances[inst.id := inst]
  }

  lemma {:induction false} RecordKeeps(w: World, v: World, d: string, inst: Instance)
    requires CrashInv(w) && OwnRecord(w, v, d, inst) && d in w.deployments && w.deployments[d].status == STARTING
    ensures CrashInv(v)
  {
    OwnedCarriesOver(w, v);
  }

  lemma {:induction false} LaunchKeeps(w: World, d: string, t: string, o: Order, digest: string, signature: string)
    requires CrashInv(w) && d in w.deployments && w.deployments[d].status == STARTING && NameFresh(w, o)
    ensures CrashInv(StartContainer(w, d, t, o, digest, signature))
  {
    var v, dep := StartContainer(w, d, t, o, digest, signature), w.deployments[d];
    var added := NewContainer(t, o.containerID, o.key, d, dep.image, StampedLabels(dep.labels, digest, signature));
    assert Owner(added) == d;
    forall c, x | c in v.containers && x in v.containers && InFlight(v, Owner(c)) && Hits(c, x)
      ensures Owner(x) == Owner(c)
    {
      if c != added && x != added {
        assert c in w.containers && x in w.containers && InFlight(w, Owner(c));
      }
    }
  }

  ghost predicate SameView(w: World, v: World) {
    v.deployments == w.deployments && v.instances == w.instances && v.containers == w.containers
  }

  lemma {:induction false} ViewKeeps(w: World, v: World)
    requires CrashInv(w) && SameView(w, v)
    ensures CrashInv(v)
  {
    OwnedCarriesOver(w, v);
  }

  // ----- the machine keeps it

  /** The stage of every other pipeline still fits. */
  lemma {:induction false} StagesStay(s: State, v: World, d: string, stage: Stage)
    requires StagesFit(s) && d in v.deployments
    requires forall e :: e in v.deployments && e != d ==>
          e in s.world.deployments && v.deployments[e] == s.world.deployments[e]
    requires stage == AtEnd || v.deployments[d].status == StatusAt(stage)
    ensures StagesFit(State(v, s.stages[d := stage]))
  {
  }

  predicate StatusStep(step: Step) {
    step.StartBuild? || step.FinishBuild? || step.Abort? || step.EnterScheduling? || step.EnterStarting? || step.GiveUp? || step.Finish?
  }

  /** A status write follows the lifecycle table and leaves the status of the stage it leads to. */
  lemma {:induction false} StatusMoveIsLegal(stage: Stage, step: Step)
    requires StatusMove(stage, step).Some?
    ensures var m := StatusMove(stage, step).value;
            && Legal(StatusAt(stage), m.0) && stage != AtEnd && (m.1 == AtEnd || m.0 == StatusAt(m.1))
            && (Early(m.0) ==> Early(StatusAt(stage))) && IsInFlight(StatusAt(stage))
  {
  }

  lemma {:induction false} StatusStepKeeps(s: State, step: Step)
    requires Inv(s) && StatusStep(step) && Next(s, step).Some?
    ensures Inv(Next(s, step).value)
  {
    var t, d := Next(s, step).value, step.d;
    StatusMoveIsLegal(s.stages[d], step);
    AdvanceKeeps(s.world, t.world, d);
    StagesStay(s, t.world, d, t.stages[d]);
  }

  lemma {:induction false} ImageStepKeeps(s: State, step: Step)
    requires Inv(s) && (step.StoreImage? || step.StoreDigest?) && Next(s, step).Some?
    ensures Inv(Next(s, step).value)
  {
    var t, d := Next(s, step).value, step.d;
    AdvanceKeeps(s.world, t.world, d);
    StagesStay(s, t.world, d, t.stages[d]);
  }

  lemma {:induction false} CreateStepKeeps(s: State, step: Step)
    requires Inv(s) && step.CreateRecord? && Next(s, step).Some?
    ensures Inv(Next(s, step).value)
  {
    var t, d := Next(s, step).value, step.d;
    RecordKeeps(s.world, t.world, d, NewInstance(d, step.o));
    StagesStay(s, t.world, d, t.stages[d]);
  }

  lemma {:induction false} UpdateKeeps(w: World, d: string, inst: Instance)
    requires CrashInv(w) && d in w.deployments && w.deployments[d].status == STARTING && inst.deployment == d
    ensures CrashInv(UpdateInstance(w, inst))
  {
    if inst.id in w.instances {
      RecordKeeps(w, UpdateInstance(w, inst), d, inst);
    }
  }

  lemma {:induction false} MarkStepKeeps(s: State, step: Step)
    requires Inv(s) && (step.FailRecord? || step.MarkRecord?) && Next(s, step).Some?
    ensures Inv(Next(s, step).value)
  {
    var t, d := Next(s, step).value, step.d;
    var stage := s.stages[d];
    if step.FailRecord? {
      UpdateKeeps(s.world, d, NewInstance(d, stage.o).(status := Failed));
    } else {
      UpdateKeeps(s.world, d, NewInstance(d, stage.o).(worker := stage.t, container := stage.o.containerID, status := Running));
    }
    StagesStay(s, t.world, d, t.stages[d]);
  }

  lemma {:induction false} BeginStepKeeps(s: State, step: Step)
    requires Inv(s) && step.Begin? && Next(s, step).Some?
    ensures Inv(Next(s, step).value)
  {
    var t, d := Next(s, step).value, step.d;
    BeginKeeps(s.world, d, step.dep);
    StagesStay(s, t.world, d, t.stages[d]);
  }

  lemma {:induction false} LaunchStepKeeps(s: State, step: Step)
    requires Inv(s) && step.Launch? && Next(s, step).Some?
    ensures Inv(Next(s, step).value)
  {
    var w, t, d := s.world, Next(s, step).value, step.d;
    var o := s.stages[d].o;
    LaunchKeeps(w, d, Pick(w, d, o).worker.id, o, w.deployments[d].digest, step.signature);
    StagesStay(s, t.world, d, t.stages[d]);
  }

  lemma {:induction false} ViewStepKeeps(s: State, step: Step)
    requires Inv(s) && (step.RouteInstance? || step.CountWorkload?) && Next(s, step).Some?
    ensures Inv(Next(s, step).value)
  {
    var t, d := Next(s, step).value, step.d;
    ViewKeeps(s.world, t.world);
    StagesStay(s, t.world, d, t.stages[d]);
  }

  lemma {:induction false} StepKeepsInv(s: State, step: Step)
    requires Inv(s) && Next(s, step).Some?
    ensures Inv(Next(s, step).value)
  {
    if StatusStep(step) {
      StatusStepKeeps(s, step);
    } else {
      match step
      case CreateRecord(_, _) => CreateStepKeeps(s, step);
      case FailRecord(_) => MarkStepKeeps(s, step);
      case MarkRecord(_) => MarkStepKeeps(s, step);
      case StoreImage(_, _, _) => ImageStepKeeps(s, step);
      case StoreDigest(_, _) => ImageStepKeeps(s, step);
      case Begin(_, _) => BeginStepKeeps(s, step);
      case Launch(_, _) => LaunchStepKeeps(s, step);
      case RouteInstance(_) => ViewStepKeeps(s, step);
      case CountWorkload(_) => ViewStepKeeps(s, step);
    }
  }

  /** Every status write of a pipeline follows the lifecycle table, and begins at QUEUED. */
  lemma {:induction false} StepIsLegal(s: State, step: Step, d: string)
    requires StagesFit(s) && Next(s, step).Some? && d in Next(s, step).value.world.deployments
    ensures var v := Next(s, step).value.world;
            if d in s.world.deployments then Legal(s.world.deployments[d].status, v.deployments[d].status)
            else v.deployments[d].status == QUEUED
  {
    if StatusStep(step) {
      StatusStepIsLegal(s, step, d);
    } else {
      OtherStepIsLegal(s, step, d);
    }
  }

  lemma {:induction false} StatusStepIsLegal(s: State, step: Step, d: string)
    requires StagesFit(s) && StatusStep(step) && Next(s, step).Some? && d in s.world.deployments
    ensures d in Next(s, step).value.world.deployments
    ensures Legal(s.world.deployments[d].status, Next(s, step).value.world.deployments[d].status)
  {
    StatusMoveIsLegal(s.stages[step.d], step);
  }

  lemma {:induction false} OtherStepIsLegal(s: State, step: Step, d: string)
    requires !StatusStep(step) && Next(s, step).Some? && d in Next(s, step).value.world.deployments
    ensures var v := Next(s, step).value.world;
            if d in s.world.deployments then v.deployments[d].status == s.world.deployments[d].status
            else v.deployments[d].status == QUEUED
  {
  }

  lemma {:induction false} ReachableKeepsInv(s: State, steps: seq<Step>, t: State)
    requires Inv(s) && Reaches(s, steps, t)
    ensures Inv(t)
  {
    forall u, step | Inv(u) && Next(u, step).Some? ensures Inv(Next(u, step).value) {
      StepKeepsInv(u, step);
    }
    Runs.RunKeeps(Next, u => Inv(u), s, steps);
  }

  /** A new cluster with no pipeline under way meets the invariant. */
  lemma {:induction false} NewClusterFits(w: World)
    requires NewCluster(w)
    ensures Inv(State(w, map[]))
  {
  }
}
