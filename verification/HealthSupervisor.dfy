/**
  The health supervisor: four checks that share one snapshot, three of them with a repair that a
  cooldown throttles. The clock is arbitrary and may go backwards.
 */
module HealthSupervisor {
  import opened Wrappers

  const RECOVERY_COOLDOWN_MS: nat := 60_000
  const U32_MAX: nat := 0xFFFF_FFFF

  datatype HealthState = Unknown | Healthy | Degraded | Recovering | Failed

  /** The value of a component's record. */
  datatype Health = Health(state: HealthState, failures: nat, lastCheckMs: nat, lastRecoveryMs: Option<nat>,
                           lastError: Option<string>)

  const DEFAULT: Health := Health(Unknown, 0, 0, None, None)

  function SaturatingInc(n: nat): nat { if n >= U32_MAX then U32_MAX else n + 1 }

  /** No repair was started yet, or the last one is a minute old. */
  predicate MayRecover(h: Health, at: nat) {
    h.lastRecoveryMs.Some? ==> at >= h.lastRecoveryMs.value + RECOVERY_COOLDOWN_MS
  }

  function MarkedHealthy(h: Health, at: nat): Health {
    h.(state := Healthy, failures := 0, lastCheckMs := at, lastError := None)
  }

  function MarkedFailure(h: Health, at: nat, error: string): Health {
    h.(state := Degraded, failures := SaturatingInc(h.failures), lastCheckMs := at, lastError := Some(error))
  }

  /** A whole check of a component that can be repaired, when nothing runs in between. */
  function CheckedWhole(h: Health, available: bool, at: nat, error: string, repair: Result<(), string>,
                        repairedAt: nat): Health {
    if available then MarkedHealthy(h, at)
    else
      var failed := MarkedFailure(h, at, error);
      if !MayRecover(h, at) then failed
      else
        var started := failed.(lastRecoveryMs := Some(at));
        if repair.Ok? then MarkedHealthy(started, repairedAt)
        else started.(state := Failed, lastError := Some(repair.error))
  }

  class ComponentHealth {
    var state: HealthState
    var consecutiveFailures: nat
    var lastCheckMs: nat
    var lastRecoveryMs: Option<nat>
    var lastError: Option<string>

    constructor ()
      ensures Value() == DEFAULT
    {
      state, consecutiveFailures, lastCheckMs, lastRecoveryMs, lastError := Unknown, 0, 0, None, None;
    }

    function Value(): Health
      reads this
    {
      Health(state, consecutiveFailures, lastCheckMs, lastRecoveryMs, lastError)
    }

    method BeginCheck(at: nat)
      modifies this
      ensures Value() == old(Value()).(lastCheckMs := at)
    {
      lastCheckMs := at;
    }

    method MarkHealthy(at: nat)
      modifies this
      ensures Value() == MarkedHealthy(old(Value()), at)
      ensures Value() == Health(Healthy, 0, at, old(lastRecoveryMs), None)
      ensures forall t: nat :: MayRecover(Value(), t) <==> MayRecover(old(Value()), t)
    {
      state := Healthy;
      consecutiveFailures := 0;
      lastCheckMs := at;
      lastError := None;
    }

    method MarkFailure(at: nat, error: string) returns (recover: bool)
      modifies this
      ensures Value() == MarkedFailure(old(Value()), at, error)
      ensures state == Degraded && lastCheckMs == at && lastError == Some(error)
      ensures lastRecoveryMs == old(lastRecoveryMs)
      ensures consecutiveFailures
              == if old(consecutiveFailures) >= 0xFFFF_FFFF then 0xFFFF_FFFF else old(consecutiveFailures) + 1
      ensures recover <==> lastRecoveryMs.None? || at >= lastRecoveryMs.value + 60_000
    {
      lastCheckMs := at;
      consecutiveFailures := if consecutiveFailures >= U32_MAX then U32_MAX else consecutiveFailures + 1;
      lastError := Some(error);
      state := Degraded;
      if lastRecoveryMs.Some? {
        var last := lastRecoveryMs.value;
        recover := (if at < last then 0 else at - last) >= RECOVERY_COOLDOWN_MS;
      } else {
        recover := true;
      }
    }

    method MarkRecovering(at: nat)
      modifies this
      ensures Value() == old(Value()).(state := Recovering, lastRecoveryMs := Some(at))
      ensures forall t: nat :: MayRecover(Value(), t) <==> t >= at + 60_000
    {
      state := Recovering;
      lastRecoveryMs := Some(at);
    }
  }

  /** check_bridge, check_iot and check_face, which differ in what they probe and how they repair. */
  method CheckComponent(component: ComponentHealth, available: bool, at: nat, error: string, repair: Result<(), string>,
                        repairedAt: nat)
    modifies component
    ensures component.Value() == CheckedWhole(old(component.Value()), available, at, error, repair, repairedAt)
    ensures ShowsCheck(old(component.Value()), component.Value(), available, at, error, repair, repairedAt)
  {
    component.BeginCheck(at);
    var shouldRecover := false;
    if available {
      component.MarkHealthy(at);
    } else {
      shouldRecover := component.MarkFailure(at, error);
    }
    if shouldRecover {
      component.MarkRecovering(at);
      if repair.Ok? {
        component.MarkHealthy(repairedAt);
      } else {
        component.state := Failed;
        component.lastError := Some(repair.error);
      }
    }
  }

  /** The record after a whole check, by its outcome: a success; a failure so soon after a repair that none
      is made; a repair that worked; and one that did not. */
  predicate ShowsCheck(h: Health, h': Health, available: bool, at: nat, error: string, repair: Result<(), string>,
                       repairedAt: nat) {
    var counted := if h.failures >= 0xFFFF_FFFF then 0xFFFF_FFFF else h.failures + 1;
    h' == if available then Health(Healthy, 0, at, h.lastRecoveryMs, None)
          else if h.lastRecoveryMs.Some? && at < h.lastRecoveryMs.value + 60_000
          then Health(Degraded, counted, at, h.lastRecoveryMs, Some(error))
          else if repair.Ok? then Health(Healthy, 0, repairedAt, Some(at), None)
          else Health(Failed, counted, at, Some(at), Some(repair.error))
  }

  const AMBIENT_ERROR: string := "ambient sensor reading unavailable"

  method CheckAmbientSensor(component: ComponentHealth, healthy: bool, at: nat)
    modifies component
    ensures component.Value() == if healthy then MarkedHealthy(old(component.Value()), at)
                                 else MarkedFailure(old(component.Value()), at, AMBIENT_ERROR)
    ensures var h := old(component.Value());
            component.Value()
            == if healthy then Health(Healthy, 0, at, h.lastRecoveryMs, None)
               else Health(Degraded, if h.failures >= 0xFFFF_FFFF then 0xFFFF_FFFF else h.failures + 1, at,
                           h.lastRecoveryMs, Some("ambient sensor reading unavailable"))
  {
    component.BeginCheck(at);
    if healthy {
      component.MarkHealthy(at);
    } else {
      component.state := Degraded;
      component.consecutiveFailures :=
        if component.consecutiveFailures >= U32_MAX then U32_MAX else component.consecutiveFailures + 1;
      component.lastError := Some(AMBIENT_ERROR);
    }
  }

  // ----- one check, lock by lock

  datatype Component = Bridge | Iot | Face | AmbientSensor

  datatype Phase = Probing | Deciding(at: nat) | Repairing | Done

  datatype Step =
    | Probed(available: bool, at: nat, error: string)
    | BeginRepair
    | EndRepair(result: Result<(), string>, repairedAt: nat)

  /** A component's record, where its check is, and its history: checks, failed checks since the
      last healthy mark, and the times of the repairs. */
  datatype Task = Task(health: Health, phase: Phase, checks: nat, failed: nat, repairs: seq<nat>)

  const START: Task := Task(DEFAULT, Probing, 0, 0, [])

  predicate StepEnabled(t: Task, step: Step) {
    match step
    case Probed(_, _, _) => t.phase == Probing
    case BeginRepair => t.phase.Deciding?
    case EndRepair(_, _) => t.phase == Repairing
  }

  /** One critical section of a check; the ambient sensor is never repaired. */
  function TaskNext(t: Task, repairable: bool, step: Step): Task
    requires StepEnabled(t, step)
  {
    match step
    case Probed(available, at, error) =>
      if available then t.(health := MarkedHealthy(t.health, at), phase := Done, checks := t.checks + 1, failed := 0)
      else t.(health := MarkedFailure(t.health, at, error), checks := t.checks + 1, failed := t.failed + 1,
              phase := if repairable && MayRecover(t.health, at) then Deciding(at) else Done)
    case BeginRepair =>
      t.(health := t.health.(state := Recovering, lastRecoveryMs := Some(t.phase.at)),
         phase := Repairing, repairs := t.repairs + [t.phase.at])
    case EndRepair(result, repairedAt) =>
      if result.Ok? then t.(health := MarkedHealthy(t.health, repairedAt), phase := Done, failed := 0)
      else t.(health := t.health.(state := Failed, lastError := Some(result.error)), phase := Done)
  }

  // ----- what every snapshot shows

  predicate HealthOk(t: Task) {
    var h := t.health;
    && h.failures == (if t.failed < 0xFFFF_FFFF then t.failed else 0xFFFF_FFFF)
    && (h.state == Unknown ==> t.checks == 0 && h.lastError.None?)
    && (h.state == Healthy ==> h.failures == 0 && h.lastError.None?)
    && (h.state in {Degraded, Recovering, Failed} ==> h.failures >= 1 && h.lastError.Some?)
    && (h.state in {Recovering, Failed} ==> h.lastRecoveryMs.Some?)
    && (t.checks > 0 ==> h.state != Unknown)
  }

  predicate PhaseOk(t: Task, repairable: bool) {
    && (t.phase.Deciding? ==> repairable && t.health.state == Degraded && MayRecover(t.health, t.phase.at))
    && (t.phase == Repairing <==> t.health.state == Recovering)
  }

  /** A repair starts at least a minute of clock time after the one before, by the times recorded. */
  predicate Spaced(repairs: seq<nat>) {
    forall i :: 0 <= i < |repairs| - 1 ==> repairs[i + 1] >= repairs[i] + RECOVERY_COOLDOWN_MS
  }

  predicate RepairsOk(t: Task, repairable: bool) {
    && Spaced(t.repairs) && (!repairable ==> t.repairs == []) && |t.repairs| <= t.checks
    && t.health.lastRecoveryMs == (if t.repairs == [] then None else Some(t.repairs[|t.repairs| - 1]))
    && (t.phase.Deciding? ==> |t.repairs| < t.checks)
  }

  predicate TaskOk(t: Task, repairable: bool) {
    HealthOk(t) && PhaseOk(t, repairable) && RepairsOk(t, repairable)
  }

  lemma StepKeepsHealth(t: Task, repairable: bool, step: Step)
    ensures TaskOk(t, repairable) && StepEnabled(t, step)
            ==> HealthOk(TaskNext(t, repairable, step)) && PhaseOk(TaskNext(t, repairable, step), repairable)
  {
  }

  lemma StepKeepsRepairs(t: Task, repairable: bool, step: Step)
    ensures TaskOk(t, repairable) && StepEnabled(t, step) ==> RepairsOk(TaskNext(t, repairable, step), repairable)
  {
  }

  lemma StepKeepsTask(t: Task, repairable: bool, step: Step)
    requires TaskOk(t, repairable) && StepEnabled(t, step)
    ensures TaskOk(TaskNext(t, repairable, step), repairable)
  {
    hide TaskNext, HealthOk, PhaseOk, RepairsOk;
    StepKeepsHealth(t, repairable, step);
    StepKeepsRepairs(t, repairable, step);
  }

  // ----- the four checks interleaved

  datatype State = State(tasks: map<Component, Task>, lastCycleMs: nat, cycles: nat)

  datatype Action = In(component: Component, step: Step) | EndCycle(at: nat)

  predicate Repairable(c: Component) { c != AmbientSensor }

  function Init(): (s: State)
    ensures Complete(s.tasks)
  {
    var tasks := map[Bridge := START, Iot := START, Face := START, AmbientSensor := START];
    AllFour(tasks);
    State(tasks, 0, 0)
  }

  lemma AllFour(tasks: map<Component, Task>)
    requires Bridge in tasks && Iot in tasks && Face in tasks && AmbientSensor in tasks
    ensures Complete(tasks)
  {
    forall c: Component ensures c in tasks {
      assert c == Bridge || c == Iot || c == Face || c == AmbientSensor;
    }
  }

  predicate Complete(tasks: map<Component, Task>) { forall c: Component :: c in tasks }

  predicate AllDone(tasks: map<Component, Task>) { forall c :: c in tasks ==> tasks[c].phase == Done }

  predicate Enabled(s: State, a: Action)
    requires Complete(s.tasks)
  {
    match a
    case In(c, step) => StepEnabled(s.tasks[c], step)
    case EndCycle(_) => AllDone(s.tasks)
  }

  function Next(s: State, a: Action): (s': State)
    requires Complete(s.tasks) && Enabled(s, a)
    ensures Complete(s'.tasks)
  {
    match a
    case In(c, step) => s.(tasks := s.tasks[c := TaskNext(s.tasks[c], Repairable(c), step)])
    case EndCycle(at) =>
      State(map c | c in s.tasks :: s.tasks[c].(phase := Probing), at, s.cycles + 1)
  }

  predicate IsRun(s: State, run: seq<Action>)
    requires Complete(s.tasks)
    decreases |run|
  {
    run == [] || (Enabled(s, run[0]) && IsRun(Next(s, run[0]), run[1..]))
  }

  function Final(s: State, run: seq<Action>): (s': State)
    requires Complete(s.tasks) && IsRun(s, run)
    ensures Complete(s'.tasks)
    decreases |run|
  {
    if run == [] then s else Final(Next(s, run[0]), run[1..])
  }

  /** Each cycle checks each component once. */
  predicate InCycle(t: Task, cycles: nat) {
    t.checks == if t.phase == Probing then cycles else cycles + 1
  }

  ghost predicate Inv(s: State) {
    && Complete(s.tasks)
    && forall c :: c in s.tasks ==> TaskOk(s.tasks[c], Repairable(c)) && InCycle(s.tasks[c], s.cycles)
  }

  lemma StepKeeps(s: State, a: Action)
    requires Inv(s) && Enabled(s, a)
    ensures Inv(Next(s, a))
  {
    hide TaskOk, TaskNext, InCycle, StepEnabled;
    if a.In? {
      var t := s.tasks[a.component];
      StepKeepsTask(t, Repairable(a.component), a.step);
      StepStaysInCycle(t, Repairable(a.component), a.step, s.cycles);
    } else {
      forall c | c in s.tasks
        ensures var t := s.tasks[c].(phase := Probing); TaskOk(t, Repairable(c)) && InCycle(t, s.cycles + 1)
      {
        NewCycleKeeps(s.tasks[c], Repairable(c), s.cycles);
      }
    }
  }

  lemma NewCycleKeeps(t: Task, repairable: bool, cycles: nat)
    ensures t.phase == Done && TaskOk(t, repairable) && InCycle(t, cycles)
            ==> TaskOk(t.(phase := Probing), repairable) && InCycle(t.(phase := Probing), cycles + 1)
  {
  }

  lemma InitOk()
    ensures Inv(Init())
  {
  }

  lemma StepStaysInCycle(t: Task, repairable: bool, step: Step, cycles: nat)
    ensures StepEnabled(t, step) && InCycle(t, cycles) ==> InCycle(TaskNext(t, repairable, step), cycles)
  {
  }

  lemma {:induction false} RunKeeps(s: State, run: seq<Action>)
    requires Inv(s) && IsRun(s, run)
    ensures Inv(Final(s, run))
    decreases |run|
  {
    hide Inv, Enabled, Next;
    InvComplete(s);
    if run != [] {
      StepKeeps(s, run[0]);
      InvComplete(Next(s, run[0]));
      RunKeeps(Next(s, run[0]), run[1..]);
    }
  }

  lemma InvComplete(s: State)
    ensures Inv(s) ==> Complete(s.tasks)
  {
  }

  /** Over every interleaving of the four checks: what a snapshot says of a component is consistent,
      its failure count is the failed checks since the last healthy mark (up to u32::MAX), and no two
      components are ever more than one check apart. */
  lemma SnapshotsAreConsistent(run: seq<Action>, c: Component, c': Component)
    requires IsRun(Init(), run)
    ensures var s := Final(Init(), run); HealthOk(s.tasks[c]) && s.tasks[c].checks <= s.tasks[c'].checks + 1
  {
    InitOk();
    RunKeeps(Init(), run);
    hide HealthOk, IsRun, Final;
  }

  /** And the ambient sensor is never repaired. */
  lemma AmbientNeverRecovers(run: seq<Action>)
    requires IsRun(Init(), run)
    ensures var t := Final(Init(), run).tasks[AmbientSensor];
            t.repairs == [] && t.health.lastRecoveryMs == None && t.health.state in {Unknown, Healthy, Degraded}
  {
    InitOk();
    RunKeeps(Init(), run);
    hide IsRun, Final;
  }

  lemma {:induction false} SpacedSpan(repairs: seq<nat>, i: nat, j: nat)
    requires Spaced(repairs) && i <= j < |repairs|
    ensures repairs[j] >= repairs[i] + RECOVERY_COOLDOWN_MS * (j - i)
    decreases j - i
  {
    if i < j {
      SpacedSpan(repairs, i, j - 1);
      assert repairs[(j - 1) + 1] >= repairs[j - 1] + RECOVERY_COOLDOWN_MS;
    }
  }

  /** Whatever the clock does, any two repairs of a component are a minute apart for every repair
      between them, healthy periods or not. */
  lemma RecoveriesAreThrottled(run: seq<Action>, c: Component, i: nat, j: nat)
    requires IsRun(Init(), run) && i <= j < |Final(Init(), run).tasks[c].repairs|
    ensures var repairs := Final(Init(), run).tasks[c].repairs;
            repairs[j] >= repairs[i] + 60_000 * (j - i)
  {
    InitOk();
    RunKeeps(Init(), run);
    SpacedSpan(Final(Init(), run).tasks[c].repairs, i, j);
    hide IsRun, Final, HealthOk, PhaseOk, Spaced;
  }

  /** A failed check is followed by a repair exactly when a minute has passed since the last one. */
  lemma FailedCheckDecides(run: seq<Action>, c: Component, at: nat, error: string)
    requires IsRun(Init(), run) && Enabled(Final(Init(), run), In(c, Probed(false, at, error)))
    ensures var s := Final(Init(), run);
            var repairs := s.tasks[c].repairs;
            Enabled(Next(s, In(c, Probed(false, at, error))), In(c, BeginRepair))
            <==> c != AmbientSensor && (repairs == [] || at >= repairs[|repairs| - 1] + 60_000)
  {
    InitOk();
    RunKeeps(Init(), run);
    hide IsRun, Final, HealthOk, PhaseOk, Spaced;
  }

  /** The ends of a run's cycles, by their times. */
  function CycleEnds(run: seq<Action>): seq<nat> {
    if run == [] then [] else (if run[0].EndCycle? then [run[0].at] else []) + CycleEnds(run[1..])
  }

  /** The snapshot shows when the last cycle ended, and a cycle can end exactly when all four checks are
      done. */
  lemma {:induction false} CyclesAreCounted(s: State, run: seq<Action>)
    requires Complete(s.tasks) && IsRun(s, run)
    ensures var s', ends := Final(s, run), CycleEnds(run);
            && s'.cycles == s.cycles + |ends|
            && s'.lastCycleMs == (if ends == [] then s.lastCycleMs else ends[|ends| - 1])
            && forall at :: Enabled(s', EndCycle(at)) <==> forall c: Component :: s'.tasks[c].phase == Done
    decreases |run|
  {
    if run != [] {
      CyclesAreCounted(Next(s, run[0]), run[1..]);
      hide TaskNext, StepEnabled;
    }
  }

  // ----- the interleaving does not matter

  /** The steps of a run that concern component c, with the ends of cycles. */
  function Alone(run: seq<Action>, c: Component): seq<Action> {
    if run == [] then []
    else (if run[0].In? && run[0].component != c then [] else [run[0]]) + Alone(run[1..], c)
  }

  function AloneFinal(t: Task, repairable: bool, run: seq<Action>): Option<Task>
    decreases |run|
  {
    if run == [] then Some(t)
    else match run[0]
      case In(_, step) =>
        if StepEnabled(t, step) then AloneFinal(TaskNext(t, repairable, step), repairable, run[1..]) else None
      case EndCycle(_) => AloneFinal(t.(phase := Probing), repairable, run[1..])
  }

  /** Every component ends as if its own checks had run alone. */
  lemma {:induction false} InterleavingIsIrrelevant(s: State, run: seq<Action>, c: Component)
    requires Complete(s.tasks) && IsRun(s, run)
    ensures AloneFinal(s.tasks[c], Repairable(c), Alone(run, c)) == Some(Final(s, run).tasks[c])
    decreases |run|
  {
    if run != [] {
      InterleavingIsIrrelevant(Next(s, run[0]), run[1..], c);
      var rest := Alone(run[1..], c);
      assert ([run[0]] + rest)[1..] == rest;
      assert [] + rest == rest;
      hide TaskNext, IsRun, StepEnabled;
    }
  }

  /** The lock-by-lock steps of one check, run through, are the whole check. */
  lemma StepsMakeTheCheck(t: Task, available: bool, at: nat, error: string, repair: Result<(), string>, repairedAt: nat)
    requires t.phase == Probing
    ensures var t1 := TaskNext(t, true, Probed(available, at, error));
            var t3 := if t1.phase.Deciding?
                      then TaskNext(TaskNext(t1, true, BeginRepair), true, EndRepair(repair, repairedAt))
                      else t1;
            && t3.phase == Done && t3.health == CheckedWhole(t.health, available, at, error, repair, repairedAt)
            && ShowsCheck(t.health, t3.health, available, at, error, repair, repairedAt)
  {
  }
}
