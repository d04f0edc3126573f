/**
  The ladder that a privileged call climbs: pipe, pipe again, scheduled task, repair and retry, UAC
  prompt. Any number of calls climb at once; the environment decides every outcome. They share the
  request lock, the memory of a declined prompt and the circuit breaker.
 */
module DispatchLadder {
  import opened Wrappers
  import opened Commands

  const BREAKER_TRIP_THRESHOLD: nat := 3
  const POLL_INTERVAL_MS: nat := 150

  type CallId = nat

  datatype Healed = AlreadyCorrect | Repaired | NotHealed | HealTimedOut

  datatype Consent = Accepted | Declined | LaunchError

  /** How far a call has come; try is 1 for the prompt before the polling, 2 for the one after it. */
  datatype Phase =
    | Waiting
    | Entered | OncePiped | TwicePiped | Writing | Launching
    | Healing | Retrying
    | Asking(try: nat) | Prompting(try: nat) | Prompted(try: nat)
    | Noting | Polling
    | Returned

  /** A call; awaited is false once it returned an error while its prompt job still runs. */
  datatype Call = Call(allowUac: bool, phase: Phase, awaited: bool, prompts: nat)

  datatype State = State(declined: bool, streak: nat, lock: Option<CallId>, calls: map<CallId, Call>)

  const INIT: State := State(false, 0, None, map[])

  datatype Action =
    | Arrive(id: CallId, allowUac: bool)
    | Acquire(id: CallId)
    | FastPath(id: CallId)
    | TryPipe(id: CallId, ok: bool)
    | CheckBreaker(id: CallId)
    | WriteCommand(id: CallId, ok: bool)
    | RunTask(id: CallId, ok: bool)
    | Heal(id: CallId, healed: Healed)
    | Retry(id: CallId, ok: bool)
    | CheckDeclined(id: CallId)
    | OpenPrompt(id: CallId)
    | Answer(id: CallId, consent: Consent)
    | GiveUpPrompt(id: CallId)
    | NoteFailure(id: CallId)
    | GetResult(id: CallId, ok: bool)
    | TimeOut(id: CallId)
    // the health supervisor found the bridge's pipe
    | BridgeFound

  predicate Own(a: Action, id: CallId) { !a.BridgeFound? && a.id == id }

  predicate In(s: State, id: CallId, phase: Phase) { id in s.calls && s.calls[id].phase == phase }

  predicate Enabled(s: State, a: Action) {
    match a
    case Arrive(id, _) => id !in s.calls
    case Acquire(id) => In(s, id, Waiting) && s.lock.None?
    case FastPath(id) => In(s, id, Entered)
    case TryPipe(id, _) => In(s, id, Entered) || In(s, id, OncePiped)
    case CheckBreaker(id) => In(s, id, TwicePiped)
    case WriteCommand(id, _) => In(s, id, Writing)
    case RunTask(id, _) => In(s, id, Launching)
    case Heal(id, _) => In(s, id, Healing)
    case Retry(id, _) => In(s, id, Retrying)
    case CheckDeclined(id) => id in s.calls && s.calls[id].phase.Asking?
    case OpenPrompt(id) => id in s.calls && s.calls[id].phase.Prompting?
    case Answer(id, _) => id in s.calls && s.calls[id].phase.Prompted?
    case GiveUpPrompt(id) =>
      && id in s.calls && s.calls[id].awaited
      && (s.calls[id].phase.Asking? || s.calls[id].phase.Prompting? || s.calls[id].phase.Prompted?)
    case NoteFailure(id) => In(s, id, Noting)
    case GetResult(id, _) => In(s, id, Polling)
    case TimeOut(id) => In(s, id, Polling)
    case BridgeFound => true
  }

  function Move(s: State, id: CallId, phase: Phase): State
    requires id in s.calls
  {
    s.(calls := s.calls[id := s.calls[id].(phase := phase)])
  }

  /** The guard goes with the call, or by its explicit release. */
  function Unlocked(s: State): State { s.(lock := None) }

  function Next(s: State, a: Action): State
    requires Enabled(s, a)
  {
    match a
    case Arrive(id, allowUac) => s.(calls := s.calls[id := Call(allowUac, Waiting, true, 0)])
    case Acquire(id) => Move(s, id, Entered).(lock := Some(id))
    case FastPath(id) => Unlocked(Move(s, id, Returned))
    case TryPipe(id, ok) =>
      if ok then Unlocked(Move(s, id, Returned)).(streak := 0)
      else Move(s, id, if s.calls[id].phase == Entered then OncePiped else TwicePiped)
    case CheckBreaker(id) =>
      if !s.calls[id].allowUac && s.streak >= BREAKER_TRIP_THRESHOLD then Unlocked(Move(s, id, Returned))
      else Move(s, id, Writing)
    case WriteCommand(id, ok) => if ok then Move(s, id, Launching) else Unlocked(Move(s, id, Returned))
    case RunTask(id, ok) => Unlocked(Move(s, id, if ok then Polling else Healing))
    case Heal(id, healed) =>
      Move(s, id, match healed
                  case AlreadyCorrect => Retrying
                  case Repaired => Retrying
                  case NotHealed => if s.calls[id].allowUac then Asking(1) else Returned
                  case HealTimedOut => Returned)
    case Retry(id, ok) => Move(s, id, if ok then Noting else if s.calls[id].allowUac then Asking(1) else Returned)
    case CheckDeclined(id) => Move(s, id, if s.declined then Returned else Prompting(s.calls[id].phase.try))
    case OpenPrompt(id) =>
      var c := s.calls[id];
      s.(calls := s.calls[id := c.(phase := Prompted(c.phase.try), prompts := c.prompts + 1)])
    case Answer(id, consent) =>
      var c := s.calls[id];
      Move(s, id, if consent == Accepted && c.awaited && c.phase.try == 1 then Noting else Returned)
        .(declined := s.declined || consent == Declined)
    case GiveUpPrompt(id) => s.(calls := s.calls[id := s.calls[id].(awaited := false)])
    case NoteFailure(id) => Move(s, id, Polling).(streak := s.streak + 1)
    case GetResult(id, ok) => Move(s, id, Returned).(streak := if ok then 0 else s.streak)
    case TimeOut(id) => Move(s, id, if s.calls[id].allowUac then Asking(2) else Returned)
    case BridgeFound => s.(streak := 0)
  }

  predicate IsRun(s: State, run: seq<Action>)
    decreases |run|
  {
    run == [] || (Enabled(s, run[0]) && IsRun(Next(s, run[0]), run[1..]))
  }

  function Final(s: State, run: seq<Action>): State
    requires IsRun(s, run)
    decreases |run|
  {
    if run == [] then s else Final(Next(s, run[0]), run[1..])
  }

  // ----- the lock

  predicate Holds(phase: Phase) { phase in {Entered, OncePiped, TwicePiped, Writing, Launching} }

  predicate LockOk(s: State) {
    forall id :: id in s.calls && Holds(s.calls[id].phase) ==> s.lock == Some(id)
  }

  lemma StepKeepsLock(s: State, a: Action)
    requires LockOk(s) && Enabled(s, a)
    ensures LockOk(Next(s, a))
  {
    var s' := Next(s, a);
    if !a.BridgeFound? { OwnStepKeepsLock(s, a); }
    forall id | id in s'.calls && Holds(s'.calls[id].phase) ensures s'.lock == Some(id) {
      if !Own(a, id) {
        OthersStay(s, a, id);
        assert s.lock == Some(id);
      }
    }
    hide Next, Holds;
  }

  lemma OwnStepKeepsLock(s: State, a: Action)
    requires Enabled(s, a) && !a.BridgeFound?
    requires a.id in s.calls && Holds(s.calls[a.id].phase) ==> s.lock == Some(a.id)
    ensures var s' := Next(s, a);
            && (a.id in s'.calls && Holds(s'.calls[a.id].phase) ==> s'.lock == Some(a.id))
            && (s.lock.Some? && s.lock != Some(a.id) ==> s'.lock == s.lock)
  {
  }

  // ----- the prompts

  /** How many prompts a call can have opened by each phase: none without permission, one for each
      of the two places that may ask. */
  function MostPrompts(phase: Phase): nat {
    match phase
    case Asking(try) => if try <= 1 then 0 else 1
    case Prompting(try) => if try <= 1 then 0 else 1
    case Prompted(try) => if try <= 1 then 1 else 2
    case Noting => 1
    case Polling => 1
    case Returned => 2
    case _ => 0
  }

  predicate PromptsOk(c: Call) {
    && c.prompts <= MostPrompts(c.phase)
    && (!c.allowUac ==> c.prompts == 0 && !c.phase.Asking? && !c.phase.Prompting? && !c.phase.Prompted?)
  }

  predicate AllPromptsOk(s: State) { forall id :: id in s.calls ==> PromptsOk(s.calls[id]) }

  lemma StepKeepsOnePrompts(s: State, a: Action)
    requires Enabled(s, a) && !a.BridgeFound? && (a.id in s.calls ==> PromptsOk(s.calls[a.id]))
    ensures a.id in Next(s, a).calls && PromptsOk(Next(s, a).calls[a.id])
  {
  }

  /** A step changes no call but its own. */
  lemma OthersStay(s: State, a: Action, id: CallId)
    requires Enabled(s, a) && !Own(a, id)
    ensures id in Next(s, a).calls <==> id in s.calls
    ensures id in s.calls ==> Next(s, a).calls[id] == s.calls[id]
  {
  }

  lemma StepKeepsPrompts(s: State, a: Action)
    requires AllPromptsOk(s) && Enabled(s, a)
    ensures AllPromptsOk(Next(s, a))
  {
    if !a.BridgeFound? { StepKeepsOnePrompts(s, a); }
    forall id | id in Next(s, a).calls ensures PromptsOk(Next(s, a).calls[id]) {
      if !Own(a, id) { OthersStay(s, a, id); }
    }
  }

  lemma {:induction false} RunKeeps(s: State, run: seq<Action>)
    requires AllPromptsOk(s) && LockOk(s) && IsRun(s, run)
    ensures AllPromptsOk(Final(s, run)) && LockOk(Final(s, run))
    decreases |run|
  {
    hide AllPromptsOk, LockOk, Enabled, Next;
    if run != [] {
      StepKeepsPrompts(s, run[0]);
      StepKeepsLock(s, run[0]);
      RunKeeps(Next(s, run[0]), run[1..]);
    }
  }

  /** Over every interleaving and every outcome, a no-prompt call opens no prompt, and no call opens
      more than two. */
  lemma PromptsAreBounded(run: seq<Action>, id: CallId)
    requires IsRun(INIT, run) && id in Final(INIT, run).calls
    ensures var c := Final(INIT, run).calls[id]; c.prompts <= if c.allowUac then 2 else 0
  {
    RunKeeps(INIT, run);
    hide IsRun, Final, LockOk;
  }

  /** Only one call at a time is between taking the lock and starting the scheduled task. */
  lemma CommandsAreWrittenAlone(run: seq<Action>, a: CallId, b: CallId)
    requires IsRun(INIT, run) && a in Final(INIT, run).calls && b in Final(INIT, run).calls
    requires Holds(Final(INIT, run).calls[a].phase) && Holds(Final(INIT, run).calls[b].phase)
    ensures a == b
  {
    RunKeeps(INIT, run);
    hide IsRun, Final, AllPromptsOk, Holds;
  }

  // ----- after a decline

  function PromptsOf(s: State, id: CallId): nat { if id in s.calls then s.calls[id].prompts else 0 }

  predicate PastTheCheck(s: State, id: CallId) { id in s.calls && s.calls[id].phase.Prompting? }

  /** What a call may still open once a decline is recorded. */
  function StillOpens(s: State, id: CallId): nat { if PastTheCheck(s, id) then 1 else 0 }

  lemma StepAfterDecline(s: State, a: Action, id: CallId)
    requires s.declined && Enabled(s, a)
    ensures var s' := Next(s, a);
            s'.declined && PromptsOf(s', id) + StillOpens(s', id) <= PromptsOf(s, id) + StillOpens(s, id)
  {
    if Own(a, id) {
      OwnStepAfterDecline(s, a);
    } else {
      OthersStay(s, a, id);
      StaysDeclined(s, a);
      hide Next;
    }
  }

  lemma StaysDeclined(s: State, a: Action)
    ensures s.declined && Enabled(s, a) ==> Next(s, a).declined
  {
  }

  lemma OwnStepAfterDecline(s: State, a: Action)
    requires s.declined && Enabled(s, a) && !a.BridgeFound?
    ensures var s' := Next(s, a);
            s'.declined && PromptsOf(s', a.id) + StillOpens(s', a.id) <= PromptsOf(s, a.id) + StillOpens(s, a.id)
  {
  }

  /** Once a decline is recorded, the only prompts that still open are those of calls that had
      already passed the check, one each. */
  lemma {:induction false} NoPromptAfterDecline(s: State, run: seq<Action>, id: CallId)
    requires s.declined && IsRun(s, run)
    ensures PromptsOf(Final(s, run), id) <= PromptsOf(s, id) + StillOpens(s, id)
    decreases |run|
  {
    if run != [] {
      hide Next, Enabled, StillOpens, PromptsOf;
      StepAfterDecline(s, run[0], id);
      NoPromptAfterDecline(Next(s, run[0]), run[1..], id);
    }
  }

  // ----- the breaker

  /** Nothing works: no pipe, no task, no prompt. */
  predicate NothingWorks(a: Action) {
    && (a.TryPipe? ==> !a.ok) && (a.RunTask? ==> !a.ok) && (a.Retry? ==> !a.ok)
    && (a.Answer? ==> a.consent != Accepted)
  }

  predicate NothingWorksIn(run: seq<Action>) { forall i :: 0 <= i < |run| ==> NothingWorks(run[i]) }

  predicate NoneNoting(s: State) { s.streak == 0 && forall id :: id in s.calls ==> !s.calls[id].phase.Noting? }

  lemma StepNotesNothing(s: State, a: Action)
    requires NoneNoting(s) && Enabled(s, a) && NothingWorks(a)
    ensures NoneNoting(Next(s, a))
  {
    if !a.BridgeFound? { OwnStepNotesNothing(s, a); }
    forall id | id in Next(s, a).calls ensures !Next(s, a).calls[id].phase.Noting? {
      if !Own(a, id) { OthersStay(s, a, id); }
    }
    hide Next;
  }

  lemma OwnStepNotesNothing(s: State, a: Action)
    requires NoneNoting(s) && Enabled(s, a) && NothingWorks(a) && !a.BridgeFound?
    ensures var s' := Next(s, a); s'.streak == 0 && a.id in s'.calls && !s'.calls[a.id].phase.Noting?
  {
    assert a.id in s.calls ==> !s.calls[a.id].phase.Noting?;
  }

  lemma {:induction false} RunNotesNothing(s: State, run: seq<Action>)
    requires NoneNoting(s) && IsRun(s, run) && NothingWorksIn(run)
    ensures NoneNoting(Final(s, run))
    decreases |run|
  {
    if run != [] {
      assert NothingWorks(run[0]);
      StepNotesNothing(s, run[0]);
      hide NoneNoting, Next, Enabled, NothingWorks;
      RunNotesNothing(Next(s, run[0]), run[1..]);
    }
  }

  /** However many calls fail on every rung, the breaker never opens: no failure is counted. */
  lemma TotalFailureIsNotCounted(run: seq<Action>)
    requires IsRun(INIT, run) && NothingWorksIn(run)
    ensures Final(INIT, run).streak == 0
  {
    RunNotesNothing(INIT, run);
    hide IsRun, Final;
  }

  /** The call had a helper after all: its retry of the scheduled task worked, or the first prompt did
      while the call still waited for it. */
  predicate GotHelper(s: State, a: Action)
    requires Enabled(s, a)
  {
    || (a.Retry? && a.ok)
    || (a.Answer? && a.consent == Accepted && s.calls[a.id].awaited && s.calls[a.id].phase.try == 1)
  }

  /** Exactly these steps lead to the count. */
  lemma CountedCallsHadAHelper(s: State, a: Action)
    requires Enabled(s, a)
    ensures !a.BridgeFound? ==> (In(Next(s, a), a.id, Noting) <==> GotHelper(s, a))
  {
  }

  function HelpersIn(s: State, run: seq<Action>): nat
    requires IsRun(s, run)
    decreases |run|
  {
    if run == [] then 0 else (if GotHelper(s, run[0]) then 1 else 0) + HelpersIn(Next(s, run[0]), run[1..])
  }

  function Noters(s: State): set<CallId> { set id | id in s.calls && s.calls[id].phase.Noting? }

  lemma NotersStep(s: State, a: Action)
    requires Enabled(s, a)
    ensures Noters(Next(s, a)) == if a.BridgeFound? then Noters(s)
                                  else if GotHelper(s, a) then Noters(s) + {a.id} else Noters(s) - {a.id}
  {
    CountedCallsHadAHelper(s, a);
    var s' := Next(s, a);
    forall id ensures id in Noters(s') <==> if Own(a, id) then GotHelper(s, a) else id in Noters(s) {
      if !Own(a, id) { OthersStay(s, a, id); }
      hide Next, GotHelper;
    }
    hide Next, GotHelper, Noters;
  }

  lemma CountStep(s: State, a: Action)
    requires Enabled(s, a)
    ensures var s' := Next(s, a);
            s'.streak + |Noters(s')| <= s.streak + |Noters(s)| + if GotHelper(s, a) then 1 else 0
  {
    NotersStep(s, a);
    StreakStep(s, a);
    var before := Noters(s);
    if !a.BridgeFound? {
      assert a.id in before ==> before == (before - {a.id}) + {a.id};
      assert a.id !in before ==> before - {a.id} == before;
    }
    hide Next, GotHelper, Noters, Enabled;
  }

  lemma StreakStep(s: State, a: Action)
    requires Enabled(s, a)
    ensures Next(s, a).streak <= s.streak + if a.NoteFailure? then 1 else 0
    ensures a.NoteFailure? ==> a.id in Noters(s) && !GotHelper(s, a)
  {
  }

  lemma {:induction false} StreakIsBounded(s: State, run: seq<Action>)
    requires IsRun(s, run)
    ensures Final(s, run).streak + |Noters(Final(s, run))| <= s.streak + |Noters(s)| + HelpersIn(s, run)
    decreases |run|
  {
    if run != [] {
      CountStep(s, run[0]);
      hide Next, Enabled, GotHelper, Noters;
      StreakIsBounded(Next(s, run[0]), run[1..]);
    }
  }

  /** So the breaker opens only after three calls that got a helper, whatever failed besides. */
  lemma OpenBreakerHadHelpers(run: seq<Action>)
    requires IsRun(INIT, run) && Final(INIT, run).streak >= 3
    ensures HelpersIn(INIT, run) >= 3
  {
    StreakIsBounded(INIT, run);
    assert Noters(INIT) == {};
    hide IsRun, Final, HelpersIn;
  }

  predicate Succeeds(a: Action) { (a.TryPipe? && a.ok) || (a.GetResult? && a.ok) || a.BridgeFound? }

  predicate NoSuccess(run: seq<Action>) { forall i :: 0 <= i < |run| ==> !Succeeds(run[i]) }

  /** A no-prompt call that wrote no command yet, or has returned. */
  predicate WroteNothing(s: State, id: CallId) {
    && id in s.calls && !s.calls[id].allowUac
    && s.calls[id].phase in {Waiting, Entered, OncePiped, TwicePiped, Returned}
  }

  lemma StepFailsFast(s: State, a: Action, id: CallId)
    requires s.streak >= BREAKER_TRIP_THRESHOLD && Enabled(s, a) && !Succeeds(a) && WroteNothing(s, id)
    ensures Next(s, a).streak >= BREAKER_TRIP_THRESHOLD && WroteNothing(Next(s, a), id)
  {
    StreakStays(s, a);
    if Own(a, id) {
      OwnStepFailsFast(s, a);
    } else {
      OthersStay(s, a, id);
      hide Next;
    }
  }

  lemma StreakStays(s: State, a: Action)
    ensures Enabled(s, a) && !Succeeds(a) ==> Next(s, a).streak >= s.streak
  {
  }

  lemma OwnStepFailsFast(s: State, a: Action)
    ensures s.streak >= BREAKER_TRIP_THRESHOLD && Enabled(s, a) && !Succeeds(a) && WroteNothing(s, a.id)
            ==> WroteNothing(Next(s, a), a.id)
  {
  }

  /** The streak counts the noted failures since the last pipe call or result that succeeded, or the last
      time the supervisor found the bridge. */
  function Streak(streak: nat, run: seq<Action>): nat
    decreases |run|
  {
    if run == [] then streak
    else if (run[0].TryPipe? && run[0].ok) || (run[0].GetResult? && run[0].ok) || run[0].BridgeFound? then
      Streak(0, run[1..])
    else Streak(streak + if run[0].NoteFailure? then 1 else 0, run[1..])
  }

  lemma {:induction false} StreakCounts(s: State, run: seq<Action>)
    requires IsRun(s, run)
    ensures Final(s, run).streak == Streak(s.streak, run)
    decreases |run|
  {
    if run != [] { StreakCounts(Next(s, run[0]), run[1..]); }
  }

  /** While the breaker is open and nothing succeeds, no further no-prompt call writes a command or
      starts the scheduled task. */
  lemma {:induction false} OpenBreakerFailsFast(s: State, run: seq<Action>, id: CallId)
    requires s.streak >= 3 && IsRun(s, run) && NoSuccess(run) && WroteNothing(s, id)
    ensures Final(s, run).streak >= 3 && WroteNothing(Final(s, run), id)
    decreases |run|
  {
    if run != [] {
      assert !Succeeds(run[0]);
      StepFailsFast(s, run[0], id);
      hide WroteNothing, Next, Enabled, Succeeds;
      OpenBreakerFailsFast(Next(s, run[0]), run[1..], id);
    }
  }

  // ----- the poll loop

  /** The loop that waits for the result. elapsed(k) is the time since its start at the k-th check,
      which each of k + 1 sleeps delays by an interval at least. */
  method PollForResult(cmd: string, elapsed: nat -> nat, present: nat -> bool) returns (found: bool, checks: nat)
    requires forall k: nat :: elapsed(k) >= 150 * (k + 1)
    ensures 1 <= checks <= TimeoutMs(cmd) / 150 + 1 <= 601
    ensures found == present(checks - 1)
    ensures !found ==> elapsed(checks - 1) > TimeoutMs(cmd)
    ensures forall k :: 0 <= k < checks - 1 ==> !present(k) && elapsed(k) <= TimeoutMs(cmd)
  {
    hide TimeoutMs;
    var timeout := TimeoutMs(cmd);
    checks := 0;
    while true
      invariant checks <= timeout / POLL_INTERVAL_MS
      invariant forall k :: 0 <= k < checks ==> !present(k) && elapsed(k) <= timeout
      decreases timeout / POLL_INTERVAL_MS - checks
    {
      checks := checks + 1;
      if present(checks - 1) {
        return true, checks;
      }
      if elapsed(checks - 1) > timeout {
        return false, checks;
      }
      assert POLL_INTERVAL_MS * checks <= timeout;
    }
  }
}
