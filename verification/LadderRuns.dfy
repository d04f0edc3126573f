/**
  What the ladder does for its callers: when a call that failed can still ask the user, and how one call
  that climbs with nobody beside it ends, rung by rung and for every outcome.
 */
module LadderRuns {
  import opened Wrappers
  import opened DispatchLadder

  // ----- asking the user

  predicate OthersOnly(run: seq<Action>, id: CallId) { forall i :: 0 <= i < |run| ==> !Own(run[i], id) }

  lemma {:induction false} OthersRunStays(s: State, run: seq<Action>, id: CallId)
    requires IsRun(s, run) && OthersOnly(run, id) && id in s.calls
    ensures id in Final(s, run).calls && Final(s, run).calls[id] == s.calls[id]
    decreases |run|
  {
    if run != [] {
      assert !Own(run[0], id);
      OthersStay(s, run[0], id);
      hide Enabled, Next, Own;
      OthersRunStays(Next(s, run[0]), run[1..], id);
    }
  }

  /** The task could not be repaired, or its retry failed, or the polling timed out. */
  predicate RunsOut(a: Action) { (a.Heal? && a.healed == NotHealed) || (a.Retry? && !a.ok) || a.TimeOut? }

  /** Whatever the others do meanwhile, such a call goes on to ask exactly when it allows prompts, and has
      returned otherwise; before the polling it has opened no prompt yet, and after it at most one. */
  lemma AsksWhenAllowed(run: seq<Action>, a: Action, others: seq<Action>)
    requires IsRun(INIT, run) && RunsOut(a) && Enabled(Final(INIT, run), a)
    requires IsRun(Next(Final(INIT, run), a), others) && OthersOnly(others, a.id)
    ensures var s, s' := Final(INIT, run), Final(Next(Final(INIT, run), a), others);
            && a.id in s.calls && a.id in s'.calls
            && (Enabled(s', CheckDeclined(a.id)) <==> s.calls[a.id].allowUac)
            && (!s.calls[a.id].allowUac ==> s'.calls[a.id].phase == Returned)
            && s'.calls[a.id].prompts == s.calls[a.id].prompts <= if a.TimeOut? then 1 else 0
  {
    RunKeeps(INIT, run);
    var s := Final(INIT, run);
    FailedStep(s, a);
    hide IsRun, Final, Next, LockOk;
    OthersRunStays(Next(s, a), others, a.id);
  }

  lemma FailedStep(s: State, a: Action)
    requires RunsOut(a) && Enabled(s, a)
    ensures a.id in s.calls && a.id in Next(s, a).calls
    ensures var c, c' := s.calls[a.id], Next(s, a).calls[a.id];
            && c.phase == (match a case Heal(_, _) => Healing case Retry(_, _) => Retrying case _ => Polling)
            && c'.phase.Asking? == c.allowUac && (!c.allowUac ==> c'.phase == Returned) && c'.prompts == c.prompts
  {
  }

  /** A call that comes to the check can open one more prompt exactly when no decline is recorded then, and
      returns otherwise. */
  lemma OpensUnlessDeclined(s: State, id: CallId, others: seq<Action>)
    requires Enabled(s, CheckDeclined(id))
    requires IsRun(Next(s, CheckDeclined(id)), others) && OthersOnly(others, id)
    ensures var s' := Final(Next(s, CheckDeclined(id)), others);
            && id in s'.calls && (Enabled(s', OpenPrompt(id)) <==> !s.declined)
            && (s.declined ==> s'.calls[id].phase == Returned)
            && (!s.declined ==> PromptsOf(Next(s', OpenPrompt(id)), id) == s.calls[id].prompts + 1)
  {
    OthersRunStays(Next(s, CheckDeclined(id)), others, id);
    hide IsRun, Final, OthersOnly;
  }

  // ----- a call that no longer waits

  /** The call returned an error while its prompt job may still run. */
  predicate NotAwaited(s: State, id: CallId) {
    && id in s.calls && !s.calls[id].awaited
    && (s.calls[id].phase.Asking? || s.calls[id].phase.Prompting? || s.calls[id].phase.Prompted?
        || s.calls[id].phase == Returned)
  }

  lemma StepStaysGivenUp(s: State, a: Action, id: CallId)
    requires Enabled(s, a) && NotAwaited(s, id)
    ensures NotAwaited(Next(s, a), id) && (Own(a, id) ==> !a.NoteFailure? && !a.GetResult?)
  {
    if !Own(a, id) { OthersStay(s, a, id); }
  }

  /** It polls no more and counts nothing, whatever the user answers to its prompt. */
  lemma {:induction false} GivenUpNeverPolls(s: State, run: seq<Action>, id: CallId)
    requires NotAwaited(s, id) && IsRun(s, run)
    ensures NotAwaited(Final(s, run), id)
    ensures NoteFailure(id) !in run && forall ok :: GetResult(id, ok) !in run
    decreases |run|
  {
    if run != [] {
      assert run == [run[0]] + run[1..];
      StepStaysGivenUp(s, run[0], id);
      hide Enabled, Next, NotAwaited;
      GivenUpNeverPolls(Next(s, run[0]), run[1..], id);
    }
  }

  // ----- one call by itself

  /** How everything that a call may try would go: running as administrator, the pipe twice, writing the
      command, starting the task, repairing it, starting it again, the first prompt, the result (None for a
      timeout), and the second prompt. */
  datatype Luck = Luck(admin: bool, pipe: bool, pipeAgain: bool, written: bool, started: bool, healed: Healed,
                       restarted: bool, consent: Consent, result: Option<bool>, consentAgain: Consent)

  function Ask(id: CallId, declined: bool, consent: Consent): seq<Action> {
    [CheckDeclined(id)] + if declined then [] else [OpenPrompt(id)] + [Answer(id, consent)]
  }

  function Await(id: CallId, allowUac: bool, declined: bool, l: Luck): seq<Action> {
    match l.result
    case Some(ok) => [GetResult(id, ok)]
    case None => [TimeOut(id)] + if allowUac then Ask(id, declined, l.consentAgain) else []
  }

  function Noted(id: CallId, allowUac: bool, declined: bool, l: Luck): seq<Action> {
    [NoteFailure(id)] + Await(id, allowUac, declined, l)
  }

  /** The way of a call whose task is of no use. */
  function Fallback(id: CallId, allowUac: bool, declined: bool, l: Luck): seq<Action> {
    if !allowUac then []
    else
      Ask(id, declined, l.consent)
      + if !declined && l.consent == Accepted then Noted(id, allowUac, declined, l) else []
  }

  function Repair(id: CallId, allowUac: bool, declined: bool, l: Luck): seq<Action> {
    [Heal(id, l.healed)]
    + match l.healed
      case HealTimedOut => []
      case NotHealed => Fallback(id, allowUac, declined, l)
      case _ => [Retry(id, l.restarted)]
                + if l.restarted then Noted(id, allowUac, declined, l) else Fallback(id, allowUac, declined, l)
  }

  function Launch(id: CallId, allowUac: bool, declined: bool, l: Luck): seq<Action> {
    [RunTask(id, l.started)]
    + if l.started then Await(id, allowUac, declined, l) else Repair(id, allowUac, declined, l)
  }

  function Submit(id: CallId, allowUac: bool, declined: bool, l: Luck): seq<Action> {
    [WriteCommand(id, l.written)] + if l.written then Launch(id, allowUac, declined, l) else []
  }

  /** The part of the climb from the breaker on. */
  function PassBreaker(id: CallId, allowUac: bool, streak: nat, declined: bool, l: Luck): seq<Action> {
    [CheckBreaker(id)] + if !allowUac && streak >= 3 then [] else Submit(id, allowUac, declined, l)
  }

  function PipeAgain(id: CallId, allowUac: bool, streak: nat, declined: bool, l: Luck): seq<Action> {
    [TryPipe(id, l.pipeAgain)] + if l.pipeAgain then [] else PassBreaker(id, allowUac, streak, declined, l)
  }

  function AfterLock(id: CallId, allowUac: bool, streak: nat, declined: bool, l: Luck): seq<Action> {
    if l.admin then [FastPath(id)]
    else [TryPipe(id, l.pipe)] + if l.pipe then [] else PipeAgain(id, allowUac, streak, declined, l)
  }

  /** The whole climb, as the program goes through it. */
  function Climb(id: CallId, allowUac: bool, streak: nat, declined: bool, l: Luck): seq<Action> {
    [Arrive(id, allowUac)] + ([Acquire(id)] + AfterLock(id, allowUac, streak, declined, l))
  }

  // ----- how it ends

  /** The call reached the scheduled task: nothing quicker worked, and the breaker let it pass. */
  predicate Submits(allowUac: bool, streak: nat, l: Luck) {
    !l.admin && !l.pipe && !l.pipeAgain && (allowUac || streak < 3) && l.written
  }

  /** The task is of no use: it does not start, and is not repaired, or does not start again. */
  predicate TaskFails(l: Luck) {
    !l.started && (l.healed == NotHealed || (l.healed != HealTimedOut && !l.restarted))
  }

  /** The call got its helper late: by the repaired task, or by the first prompt. */
  predicate LateHelper(allowUac: bool, declined: bool, l: Luck) {
    || (!l.started && (l.healed == AlreadyCorrect || l.healed == Repaired) && l.restarted)
    || (TaskFails(l) && allowUac && !declined && l.consent == Accepted)
  }

  /** The prompts that were opened, the streak and the memory of a decline afterwards. */
  datatype End = End(prompts: nat, streak: nat, declined: bool)

  function EndOf(allowUac: bool, streak: nat, declined: bool, l: Luck): End {
    var submits := Submits(allowUac, streak, l);
    var asks := submits && TaskFails(l) && allowUac && !declined;
    var late := submits && LateHelper(allowUac, declined, l);
    var polls := submits && (l.started || late);
    var asksAgain := polls && l.result.None? && allowUac && !declined;
    End((if asks then 1 else 0) + (if asksAgain then 1 else 0),
        if !l.admin && (l.pipe || l.pipeAgain) then 0
        else if polls && l.result == Some(true) then 0
        else if late then streak + 1
        else streak,
        declined || (asks && l.consent == Declined) || (asksAgain && l.consentAgain == Declined))
  }

  // ----- the climb is a run

  lemma One(s: State, a: Action)
    requires Enabled(s, a)
    ensures IsRun(s, [a]) && Final(s, [a]) == Next(s, a)
  {
    assert [a][1..] == [];
    assert IsRun(Next(s, a), []);
  }

  lemma {:induction false} Then(s: State, run: seq<Action>, more: seq<Action>)
    requires IsRun(s, run) && IsRun(Final(s, run), more)
    ensures IsRun(s, run + more) && Final(s, run + more) == Final(Final(s, run), more)
    decreases |run|
  {
    hide Enabled, Next;
    if run == [] {
      assert run + more == more;
    } else {
      Then(Next(s, run[0]), run[1..], more);
      assert (run + more)[1..] == run[1..] + more;
    }
  }

  /** One step, and a run from there. */
  lemma First(s: State, a: Action, more: seq<Action>)
    requires Enabled(s, a) && IsRun(Next(s, a), more)
    ensures IsRun(s, [a] + more) && Final(s, [a] + more) == Final(Next(s, a), more)
  {
    One(s, a);
    hide *;
    Then(s, [a], more);
  }

  lemma Nothing(s: State)
    ensures IsRun(s, []) && Final(s, []) == s
  {
  }

  /** The state in which call id stands like this and all other calls are as in s. */
  function With(s: State, id: CallId, c: Call, streak: nat, declined: bool): State {
    State(declined, streak, s.lock, s.calls[id := c])
  }

  /** Where the call stands. */
  predicate At(s: State, id: CallId, c: Call) { id in s.calls && s.calls[id] == c }

  /** Where a call goes on that asked while it was waited for: after the first prompt to the polling. */
  function AskedPhase(declined: bool, consent: Consent, try: nat): Phase {
    if !declined && consent == Accepted && try == 1 then Noting else Returned
  }

  lemma AskRuns(s: State, id: CallId, c: Call, consent: Consent)
    requires At(s, id, c) && c.phase.Asking? && c.awaited
    ensures IsRun(s, Ask(id, s.declined, consent))
    ensures Final(s, Ask(id, s.declined, consent))
            == With(s, id, c.(phase := AskedPhase(s.declined, consent, c.phase.try),
                              prompts := c.prompts + if s.declined then 0 else 1),
                    s.streak, s.declined || consent == Declined)
  {
    var s1 := Next(s, CheckDeclined(id));
    if s.declined {
      Nothing(s1);
      First(s, CheckDeclined(id), []);
    } else {
      var s2 := Next(s1, OpenPrompt(id));
      One(s2, Answer(id, consent));
      First(s1, OpenPrompt(id), [Answer(id, consent)]);
      First(s, CheckDeclined(id), [OpenPrompt(id)] + [Answer(id, consent)]);
      AskedTwice(s, id, c, consent);
      hide IsRun, Final, Next;
    }
  }

  lemma AskedTwice(s: State, id: CallId, c: Call, consent: Consent)
    requires At(s, id, c) && c.phase.Asking? && c.awaited && !s.declined
    ensures Next(Next(Next(s, CheckDeclined(id)), OpenPrompt(id)), Answer(id, consent))
            == With(s, id, c.(phase := AskedPhase(false, consent, c.phase.try), prompts := c.prompts + 1), s.streak,
                    consent == Declined)
  {
  }

  /** The call has returned; all else is as it ended. */
  function Done(s: State, id: CallId, allowUac: bool, e: End): State {
    With(s, id, Call(allowUac, Returned, true, e.prompts), e.streak, e.declined)
  }

  /** The step takes the call on to another phase and changes no other call, no streak and no decline;
      it may release the lock. */
  predicate Goes(s: State, a: Action, s': State, id: CallId, phase: Phase) {
    && Enabled(s, a) && s' == Next(s, a) && id in s.calls && id in s'.calls
    && s'.calls[id] == s.calls[id].(phase := phase) && s'.streak == s.streak && s'.declined == s.declined
    && s'.calls == s.calls[id := s'.calls[id]] && (s'.lock == s.lock || s'.lock.None?)
  }

  lemma PipeFails(s: State, id: CallId) returns (s': State)
    requires id in s.calls && (s.calls[id].phase == Entered || s.calls[id].phase == OncePiped)
    ensures Goes(s, TryPipe(id, false), s', id, if s.calls[id].phase == Entered then OncePiped else TwicePiped)
    ensures s'.lock == s.lock
  {
    s' := Next(s, TryPipe(id, false));
  }

  lemma BreakerPasses(s: State, id: CallId) returns (s': State)
    requires id in s.calls && s.calls[id].phase == TwicePiped
    ensures if !s.calls[id].allowUac && s.streak >= 3
            then Goes(s, CheckBreaker(id), s', id, Returned) && s'.lock.None?
            else Goes(s, CheckBreaker(id), s', id, Writing) && s'.lock == s.lock
  {
    s' := Next(s, CheckBreaker(id));
  }

  lemma CommandWritten(s: State, id: CallId, ok: bool) returns (s': State)
    requires id in s.calls && s.calls[id].phase == Writing
    ensures Goes(s, WriteCommand(id, ok), s', id, if ok then Launching else Returned)
    ensures s'.lock == if ok then s.lock else None
  {
    s' := Next(s, WriteCommand(id, ok));
  }

  lemma TaskStarted(s: State, id: CallId, ok: bool) returns (s': State)
    requires id in s.calls && s.calls[id].phase == Launching
    ensures Goes(s, RunTask(id, ok), s', id, if ok then Polling else Healing) && s'.lock.None?
  {
    s' := Next(s, RunTask(id, ok));
  }

  lemma TaskHealed(s: State, id: CallId, healed: Healed) returns (s': State)
    requires id in s.calls && s.calls[id].phase == Healing
    ensures Goes(s, Heal(id, healed), s', id,
                 if healed == HealTimedOut then Returned
                 else if healed != NotHealed then Retrying
                 else if s.calls[id].allowUac then Asking(1) else Returned)
    ensures s'.lock == s.lock
  {
    s' := Next(s, Heal(id, healed));
  }

  lemma TaskRestarted(s: State, id: CallId, ok: bool) returns (s': State)
    requires id in s.calls && s.calls[id].phase == Retrying
    ensures Goes(s, Retry(id, ok), s', id,
                 if ok then Noting else if s.calls[id].allowUac then Asking(1) else Returned)
    ensures s'.lock == s.lock
  {
    s' := Next(s, Retry(id, ok));
  }

  lemma DoneFrom(s: State, a: Action, s': State, id: CallId, phase: Phase, allowUac: bool, e: End)
    requires Goes(s, a, s', id, phase)
    ensures Unlocked(Done(s', id, allowUac, e)) == Unlocked(Done(s, id, allowUac, e))
    ensures s'.lock == s.lock ==> Done(s', id, allowUac, e) == Done(s, id, allowUac, e)
    ensures s'.lock.None? ==> Done(s', id, allowUac, e) == Unlocked(Done(s, id, allowUac, e))
  {
    assert s'.calls[id := Call(allowUac, Returned, true, e.prompts)]
           == s.calls[id := Call(allowUac, Returned, true, e.prompts)];
  }

  lemma DoneHere(s: State, id: CallId, allowUac: bool, prompts: nat)
    requires At(s, id, Call(allowUac, Returned, true, prompts))
    ensures s == Done(s, id, allowUac, End(prompts, s.streak, s.declined))
  {
    assert s.calls[id := s.calls[id]] == s.calls;
  }

  function AwaitEnd(allowUac: bool, e: End, l: Luck): End {
    var asks := l.result.None? && allowUac && !e.declined;
    End(e.prompts + if asks then 1 else 0, if l.result == Some(true) then 0 else e.streak,
        e.declined || (asks && l.consentAgain == Declined))
  }

  lemma AwaitRuns(s: State, id: CallId, allowUac: bool, prompts: nat, l: Luck)
    requires At(s, id, Call(allowUac, Polling, true, prompts))
    ensures IsRun(s, Await(id, allowUac, s.declined, l))
    ensures Final(s, Await(id, allowUac, s.declined, l))
            == Done(s, id, allowUac, AwaitEnd(allowUac, End(prompts, s.streak, s.declined), l))
  {
    match l.result
    case Some(ok) =>
      One(s, GetResult(id, ok));
      hide IsRun, Final;
    case None =>
      var s1 := Next(s, TimeOut(id));
      if allowUac {
        AskRuns(s1, id, Call(allowUac, Asking(2), true, prompts), l.consentAgain);
        First(s, TimeOut(id), Ask(id, s.declined, l.consentAgain));
      } else {
        Nothing(s1);
        First(s, TimeOut(id), []);
      }
      hide IsRun, Final;
  }

  lemma NotedRuns(s: State, id: CallId, allowUac: bool, prompts: nat, l: Luck)
    requires At(s, id, Call(allowUac, Noting, true, prompts))
    ensures IsRun(s, Noted(id, allowUac, s.declined, l))
    ensures Final(s, Noted(id, allowUac, s.declined, l))
            == Done(s, id, allowUac, AwaitEnd(allowUac, End(prompts, s.streak + 1, s.declined), l))
  {
    var s1 := Next(s, NoteFailure(id));
    AwaitRuns(s1, id, allowUac, prompts, l);
    First(s, NoteFailure(id), Await(id, allowUac, s.declined, l));
    hide IsRun, Final, Await, AwaitEnd;
  }

  function FallbackEnd(allowUac: bool, e: End, l: Luck): End {
    if !allowUac || e.declined then e
    else if l.consent == Accepted then AwaitEnd(allowUac, End(e.prompts + 1, e.streak + 1, e.declined), l)
    else End(e.prompts + 1, e.streak, l.consent == Declined)
  }

  lemma FallbackRuns(s: State, id: CallId, allowUac: bool, prompts: nat, l: Luck)
    requires At(s, id, Call(allowUac, if allowUac then Asking(1) else Returned, true, prompts))
    ensures IsRun(s, Fallback(id, allowUac, s.declined, l))
    ensures Final(s, Fallback(id, allowUac, s.declined, l))
            == Done(s, id, allowUac, FallbackEnd(allowUac, End(prompts, s.streak, s.declined), l))
  {
    if !allowUac {
      Nothing(s);
      DoneHere(s, id, allowUac, prompts);
      hide IsRun, Final;
    } else {
      AskRuns(s, id, Call(allowUac, Asking(1), true, prompts), l.consent);
      var s1 := Final(s, Ask(id, s.declined, l.consent));
      if !s.declined && l.consent == Accepted {
        NotedRuns(s1, id, allowUac, prompts + 1, l);
        Then(s, Ask(id, s.declined, l.consent), Noted(id, allowUac, s.declined, l));
      } else {
        Nothing(s1);
        Then(s, Ask(id, s.declined, l.consent), []);
      }
      hide IsRun, Final, Ask, Noted, AwaitEnd;
    }
  }

  function RepairEnd(allowUac: bool, e: End, l: Luck): End {
    match l.healed
    case HealTimedOut => e
    case NotHealed => FallbackEnd(allowUac, e, l)
    case _ => if l.restarted then AwaitEnd(allowUac, End(e.prompts, e.streak + 1, e.declined), l)
              else FallbackEnd(allowUac, e, l)
  }

  lemma RepairIs(id: CallId, allowUac: bool, declined: bool, l: Luck)
    ensures l.healed != HealTimedOut && l.healed != NotHealed
            ==> Repair(id, allowUac, declined, l) == [Heal(id, l.healed)] + AfterRetry(id, allowUac, declined, l)
  {
  }

  lemma RepairRuns(s: State, id: CallId, allowUac: bool, prompts: nat, l: Luck)
    requires At(s, id, Call(allowUac, Healing, true, prompts))
    ensures IsRun(s, Repair(id, allowUac, s.declined, l))
    ensures Final(s, Repair(id, allowUac, s.declined, l))
            == Done(s, id, allowUac, RepairEnd(allowUac, End(prompts, s.streak, s.declined), l))
  {
    var s1 := TaskHealed(s, id, l.healed);
    hide IsRun, Final, Next, Enabled, Fallback, AfterRetry, AwaitEnd, FallbackEnd, Done;
    DoneFrom(s, Heal(id, l.healed), s1, id, s1.calls[id].phase, allowUac,
             RepairEnd(allowUac, End(prompts, s.streak, s.declined), l));
    match l.healed
    case HealTimedOut =>
      Nothing(s1);
      DoneHere(s1, id, allowUac, prompts);
      First(s, Heal(id, l.healed), []);
    case NotHealed =>
      FallbackRuns(s1, id, allowUac, prompts, l);
      First(s, Heal(id, l.healed), Fallback(id, allowUac, s.declined, l));
    case _ =>
      RetryRuns(s1, id, allowUac, prompts, l);
      First(s, Heal(id, l.healed), AfterRetry(id, allowUac, s.declined, l));
      RepairIs(id, allowUac, s.declined, l);
  }

  function AfterRetry(id: CallId, allowUac: bool, declined: bool, l: Luck): seq<Action> {
    [Retry(id, l.restarted)]
    + if l.restarted then Noted(id, allowUac, declined, l) else Fallback(id, allowUac, declined, l)
  }

  lemma RetryRuns(s: State, id: CallId, allowUac: bool, prompts: nat, l: Luck)
    requires At(s, id, Call(allowUac, Retrying, true, prompts))
    ensures IsRun(s, AfterRetry(id, allowUac, s.declined, l))
    ensures Final(s, AfterRetry(id, allowUac, s.declined, l))
            == Done(s, id, allowUac,
                    if l.restarted then AwaitEnd(allowUac, End(prompts, s.streak + 1, s.declined), l)
                    else FallbackEnd(allowUac, End(prompts, s.streak, s.declined), l))
  {
    var s1 := TaskRestarted(s, id, l.restarted);
    hide IsRun, Final, Next, Enabled, Noted, Fallback, FallbackEnd, AwaitEnd, Done;
    if l.restarted {
      NotedRuns(s1, id, allowUac, prompts, l);
      First(s, Retry(id, l.restarted), Noted(id, allowUac, s.declined, l));
      DoneFrom(s, Retry(id, l.restarted), s1, id, Noting, allowUac,
               AwaitEnd(allowUac, End(prompts, s.streak + 1, s.declined), l));
    } else {
      FallbackRuns(s1, id, allowUac, prompts, l);
      First(s, Retry(id, l.restarted), Fallback(id, allowUac, s.declined, l));
      DoneFrom(s, Retry(id, l.restarted), s1, id, s1.calls[id].phase, allowUac,
               FallbackEnd(allowUac, End(prompts, s.streak, s.declined), l));
    }
  }

  function LaunchEnd(allowUac: bool, e: End, l: Luck): End {
    if l.started then AwaitEnd(allowUac, e, l) else RepairEnd(allowUac, e, l)
  }

  lemma LaunchRuns(s: State, id: CallId, allowUac: bool, l: Luck)
    requires At(s, id, Call(allowUac, Launching, true, 0))
    ensures IsRun(s, Launch(id, allowUac, s.declined, l))
    ensures Final(s, Launch(id, allowUac, s.declined, l))
            == Unlocked(Done(s, id, allowUac, LaunchEnd(allowUac, End(0, s.streak, s.declined), l)))
  {
    var s1 := TaskStarted(s, id, l.started);
    hide IsRun, Final, Next, Enabled, Await, Repair, AwaitEnd, RepairEnd, Done, Unlocked;
    DoneFrom(s, RunTask(id, l.started), s1, id, s1.calls[id].phase, allowUac,
             LaunchEnd(allowUac, End(0, s.streak, s.declined), l));
    if l.started {
      AwaitRuns(s1, id, allowUac, 0, l);
      First(s, RunTask(id, l.started), Await(id, allowUac, s.declined, l));
    } else {
      RepairRuns(s1, id, allowUac, 0, l);
      First(s, RunTask(id, l.started), Repair(id, allowUac, s.declined, l));
    }
  }

  function SubmitEnd(allowUac: bool, e: End, l: Luck): End {
    if l.written then LaunchEnd(allowUac, e, l) else e
  }

  lemma SubmitRuns(s: State, id: CallId, allowUac: bool, l: Luck)
    requires At(s, id, Call(allowUac, Writing, true, 0))
    ensures IsRun(s, Submit(id, allowUac, s.declined, l))
    ensures Final(s, Submit(id, allowUac, s.declined, l))
            == Unlocked(Done(s, id, allowUac, SubmitEnd(allowUac, End(0, s.streak, s.declined), l)))
  {
    var s1 := CommandWritten(s, id, l.written);
    var e := SubmitEnd(allowUac, End(0, s.streak, s.declined), l);
    hide IsRun, Final, Next, Enabled, Launch, LaunchEnd, Done, Unlocked;
    DoneFrom(s, WriteCommand(id, l.written), s1, id, s1.calls[id].phase, allowUac, e);
    if l.written {
      LaunchRuns(s1, id, allowUac, l);
      First(s, WriteCommand(id, l.written), Launch(id, allowUac, s.declined, l));
    } else {
      Nothing(s1);
      DoneHere(s1, id, allowUac, 0);
      First(s, WriteCommand(id, l.written), []);
    }
  }

  function BreakerEnd(allowUac: bool, e: End, l: Luck): End {
    if !allowUac && e.streak >= 3 then e else SubmitEnd(allowUac, e, l)
  }

  lemma BreakerRuns(s: State, id: CallId, allowUac: bool, l: Luck)
    requires At(s, id, Call(allowUac, TwicePiped, true, 0))
    ensures IsRun(s, PassBreaker(id, allowUac, s.streak, s.declined, l))
    ensures Final(s, PassBreaker(id, allowUac, s.streak, s.declined, l))
            == Unlocked(Done(s, id, allowUac, BreakerEnd(allowUac, End(0, s.streak, s.declined), l)))
  {
    var s1 := BreakerPasses(s, id);
    hide IsRun, Final, Next, Enabled, Submit, SubmitEnd, Done, Unlocked;
    DoneFrom(s, CheckBreaker(id), s1, id, s1.calls[id].phase, allowUac,
             BreakerEnd(allowUac, End(0, s.streak, s.declined), l));
    if !allowUac && s.streak >= 3 {
      Nothing(s1);
      DoneHere(s1, id, allowUac, 0);
      First(s, CheckBreaker(id), []);
    } else {
      SubmitRuns(s1, id, allowUac, l);
      First(s, CheckBreaker(id), Submit(id, allowUac, s.declined, l));
    }
  }

  lemma PipeWorks(s: State, id: CallId, c: Call)
    requires At(s, id, c) && c.awaited && (c.phase == Entered || c.phase == OncePiped)
    ensures IsRun(s, [TryPipe(id, true)])
    ensures Final(s, [TryPipe(id, true)]) == Unlocked(Done(s, id, c.allowUac, End(c.prompts, 0, s.declined)))
  {
    One(s, TryPipe(id, true));
  }

  lemma PipeAgainRuns(s: State, id: CallId, allowUac: bool, l: Luck)
    requires At(s, id, Call(allowUac, OncePiped, true, 0))
    ensures IsRun(s, PipeAgain(id, allowUac, s.streak, s.declined, l))
    ensures Final(s, PipeAgain(id, allowUac, s.streak, s.declined, l))
            == Unlocked(Done(s, id, allowUac, if l.pipeAgain then End(0, 0, s.declined)
                                              else BreakerEnd(allowUac, End(0, s.streak, s.declined), l)))
  {
    if l.pipeAgain {
      PipeWorks(s, id, s.calls[id]);
      assert [TryPipe(id, true)] + [] == [TryPipe(id, true)];
      hide IsRun, Final, Next, Enabled, Done, Unlocked;
    } else {
      var s1 := PipeFails(s, id);
      hide IsRun, Final, Next, Enabled, PassBreaker, BreakerEnd, Done, Unlocked;
      DoneFrom(s, TryPipe(id, false), s1, id, TwicePiped, allowUac,
               BreakerEnd(allowUac, End(0, s.streak, s.declined), l));
      BreakerRuns(s1, id, allowUac, l);
      First(s, TryPipe(id, false), PassBreaker(id, allowUac, s.streak, s.declined, l));
    }
  }

  /** A call that is not made by an administrator. */
  function PipeEnd(allowUac: bool, e: End, l: Luck): End {
    if l.pipe || l.pipeAgain then End(e.prompts, 0, e.declined) else BreakerEnd(allowUac, e, l)
  }

  lemma PipeRuns(s: State, id: CallId, allowUac: bool, l: Luck)
    requires At(s, id, Call(allowUac, Entered, true, 0))
    ensures var run := [TryPipe(id, l.pipe)]
                       + if l.pipe then [] else PipeAgain(id, allowUac, s.streak, s.declined, l);
            && IsRun(s, run)
            && Final(s, run) == Unlocked(Done(s, id, allowUac, PipeEnd(allowUac, End(0, s.streak, s.declined), l)))
  {
    if l.pipe {
      PipeWorks(s, id, s.calls[id]);
      assert [TryPipe(id, true)] + [] == [TryPipe(id, true)];
      hide IsRun, Final, Next, Enabled, Done, Unlocked;
    } else {
      var s1 := PipeFails(s, id);
      hide IsRun, Final, Next, Enabled, PipeAgain, BreakerEnd, Done, Unlocked;
      DoneFrom(s, TryPipe(id, false), s1, id, OncePiped, allowUac,
               PipeEnd(allowUac, End(0, s.streak, s.declined), l));
      PipeAgainRuns(s1, id, allowUac, l);
      First(s, TryPipe(id, false), PipeAgain(id, allowUac, s.streak, s.declined, l));
    }
  }

  lemma EndIs(allowUac: bool, streak: nat, declined: bool, l: Luck)
    ensures EndOf(allowUac, streak, declined, l)
            == if l.admin then End(0, streak, declined) else PipeEnd(allowUac, End(0, streak, declined), l)
  {
  }

  /** From any state in which the lock is free a new call can climb with nobody beside it: it ends returned
      and with the lock free, and prompts, streak and decline are as EndOf says. */
  lemma LoneCall(s: State, id: CallId, allowUac: bool, l: Luck)
    requires id !in s.calls && s.lock.None?
    ensures var run, e := Climb(id, allowUac, s.streak, s.declined, l), EndOf(allowUac, s.streak, s.declined, l);
            && IsRun(s, run)
            && Final(s, run)
               == State(e.declined, e.streak, None, s.calls[id := Call(allowUac, Returned, true, e.prompts)])
  {
    EndIs(allowUac, s.streak, s.declined, l);
    var s1, s2 := Enters(s, id, allowUac);
    var rest := AfterLock(id, allowUac, s.streak, s.declined, l);
    EnteredRuns(s2, id, allowUac, l);
    UnlockedDone(s, s2, id, allowUac, EndOf(allowUac, s.streak, s.declined, l));
    hide IsRun, Final, Enabled, Next, EndOf, PipeEnd, AfterLock, Done, Unlocked;
    First(s1, Acquire(id), rest);
    First(s, Arrive(id, allowUac), [Acquire(id)] + rest);
  }

  lemma Enters(s: State, id: CallId, allowUac: bool) returns (s1: State, s2: State)
    requires id !in s.calls && s.lock.None?
    ensures Enabled(s, Arrive(id, allowUac)) && s1 == Next(s, Arrive(id, allowUac))
    ensures Enabled(s1, Acquire(id)) && s2 == Next(s1, Acquire(id))
    ensures s2 == State(s.declined, s.streak, Some(id), s.calls[id := Call(allowUac, Entered, true, 0)])
  {
    s1 := Next(s, Arrive(id, allowUac));
    s2 := Next(s1, Acquire(id));
  }

  lemma UnlockedDone(s: State, s': State, id: CallId, allowUac: bool, e: End)
    requires s'.calls == s.calls[id := Call(allowUac, Entered, true, 0)]
    ensures Unlocked(Done(s', id, allowUac, e))
            == State(e.declined, e.streak, None, s.calls[id := Call(allowUac, Returned, true, e.prompts)])
  {
  }

  lemma EnteredRuns(s: State, id: CallId, allowUac: bool, l: Luck)
    requires At(s, id, Call(allowUac, Entered, true, 0))
    ensures IsRun(s, AfterLock(id, allowUac, s.streak, s.declined, l))
    ensures var e := if l.admin then End(0, s.streak, s.declined)
                     else PipeEnd(allowUac, End(0, s.streak, s.declined), l);
            Final(s, AfterLock(id, allowUac, s.streak, s.declined, l)) == Unlocked(Done(s, id, allowUac, e))
  {
    if l.admin {
      One(s, FastPath(id));
    } else {
      PipeRuns(s, id, allowUac, l);
    }
    hide IsRun, Final, PipeAgain, PipeEnd;
  }

  /** A call on its own reaches the bound of two prompts: the user accepts the first, no result comes, and
      the call asks again. */
  lemma TwoPrompts(id: CallId, consent: Consent) returns (run: seq<Action>)
    ensures IsRun(INIT, run) && id in Final(INIT, run).calls && Final(INIT, run).calls[id].prompts == 2
  {
    var l := Luck(false, false, false, true, false, NotHealed, false, Accepted, None, consent);
    run := Climb(id, true, 0, false, l);
    hide Climb, IsRun, Final;
    LoneCall(INIT, id, true, l);
  }
}
