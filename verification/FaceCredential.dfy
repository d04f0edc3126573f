/**
  The face credential: any number of attempt threads and serialization calls over one shared
  authentication state, with every lock taken for one access only.
 */
module FaceCredential {
  import opened Wrappers

  const MAX_POLLS: nat := 40

  datatype Message = AuthStart | AuthPoll

  /** What auth_poll gets: a pipe error, no JSON or no end yet, or the end of the attempt. */
  datatype Reply = Lost | Pending | Done(success: bool, user: string)

  // ----- one attempt that nothing disturbs

  /** The messages of an attempt from its k-th poll on. */
  function Polls(replies: nat -> Reply, k: nat): seq<Message>
    requires k <= MAX_POLLS
    decreases MAX_POLLS - k
  {
    if k == MAX_POLLS then []
    else [AuthPoll] + if replies(k).Pending? then Polls(replies, k + 1) else []
  }

  /** The reply that ends the polling, if one does. */
  function Ending(replies: nat -> Reply, k: nat): Reply
    requires k <= MAX_POLLS
    decreases MAX_POLLS - k
  {
    if k == MAX_POLLS then Lost else if replies(k).Pending? then Ending(replies, k + 1) else replies(k)
  }

  /** Undisturbed polling goes on while the attempt is pending and there are polls left, and ends with the
      first other reply; the forty-first is never waited for. */
  lemma {:induction false} PollsUntil(replies: nat -> Reply, k: nat, j: nat)
    requires k <= j <= 40 && (forall i :: k <= i < j ==> replies(i).Pending?) && (j < 40 ==> !replies(j).Pending?)
    ensures |Polls(replies, k)| == j - k + (if j < 40 then 1 else 0)
    ensures forall i :: 0 <= i < |Polls(replies, k)| ==> Polls(replies, k)[i] == AuthPoll
    ensures Ending(replies, k) == if j < 40 then replies(j) else Lost
    decreases j - k
  {
    if k < j { PollsUntil(replies, k + 1, j); }
  }

  class AuthState {
    var started: bool
    var success: bool
    var user: string
    var sent: seq<Message>

    constructor ()
      ensures !started && !success && user == "" && sent == []
    {
      started, success, user, sent := false, false, "", [];
    }

    /** run_auth_thread */
    method RunAuthThread(startOk: bool, replies: nat -> Reply)
      modifies this
      ensures started
      ensures sent == old(sent) + if old(started) then []
                                  else if startOk then [AuthStart] + Polls(replies, 0)
                                  else [AuthStart]
      ensures if !old(started) && startOk && Ending(replies, 0).Done?
              then success == Ending(replies, 0).success && user == Ending(replies, 0).user
              else success == old(success) && user == old(user)
    {
      hide Polls, Ending;
      NoPolls(replies);
      if started {
        return;
      }
      started := true;
      sent := sent + [AuthStart];
      if !startOk {
        return;
      }
      ghost var total := sent + Polls(replies, 0);
      assert total == old(sent) + ([AuthStart] + Polls(replies, 0));
      var i := 0;
      while i < MAX_POLLS
        invariant 0 <= i <= MAX_POLLS && started && success == old(success) && user == old(user)
        invariant sent + Polls(replies, i) == total && Ending(replies, i) == Ending(replies, 0)
      {
        OnePoll(sent, replies, i);
        sent := sent + [AuthPoll];
        match replies(i) {
          case Lost => return;
          case Pending =>
          case Done(ok, name) =>
            success := ok;
            user := name;
            return;
        }
        i := i + 1;
      }
    }
  }

  lemma NoPolls(replies: nat -> Reply)
    ensures Polls(replies, MAX_POLLS) == [] && Ending(replies, MAX_POLLS) == Lost
  {
  }

  lemma OnePoll(sent: seq<Message>, replies: nat -> Reply, k: nat)
    requires k < MAX_POLLS
    ensures sent + Polls(replies, k)
            == if replies(k).Pending? then (sent + [AuthPoll]) + Polls(replies, k + 1) else sent + [AuthPoll]
    ensures Ending(replies, k) == if replies(k).Pending? then Ending(replies, k + 1) else replies(k)
  {
    assert sent + ([AuthPoll] + []) == sent + [AuthPoll];
    if replies(k).Pending? {
      assert sent + ([AuthPoll] + Polls(replies, k + 1)) == (sent + [AuthPoll]) + Polls(replies, k + 1);
    }
  }

  // ----- threads and calls interleaved

  datatype Thread = Spawned | Starting | Polling(k: nat) | Replied(reply: Reply) | Finished

  datatype Serialization = Entered | SawSuccess | HasUser(user: string) | Returned

  /** The shared state, the threads and calls by number, and the history: the thread that claimed the
      attempt, the messages sent, the replies that ended it, and the users submitted. */
  datatype State = State(started: bool, success: bool, user: string,
                         threads: map<nat, Thread>, calls: map<nat, Serialization>,
                         owner: Option<nat>, sent: seq<Message>, ended: seq<Reply>, submitted: seq<string>)

  const INIT: State := State(false, false, "", map[], map[], None, [], [], [])

  datatype Action =
    | Select(t: nat)
    | Claim(t: nat)
    | Begin(t: nat, sentOk: bool)
    | Poll(t: nat, reply: Reply)
    | TimeOut(t: nat)
    | Store(t: nat)
    | Call(g: nat)
    | CheckSuccess(g: nat)
    | ReadUser(g: nat)
    | Submit(g: nat, hasPassword: bool)

  predicate Enabled(s: State, a: Action) {
    match a
    case Select(t) => t !in s.threads
    case Claim(t) => t in s.threads && s.threads[t].Spawned?
    case Begin(t, _) => t in s.threads && s.threads[t].Starting?
    case Poll(t, _) => t in s.threads && s.threads[t].Polling? && s.threads[t].k < MAX_POLLS
    case TimeOut(t) => t in s.threads && s.threads[t].Polling? && s.threads[t].k >= MAX_POLLS
    case Store(t) => t in s.threads && s.threads[t].Replied?
    case Call(g) => g !in s.calls
    case CheckSuccess(g) => g in s.calls && s.calls[g].Entered?
    case ReadUser(g) => g in s.calls && s.calls[g].SawSuccess?
    case Submit(g, _) => g in s.calls && s.calls[g].HasUser?
  }

  function Next(s: State, a: Action): State
    requires Enabled(s, a)
  {
    match a
    case Select(t) => s.(threads := s.threads[t := Spawned])
    case Claim(t) =>
      if s.started then s.(threads := s.threads[t := Finished])
      else s.(started := true, owner := Some(t), threads := s.threads[t := Starting])
    case Begin(t, sentOk) =>
      s.(sent := s.sent + [AuthStart], threads := s.threads[t := if sentOk then Polling(0) else Finished])
    case Poll(t, reply) =>
      s.(sent := s.sent + [AuthPoll],
         ended := if reply.Done? then s.ended + [reply] else s.ended,
         threads := s.threads[t := match reply
                                   case Lost => Finished
                                   case Pending => Polling(s.threads[t].k + 1)
                                   case Done(_, _) => Replied(reply)])
    case TimeOut(t) => s.(threads := s.threads[t := Finished])
    case Store(t) =>
      var r := s.threads[t].reply;
      if r.Done? then s.(success := r.success, user := r.user, threads := s.threads[t := Finished])
      else s.(threads := s.threads[t := Finished])
    case Call(g) => s.(calls := s.calls[g := Entered])
    case CheckSuccess(g) => s.(calls := s.calls[g := if s.success then SawSuccess else Returned])
    case ReadUser(g) => s.(calls := s.calls[g := HasUser(s.user)])
    case Submit(g, hasPassword) =>
      s.(calls := s.calls[g := Returned],
         submitted := if hasPassword then s.submitted + [s.calls[g].user] else s.submitted)
  }

  predicate IsRun(s: State, run: seq<Action>)
    decreases |run|
  {
    run == [] || (Enabled(s, run[0]) && IsRun(Next(s, run[0]), run[1..]))
  }

  function Final(s: State, run: seq<Action>): State
    requires IsRun(s, run)
    decreases |run|
  {
    if run == [] then s else Final(Next(s, run[0]), run[1..])
  }

  // ----- the invariant

  predicate Idle(th: Thread) { th.Spawned? || th.Finished? }

  /** Only the owner is past its claim. */
  predicate OwnerOnly(threads: map<nat, Thread>, owner: Option<nat>) {
    forall t :: t in threads && !Idle(threads[t]) ==> owner == Some(t)
  }

  /** The messages of one attempt after k polls. */
  function Attempt(k: nat): seq<Message> {
    if k == 0 then [AuthStart] else Attempt(k - 1) + [AuthPoll]
  }

  predicate AtMostOneAttempt(sent: seq<Message>) {
    sent == [] || (|sent| <= MAX_POLLS + 1 && sent == Attempt(|sent| - 1))
  }

  /** Where the attempt stands, by the thread that made it. */
  predicate OwnerOk(s: State) {
    match s.owner
    case None => !s.started && s.sent == [] && s.ended == [] && !s.success
    case Some(t) =>
      && s.started && t in s.threads && AtMostOneAttempt(s.sent)
      && match s.threads[t]
         case Spawned => false
         case Starting => s.sent == [] && s.ended == [] && !s.success
         case Polling(k) => |s.sent| == k + 1 && k <= MAX_POLLS && s.ended == [] && !s.success
         case Replied(r) => s.ended == [r] && r.Done? && !s.success && s.sent != []
         case Finished => (s.success ==> s.ended == [Done(true, s.user)]) && |s.ended| <= 1 && s.sent != []
  }

  predicate CallOk(success: bool, user: string, c: Serialization) {
    && (c.SawSuccess? ==> success)
    && (c.HasUser? ==> success && c.user == user)
  }

  predicate CallsOk(s: State) { forall g :: g in s.calls ==> CallOk(s.success, s.user, s.calls[g]) }

  predicate SubmittedOk(success: bool, user: string, submitted: seq<string>) {
    forall i :: 0 <= i < |submitted| ==> success && submitted[i] == user
  }

  predicate Inv(s: State) {
    OwnerOnly(s.threads, s.owner) && OwnerOk(s) && CallsOk(s) && SubmittedOk(s.success, s.user, s.submitted)
  }

  lemma AttemptLength(k: nat)
    ensures |Attempt(k)| == k + 1 && Attempt(k + 1) == Attempt(k) + [AuthPoll] && Attempt(0) == [AuthStart]
  {
    if k > 0 { AttemptLength(k - 1); }
  }

  lemma ThreadStepKeepsOwner(s: State, a: Action)
    requires Inv(s) && Enabled(s, a) && (a.Select? || a.Claim? || a.Begin? || a.Poll? || a.TimeOut? || a.Store?)
    ensures OwnerOnly(Next(s, a).threads, Next(s, a).owner) && OwnerOk(Next(s, a))
  {
    hide CallsOk, SubmittedOk, Attempt;
    AttemptLength(0);
    if a.Poll? {
      AttemptLength(s.threads[a.t].k);
      assert !Idle(s.threads[a.t]);
    }
    assert !a.Select? && !a.Claim? ==> s.owner == Some(a.t) by {
      assert !a.Select? && !a.Claim? ==> !Idle(s.threads[a.t]);
    }
  }

  lemma ThreadStepKeepsCalls(s: State, a: Action)
    requires Inv(s) && Enabled(s, a) && (a.Select? || a.Claim? || a.Begin? || a.Poll? || a.TimeOut? || a.Store?)
    ensures CallsOk(Next(s, a)) && SubmittedOk(Next(s, a).success, Next(s, a).user, Next(s, a).submitted)
  {
    hide AtMostOneAttempt;
    assert a.Store? ==> !Idle(s.threads[a.t]);
    assert a.Store? ==> !s.success;
    NoneSubmitted(s);
  }

  lemma NoneSubmitted(s: State)
    requires SubmittedOk(s.success, s.user, s.submitted)
    ensures !s.success ==> s.submitted == []
  {
    assert s.submitted != [] ==> s.submitted[0] == s.user;
  }

  lemma CallStepKeeps(s: State, a: Action)
    requires Inv(s) && Enabled(s, a) && (a.Call? || a.CheckSuccess? || a.ReadUser? || a.Submit?)
    ensures Inv(Next(s, a))
  {
    hide AtMostOneAttempt;
    assert a.ReadUser? || a.Submit? ==> CallOk(s.success, s.user, s.calls[a.g]);
    if a.Submit? { OneMoreSubmitted(s.success, s.user, s.submitted); }
    hide SubmittedOk;
  }

  lemma OneMoreSubmitted(success: bool, user: string, submitted: seq<string>)
    ensures SubmittedOk(success, user, submitted) && success ==> SubmittedOk(success, user, submitted + [user])
  {
  }

  lemma StepKeeps(s: State, a: Action)
    requires Inv(s) && Enabled(s, a)
    ensures Inv(Next(s, a))
  {
    if a.Call? || a.CheckSuccess? || a.ReadUser? || a.Submit? {
      CallStepKeeps(s, a);
    } else {
      ThreadStepKeepsOwner(s, a);
      ThreadStepKeepsCalls(s, a);
    }
    hide OwnerOnly, OwnerOk, CallsOk, SubmittedOk, Next;
  }

  lemma {:induction false} RunKeeps(s: State, run: seq<Action>)
    requires Inv(s) && IsRun(s, run)
    ensures Inv(Final(s, run))
    decreases |run|
  {
    hide Inv, Enabled, Next;
    if run != [] {
      StepKeeps(s, run[0]);
      RunKeeps(Next(s, run[0]), run[1..]);
    }
  }

  // ----- over every interleaving

  /** In a credential's life one attempt is made: at most one auth_start, and after it at most forty
      auth_poll. */
  lemma OneAttempt(run: seq<Action>)
    requires IsRun(INIT, run)
    ensures AtMostOneAttempt(Final(INIT, run).sent)
    ensures var sent := Final(INIT, run).sent;
            |sent| <= 41 && forall i :: 0 <= i < |sent| ==> sent[i] == if i == 0 then AuthStart else AuthPoll
  {
    RunKeeps(INIT, run);
    AttemptIs(Final(INIT, run).sent);
    hide IsRun, Final, AtMostOneAttempt;
    var s := Final(INIT, run);
    assert s.sent == [] ==> AtMostOneAttempt(s.sent) by { NothingSent(); }
  }

  lemma AttemptIs(sent: seq<Message>)
    requires AtMostOneAttempt(sent) || sent == []
    ensures |sent| <= 41 && forall i :: 0 <= i < |sent| ==> sent[i] == if i == 0 then AuthStart else AuthPoll
  {
    if sent != [] { AttemptAt(|sent| - 1); }
    hide Attempt;
  }

  lemma {:induction false} AttemptAt(k: nat)
    ensures |Attempt(k)| == k + 1
    ensures forall i :: 0 <= i < |Attempt(k)| ==> Attempt(k)[i] == if i == 0 then AuthStart else AuthPoll
  {
    if k > 0 { AttemptAt(k - 1); }
  }

  lemma NothingSent()
    ensures AtMostOneAttempt([])
  {
  }

  /** A user is submitted only if the one reply that ended the attempt was a success and named that
      user, although success and user are read under two separate locks. */
  lemma SubmittedUserWasRecognised(run: seq<Action>, i: nat)
    requires IsRun(INIT, run) && i < |Final(INIT, run).submitted|
    ensures Final(INIT, run).ended == [Done(true, Final(INIT, run).submitted[i])]
  {
    RunKeeps(INIT, run);
    hide IsRun, Final, AtMostOneAttempt;
  }

  /** The attempt is over without success. */
  predicate GivenUp(s: State) {
    s.owner.Some? && s.owner.value in s.threads && s.threads[s.owner.value].Finished? && !s.success
  }

  lemma StepKeepsGivenUp(s: State, a: Action)
    requires Inv(s) && GivenUp(s) && Enabled(s, a)
    ensures GivenUp(Next(s, a)) && Next(s, a).sent == s.sent && Next(s, a).submitted == []
  {
    hide AtMostOneAttempt;
    assert (a.Begin? || a.Poll? || a.TimeOut? || a.Store?) ==> !Idle(s.threads[a.t]);
    assert a.Submit? ==> CallOk(s.success, s.user, s.calls[a.g]);
    NoneSubmitted(s);
  }

  /** A failed attempt is never repeated: whatever is selected or clicked afterwards, nothing more is
      sent and no user is ever submitted. */
  lemma {:induction false} NoSecondAttempt(s: State, run: seq<Action>)
    requires Inv(s) && GivenUp(s) && IsRun(s, run)
    ensures Final(s, run).sent == s.sent && Final(s, run).submitted == []
    decreases |run|
  {
    NoneSubmitted(s);
    if run != [] {
      StepKeeps(s, run[0]);
      StepKeepsGivenUp(s, run[0]);
      hide Inv, GivenUp, Enabled, Next;
      NoSecondAttempt(Next(s, run[0]), run[1..]);
    }
  }

  // ----- a recognised user

  lemma {:induction false} LastStep(s: State, run: seq<Action>, a: Action)
    requires IsRun(s, run) && Enabled(Final(s, run), a)
    ensures IsRun(s, run + [a]) && Final(s, run + [a]) == Next(Final(s, run), a)
    decreases |run|
  {
    hide Enabled, Next;
    if run == [] {
      assert [a][1..] == [] && run + [a] == [a];
      assert IsRun(Next(s, a), []);
    } else {
      LastStep(Next(s, run[0]), run[1..], a);
      assert (run + [a])[1..] == run[1..] + [a];
    }
  }

  /** The first thread's attempt after k polls without an end. */
  function Waiting(k: nat): State {
    State(true, false, "", map[0 := Polling(k)], map[], Some(0), Attempt(k), [], [])
  }

  lemma {:induction false} StillPending(k: nat) returns (run: seq<Action>)
    requires k <= 40
    ensures IsRun(INIT, run) && Final(INIT, run) == Waiting(k)
  {
    if k == 0 {
      var none: seq<Action> := [];
      assert IsRun(INIT, none) && Final(INIT, none) == INIT;
      hide IsRun, Final;
      LastStep(INIT, none, Select(0));
      LastStep(INIT, none + [Select(0)], Claim(0));
      LastStep(INIT, none + [Select(0)] + [Claim(0)], Begin(0, true));
      run := none + [Select(0)] + [Claim(0)] + [Begin(0, true)];
      assert [] + [AuthStart] == Attempt(0);
    } else {
      run := StillPending(k - 1);
      hide IsRun, Final;
      LastStep(INIT, run, Poll(0, Pending));
      run := run + [Poll(0, Pending)];
    }
  }

  /** A user who is recognised at any of the forty polls is submitted, if a password is found. */
  lemma RecognisedUserIsSubmitted(user: string, k: nat) returns (run: seq<Action>)
    requires k < 40
    ensures IsRun(INIT, run) && Final(INIT, run).submitted == [user]
    ensures Final(INIT, run).ended == [Done(true, user)] && |Final(INIT, run).sent| == k + 2
  {
    run := StillPending(k);
    AttemptAt(k);
    hide IsRun, Final, Attempt;
    var r := Done(true, user);
    LastStep(INIT, run, Poll(0, r));
    var run1 := run + [Poll(0, r)];
    LastStep(INIT, run1, Store(0));
    run := StoredIsSubmitted(run1 + [Store(0)], user);
  }

  /** Once the success is stored, a call of GetSerialization submits the user. */
  lemma StoredIsSubmitted(run: seq<Action>, user: string) returns (run': seq<Action>)
    requires IsRun(INIT, run)
    requires var s := Final(INIT, run); s.success && s.user == user && 0 !in s.calls && s.submitted == []
    ensures IsRun(INIT, run') && Final(INIT, run').submitted == [user]
    ensures Final(INIT, run').ended == Final(INIT, run).ended && Final(INIT, run').sent == Final(INIT, run).sent
  {
    hide IsRun, Final;
    LastStep(INIT, run, Call(0));
    var run1 := run + [Call(0)];
    LastStep(INIT, run1, CheckSuccess(0));
    var run2 := run1 + [CheckSuccess(0)];
    LastStep(INIT, run2, ReadUser(0));
    var run3 := run2 + [ReadUser(0)];
    LastStep(INIT, run3, Submit(0, true));
    run' := run3 + [Submit(0, true)];
  }

  // ----- the thread's steps are the method

  lemma {:induction false} RunsOn(s: State, run: seq<Action>, more: seq<Action>)
    requires IsRun(s, run) && IsRun(Final(s, run), more)
    ensures IsRun(s, run + more) && Final(s, run + more) == Final(Final(s, run), more)
    decreases |run|
  {
    hide Enabled, Next;
    if run == [] {
      assert run + more == more;
    } else {
      RunsOn(Next(s, run[0]), run[1..], more);
      assert (run + more)[1..] == run[1..] + more;
    }
  }

  lemma NoSteps(s: State)
    ensures IsRun(s, []) && Final(s, []) == s
  {
  }

  /** The state after thread t sent the messages more and finished with this success and user. */
  predicate ThreadDone(s: State, t: nat, s': State, more: seq<Message>, success: bool, user: string) {
    && s'.started && t in s'.threads && s'.threads[t] == Finished && s'.sent == s.sent + more
    && s'.success == success && s'.user == user && s'.calls == s.calls && s'.submitted == s.submitted
  }

  lemma {:induction false} PollingRuns(s: State, t: nat, replies: nat -> Reply, k: nat) returns (run: seq<Action>)
    requires k <= 40 && s.started && t in s.threads && s.threads[t] == Polling(k)
    ensures IsRun(s, run)
    ensures var e := Ending(replies, k);
            ThreadDone(s, t, Final(s, run), Polls(replies, k), if e.Done? then e.success else s.success,
                       if e.Done? then e.user else s.user)
    decreases 40 - k
  {
    NoSteps(s);
    hide IsRun, Final;
    if k == 40 {
      LastStep(s, [], TimeOut(t));
      run := [] + [TimeOut(t)];
    } else {
      LastStep(s, [], Poll(t, replies(k)));
      run := [] + [Poll(t, replies(k))];
      if replies(k).Pending? {
        var s1 := Final(s, run);
        var rest := PollingRuns(s1, t, replies, k + 1);
        RunsOn(s, run, rest);
        run := run + rest;
        Associate(s.sent, [AuthPoll], Polls(replies, k + 1));
      } else if replies(k).Done? {
        LastStep(s, run, Store(t));
        run := run + [Store(t)];
      }
    }
  }

  lemma Associate(a: seq<Message>, b: seq<Message>, c: seq<Message>)
    ensures a + (b + c) == a + b + c
  {
  }

  /** A thread that nothing disturbs, from its claim on, sends and stores what the method does. */
  lemma ThreadIsMethod(s: State, t: nat, startOk: bool, replies: nat -> Reply) returns (run: seq<Action>)
    requires t in s.threads && s.threads[t] == Spawned
    ensures IsRun(s, run)
    ensures var e := Ending(replies, 0);
            var stores := !s.started && startOk && e.Done?;
            ThreadDone(s, t, Final(s, run),
                       if s.started then [] else if startOk then [AuthStart] + Polls(replies, 0) else [AuthStart],
                       if stores then e.success else s.success, if stores then e.user else s.user)
  {
    NoSteps(s);
    hide IsRun, Final, Polls, Ending;
    LastStep(s, [], Claim(t));
    run := [] + [Claim(t)];
    if !s.started {
      LastStep(s, run, Begin(t, startOk));
      run := run + [Begin(t, startOk)];
      if startOk {
        var s1 := Final(s, run);
        var rest := PollingRuns(s1, t, replies, 0);
        RunsOn(s, run, rest);
        run := run + rest;
        Associate(s.sent, [AuthStart], Polls(replies, 0));
      }
    }
  }

  /** The submissions of a run. */
  function Submissions(run: seq<Action>): nat {
    if run == [] then 0 else (if run[0].Submit? && run[0].hasPassword then 1 else 0) + Submissions(run[1..])
  }

  /** Nothing is submitted but by a call that found a password, and such a call submits once. */
  lemma {:induction false} SubmittedByPassword(s: State, run: seq<Action>)
    requires IsRun(s, run)
    ensures |Final(s, run).submitted| == |s.submitted| + Submissions(run)
    decreases |run|
  {
    if run != [] { SubmittedByPassword(Next(s, run[0]), run[1..]); }
  }
}
