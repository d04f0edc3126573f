/**
  Which reply files a call can find half-written, and when the rewritten command of a call
  that timed out can still be accepted.
 */
module ProtocolFiles {
  import opened Wrappers
  import opened Nonces
  import opened Commands
  import opened ElevProtocol

  // ----- torn replies

  /** The request a helper is working on. */
  function Working(w: Work): Option<RequestId> {
    if w.Idle? || w.FallingBack? then None else Some(w.id)
  }

  /** No helper takes up a request that another helper is working on. */
  predicate Exclusive(s: State, a: Action) {
    a.Take? && HelperEnabled(s, a) ==>
      forall h :: h in s.helpers && h != a.h ==> Working(s.helpers[h].work) != Some(s.helpers[a.h].queue[0])
  }

  predicate ExclusiveRun(s: State, run: seq<Action>)
    requires IsRun(s, run)
    decreases |run|
  {
    run == [] || (Exclusive(s, run[0]) && ExclusiveRun(Next(s, run[0]), run[1..]))
  }

  ghost predicate Alone(m: map<HelperId, Helper>) {
    forall h, h' :: h in m && h' in m && h != h' && Working(m[h].work).Some?
        ==> Working(m[h].work) != Working(m[h'].work)
  }

  predicate TmpOk(tmp: map<RequestId, ReplyFile>, w: Work) {
    && (w.Writing? ==> w.id in tmp)
    && (w.Renaming? ==> w.id in tmp && tmp[w.id].WholeReply?)
  }

  ghost predicate TmpsOk(tmp: map<RequestId, ReplyFile>, m: map<HelperId, Helper>) {
    forall h :: h in m ==> TmpOk(tmp, m[h].work)
  }

  /** A torn reply comes from run()'s answer to a missing command file. */
  ghost predicate RepliesWhole(fellBack: set<RequestId>, m: map<RequestId, ReplyFile>) {
    forall id :: id in m && m[id].TornReply? ==> id in fellBack
  }

  ghost predicate HeldWhole(fellBack: set<RequestId>, m: map<RequestId, Phase>) {
    forall id :: id in m && m[id] == Holding(TornReply) ==> id in fellBack
  }

  ghost predicate FilesInv(s: State) {
    && Alone(s.helpers) && TmpsOk(s.replyTmp, s.helpers)
    && RepliesWhole(s.fellBack, s.reply) && HeldWhole(s.fellBack, s.calls)
  }

  // One entry changed.

  lemma AloneSet(m: map<HelperId, Helper>, h: HelperId, x: Helper)
    requires Alone(m)
    requires Working(x.work).Some? ==> forall h' :: h' in m && h' != h ==> Working(m[h'].work) != Working(x.work)
    ensures Alone(m[h := x])
  {
  }

  lemma AloneSame(m: map<HelperId, Helper>, h: HelperId, x: Helper)
    requires Alone(m) && h in m && (Working(x.work) == Working(m[h].work) || Working(x.work).None?)
    ensures Alone(m[h := x]) && Alone(m - {h})
  {
  }

  lemma TmpsSet(tmp: map<RequestId, ReplyFile>, m: map<HelperId, Helper>, h: HelperId, x: Helper)
    ensures TmpsOk(tmp, m) && TmpOk(tmp, x.work) ==> TmpsOk(tmp, m[h := x]) && TmpsOk(tmp, m - {h})
  {
  }

  predicate SameAt(tmp: map<RequestId, ReplyFile>, tmp': map<RequestId, ReplyFile>, id: RequestId) {
    id in tmp ==> id in tmp' && tmp'[id] == tmp[id]
  }

  ghost predicate SameExcept(tmp: map<RequestId, ReplyFile>, tmp': map<RequestId, ReplyFile>, changed: RequestId) {
    forall id :: id != changed ==> SameAt(tmp, tmp', id)
  }

  /** A helper alone on its request may change that request's temporary file. */
  lemma TmpChanged(tmp: map<RequestId, ReplyFile>, tmp': map<RequestId, ReplyFile>, m: map<HelperId, Helper>,
                   h: HelperId, x: Helper)
    requires TmpsOk(tmp, m) && Alone(m) && h in m && Working(m[h].work).Some? && TmpOk(tmp', x.work)
    requires SameExcept(tmp, tmp', m[h].work.id)
    ensures TmpsOk(tmp', m[h := x])
  {
    var m' := m[h := x];
    forall h' | h' in m' ensures TmpOk(tmp', m'[h'].work) {
      if h' != h {
        assert TmpOk(tmp, m[h'].work);
        assert Working(m[h].work) != Working(m[h'].work);
        if m[h'].work.Writing? || m[h'].work.Renaming? {
          assert SameAt(tmp, tmp', m[h'].work.id);
        }
      }
    }
  }

  lemma ReplySet(fellBack: set<RequestId>, m: map<RequestId, ReplyFile>, id: RequestId, f: ReplyFile)
    ensures RepliesWhole(fellBack, m) ==> RepliesWhole(fellBack, m - {id})
    ensures RepliesWhole(fellBack, m) && f.WholeReply? ==> RepliesWhole(fellBack, m[id := f])
    ensures RepliesWhole(fellBack, m) ==> RepliesWhole(fellBack + {id}, m[id := f])
  {
  }

  lemma CallSet(fellBack: set<RequestId>, m: map<RequestId, Phase>, id: RequestId, ph: Phase)
    ensures HeldWhole(fellBack, m) && (ph == Holding(TornReply) ==> id in fellBack) ==> HeldWhole(fellBack, m[id := ph])
  {
  }

  lemma HeldGrows(fellBack: set<RequestId>, m: map<RequestId, Phase>, id: RequestId)
    ensures HeldWhole(fellBack, m) ==> HeldWhole(fellBack + {id}, m)
  {
  }

  // Every step.

  lemma ReadingKeepsWhole(s: State, a: Action)
    requires FilesInv(s) && CallEnabled(s, a) && (a.Call? || a.ReadReply? || a.Judge?)
    ensures FilesInv(CallNext(s, a))
  {
    hide Alone, TmpsOk, RepliesWhole, HeldWhole, Judged, Filed;
    match a {
      case Call(id, n, c) =>
        ReplySet(s.fellBack, s.reply, id, TornReply);
        CallSet(s.fellBack, s.calls, id, Prepared);
      case ReadReply(id) =>
        TornAt(s.fellBack, s.reply, id);
        CallSet(s.fellBack, s.calls, id, Holding(s.reply[id]));
      case Judge(id) =>
        ReplySet(s.fellBack, s.reply, id, TornReply);
        CallSet(s.fellBack, s.calls, id, Returned(Judged(id, s.calls[id].content, s.nowMs)));
    }
  }

  lemma WritingKeepsWhole(s: State, a: Action)
    requires FilesInv(s) && CallEnabled(s, a) && (a.PublishCmd? || a.TimeOut? || a.FinishRewrite? || a.GiveUp?)
    ensures FilesInv(CallNext(s, a))
  {
    hide Alone, TmpsOk, RepliesWhole, HeldWhole, Filed, TimeoutMs;
    match a {
      case PublishCmd(id) => CallSet(s.fellBack, s.calls, id, Polling(s.nowMs));
      case TimeOut(id) => CallSet(s.fellBack, s.calls, id, Rewriting);
      case FinishRewrite(id) => CallSet(s.fellBack, s.calls, id, Relaunched);
      case GiveUp(id) => CallSet(s.fellBack, s.calls, id, Returned(Err("not executed")));
    }
  }

  lemma OthersKeepWhole(s: State, a: Action)
    requires FilesInv(s) && CallEnabled(s, a) && (a.RemoveCmd? || a.RemoveReply? || a.PlantReply? || a.Misfile?)
    ensures FilesInv(CallNext(s, a))
  {
    hide Alone, TmpsOk, RepliesWhole, HeldWhole, Filed;
    match a {
      case RemoveCmd(id) =>
      case RemoveReply(id) => ReplySet(s.fellBack, s.reply, id, TornReply);
      case PlantReply(id, r) => ReplySet(s.fellBack, s.reply, id, WholeReply(r));
      case Misfile(id, from) =>
    }
  }

  lemma CallKeepsFiles(s: State, a: Action)
    requires FilesInv(s) && CallEnabled(s, a)
    ensures FilesInv(CallNext(s, a))
  {
    hide FilesInv, CallNext;
    if a.Call? || a.ReadReply? || a.Judge? {
      ReadingKeepsWhole(s, a);
    } else if a.PublishCmd? || a.TimeOut? || a.FinishRewrite? || a.GiveUp? {
      WritingKeepsWhole(s, a);
    } else {
      OthersKeepWhole(s, a);
    }
  }

  lemma TornAt(fellBack: set<RequestId>, m: map<RequestId, ReplyFile>, id: RequestId)
    ensures RepliesWhole(fellBack, m) && id in m && m[id] == TornReply ==> id in fellBack
  {
  }

  lemma WorkSetFiles(s: State, h: HelperId, w: Work)
    requires FilesInv(s) && h in s.helpers && TmpOk(s.replyTmp, w)
    requires Working(w) == Working(s.helpers[h].work) || Working(w).None?
    ensures FilesInv(SetWork(s, h, w))
  {
    hide Alone, TmpsOk, RepliesWhole, HeldWhole, TmpOk, Working;
    AloneSame(s.helpers, h, s.helpers[h].(work := w));
    TmpsSet(s.replyTmp, s.helpers, h, s.helpers[h].(work := w));
  }

  lemma WritingKeepsFiles(s: State, a: Action)
    requires FilesInv(s) && HelperEnabled(s, a) && (a.BeginReply? || a.EndReply? || a.PublishReply? || a.AbandonReply?)
    ensures FilesInv(HelperNext(s, a))
  {
    var w := s.helpers[a.h].work;
    TmpAt(s.replyTmp, s.helpers, a.h);
    hide Alone, TmpsOk, RepliesWhole, HeldWhole;
    var s' := HelperNext(s, a);
    AloneSame(s.helpers, a.h, s'.helpers[a.h]);
    TmpChanged(s.replyTmp, s'.replyTmp, s.helpers, a.h, s'.helpers[a.h]);
    if a.PublishReply? {
      ReplySet(s.fellBack, s.reply, w.id, s.replyTmp[w.id]);
    }
  }

  lemma TmpAt(tmp: map<RequestId, ReplyFile>, m: map<HelperId, Helper>, h: HelperId)
    ensures TmpsOk(tmp, m) && h in m ==> TmpOk(tmp, m[h].work)
  {
  }

  lemma FallbackKeepsFiles(s: State, a: Action)
    requires FilesInv(s) && HelperEnabled(s, a) && (a.BeginFallback? || a.EndFallback?)
    ensures FilesInv(HelperNext(s, a))
  {
    hide Alone, TmpsOk, RepliesWhole, HeldWhole;
    match a {
      case BeginFallback(h, id) =>
        WorkSetFiles(s, h, FallingBack(id));
        ReplySet(s.fellBack, s.reply, id, TornReply);
        HeldGrows(s.fellBack, s.calls, id);
      case EndFallback(h) =>
        WorkSetFiles(s, h, Idle);
        var id := s.helpers[h].work.id;
        ReplySet(s.fellBack, s.reply, id, WholeReply(Reply(id, Err("No pending command"), s.nowMs, false)));
    }
  }

  lemma TakingKeepsFiles(s: State, a: Action)
    requires FilesInv(s) && HelperEnabled(s, a) && Exclusive(s, a) && (a.Start? || a.Take?)
    ensures FilesInv(HelperNext(s, a))
  {
    hide Alone, TmpsOk, RepliesWhole, HeldWhole;
    match a {
      case Start(h, queue) =>
        AloneSet(s.helpers, h, Helper(None, queue, Idle));
        TmpsSet(s.replyTmp, s.helpers, h, Helper(None, queue, Idle));
      case Take(h) =>
        var id := s.helpers[h].queue[0];
        var x := s.helpers[h].(queue := s.helpers[h].queue[1..], work := Opening(id));
        AloneSet(s.helpers, h, x);
        TmpsSet(s.replyTmp, s.helpers, h, x);
        ReplySet(s.fellBack, s.reply, id, TornReply);
    }
  }

  lemma LeavingKeepsFiles(s: State, h: HelperId, flushed: bool)
    requires FilesInv(s) && h in s.helpers
    ensures FilesInv(ElevProtocol.Left(s, h, flushed))
  {
    TmpAt(s.replyTmp, s.helpers, h);
    hide Alone, TmpsOk, RepliesWhole, HeldWhole, Gone, StoredAfter;
    AloneSame(s.helpers, h, s.helpers[h]);
    TmpsSet(s.replyTmp, s.helpers, h, s.helpers[h]);
  }

  lemma RecordingKeepsFiles(s: State, h: HelperId, saveOk: bool)
    requires FilesInv(s) && h in s.helpers && s.helpers[h].work.Verified?
    ensures FilesInv(Recorded(s, h, saveOk))
  {
    hide Alone, TmpsOk, RepliesWhole, HeldWhole, Admit;
    var x := Recorded(s, h, saveOk).helpers[h];
    AloneSame(s.helpers, h, x);
    TmpsSet(s.replyTmp, s.helpers, h, x);
  }

  lemma ReadingKeepsFiles(s: State, a: Action)
    requires FilesInv(s) && HelperEnabled(s, a) && (a.Open? || a.Consume? || a.Verify? || a.Dispatched?)
    ensures FilesInv(HelperNext(s, a))
  {
    hide Alone, TmpsOk, RepliesWhole, HeldWhole;
    var w := s.helpers[a.h].work;
    match a {
      case Open(h) =>
        if w.id in s.cmd {
          WorkSetFiles(s, h, Opened(w.id, s.cmd[w.id]));
        } else {
          WorkSetFiles(s, h, Answering(w.id, Err("Cannot read command file")));
        }
      case Consume(h) => WorkSetFiles(s, h, Checking(w.id, w.content));
      case Verify(h, k) => WorkSetFiles(s, h, Checked(s, w, k));
      case Dispatched(h, o) => WorkSetFiles(s, h, Answering(w.id, o));
    }
  }

  lemma StepKeepsFiles(s: State, a: Action)
    requires FilesInv(s) && Enabled(s, a) && Exclusive(s, a)
    ensures FilesInv(Next(s, a))
  {
    hide Alone, TmpsOk, RepliesWhole, HeldWhole, CallNext, HelperNext, CallEnabled, HelperEnabled, Exclusive;
    if CallEnabled(s, a) {
      CallKeepsFiles(s, a);
    } else if a.Tick? {
    } else if a.BeginReply? || a.EndReply? || a.PublishReply? || a.AbandonReply? {
      WritingKeepsFiles(s, a);
    } else if a.BeginFallback? || a.EndFallback? {
      FallbackKeepsFiles(s, a);
    } else {
      HelperKeepsFiles(s, a);
    }
  }

  lemma HelperKeepsFiles(s: State, a: Action)
    requires FilesInv(s) && HelperEnabled(s, a) && Exclusive(s, a)
    requires !a.BeginReply? && !a.EndReply? && !a.PublishReply? && !a.AbandonReply? && !a.BeginFallback?
             && !a.EndFallback?
    ensures FilesInv(HelperNext(s, a))
  {
    hide FilesInv, Exclusive, Recorded, ElevProtocol.Left;
    if a.Start? || a.Take? {
      TakingKeepsFiles(s, a);
    } else if a.Exit? {
      LeavingKeepsFiles(s, a.h, a.flushed);
    } else if a.Kill? {
      LeavingKeepsFiles(s, a.h, false);
    } else if a.Record? {
      RecordingKeepsFiles(s, a.h, a.saveOk);
    } else {
      ReadingKeepsFiles(s, a);
    }
  }

  lemma {:induction false} RunKeepsFiles(s: State, run: seq<Action>)
    requires FilesInv(s) && IsRun(s, run) && ExclusiveRun(s, run)
    ensures FilesInv(Final(s, run))
    decreases |run|
  {
    hide FilesInv, Enabled, Next, Exclusive;
    if run != [] {
      StepKeepsFiles(s, run[0]);
      RunKeepsFiles(Next(s, run[0]), run[1..]);
    }
  }

  /** When no two helpers work on one request at a time, the only half-written reply a call can
      read is run()'s own answer to a missing command file. */
  lemma RepliesReadWhole(stored: Stamps, nowMs: nat, run: seq<Action>, id: RequestId)
    requires IsRun(Init(stored, nowMs), run) && ExclusiveRun(Init(stored, nowMs), run)
    requires id in Final(Init(stored, nowMs), run).calls
    requires Final(Init(stored, nowMs), run).calls[id] == Holding(TornReply)
    ensures id in Final(Init(stored, nowMs), run).fellBack
  {
    var s0 := Init(stored, nowMs);
    assert FilesInv(s0);
    RunKeepsFiles(s0, run);
  }

  /** Two helpers on one request share its temporary file: when one begins to write while the
      other is about to rename, the renamed reply is torn. */
  lemma SharedRequestTears(s: State, a: HelperId, b: HelperId, signable: bool)
    requires a != b && a in s.helpers && b in s.helpers
    requires s.helpers[a].work.Renaming? && s.helpers[b].work.Answering? && s.helpers[a].work.id == s.helpers[b].work.id
    ensures IsRun(s, [BeginReply(b, signable), PublishReply(a)])
    ensures var id, s' := s.helpers[a].work.id, Final(s, [BeginReply(b, signable), PublishReply(a)]);
            && id in s'.reply && s'.reply[id] == TornReply
            && s'.calls == s.calls && s'.signed == s.signed && s'.made == s.made && s'.fellBack == s.fellBack
  {
    var s1 := HelperNext(s, BeginReply(b, signable));
    assert s1.helpers[a] == s.helpers[a];
    TwoSteps(s, BeginReply(b, signable), PublishReply(a));
  }

  lemma TwoSteps(s: State, a1: Action, a2: Action)
    requires HelperEnabled(s, a1) && HelperEnabled(HelperNext(s, a1), a2)
    requires !a1.Tick? && !CallEnabled(s, a1) && !a2.Tick? && !CallEnabled(HelperNext(s, a1), a2)
    ensures IsRun(s, [a1, a2]) && Final(s, [a1, a2]) == HelperNext(HelperNext(s, a1), a2)
  {
    hide HelperNext, HelperEnabled, CallEnabled;
    var run := [a1, a2];
    assert run[1..] == [a2] && run[1..][1..] == [];
    var s1 := Next(s, a1);
    var s2 := Next(s1, a2);
    assert IsRun(s2, []) && Final(s2, []) == s2;
    assert IsRun(s1, run[1..]);
  }

  // ----- the rewritten command of a call that timed out

  /** A call that rewrote its command did so later than its timeout after signing it. */
  predicate PhaseTimed(nowMs: nat, p: Payload, ph: Phase) {
    && p.createdMs <= nowMs
    && (ph.Polling? ==> p.createdMs <= ph.sinceMs)
    && (ph.Rewriting? || ph.Relaunched? ==> nowMs > p.createdMs + TimeoutMs(p.command.name))
  }

  ghost predicate CallsTimed(nowMs: nat, signed: map<RequestId, Payload>, calls: map<RequestId, Phase>) {
    forall id :: id in calls ==> id in signed && PhaseTimed(nowMs, signed[id], calls[id])
  }

  ghost predicate Timed(s: State) { CallsTimed(s.nowMs, s.signed, s.calls) }

  /** One entry more or changed, more signed payloads. */
  lemma TimedPut(nowMs: nat, signed: map<RequestId, Payload>, calls: map<RequestId, Phase>, id: RequestId,
                 p: Payload, ph: Phase)
    requires CallsTimed(nowMs, signed, calls) && (id in calls ==> id in signed) && (id in signed ==> p == signed[id])
    requires PhaseTimed(nowMs, p, ph)
    ensures CallsTimed(nowMs, signed[id := p], calls[id := ph])
    ensures id in signed ==> signed[id := p] == signed
  {
  }

  lemma WritingIsTimed(s: State, a: Action)
    requires Timed(s) && CallEnabled(s, a) && (a.PublishCmd? || a.TimeOut? || a.FinishRewrite?)
    ensures Timed(CallNext(s, a))
  {
    hide TimeoutMs;
    var p := s.signed[a.id];
    assert PhaseTimed(s.nowMs, p, s.calls[a.id]);
    var ph := if a.PublishCmd? then Polling(s.nowMs) else if a.TimeOut? then Rewriting else Relaunched;
    hide CallsTimed;
    TimedPut(s.nowMs, s.signed, s.calls, a.id, p, ph);
  }

  lemma ReadingIsTimed(s: State, a: Action)
    requires Timed(s) && CallEnabled(s, a) && (a.Call? || a.ReadReply? || a.Judge? || a.GiveUp?)
    ensures Timed(CallNext(s, a))
  {
    hide TimeoutMs, Judged, Filed;
    var p := if a.Call? then Payload(s.nowMs, a.nonce, a.command) else s.signed[a.id];
    assert !a.Call? ==> PhaseTimed(s.nowMs, p, s.calls[a.id]);
    var ph := if a.Call? then Prepared
              else if a.ReadReply? then Holding(s.reply[a.id])
              else if a.Judge? then Returned(Judged(a.id, s.calls[a.id].content, s.nowMs))
              else Returned(Err("not executed"));
    assert a.Call? ==> a.id !in s.calls;
    hide CallsTimed;
    TimedPut(s.nowMs, s.signed, s.calls, a.id, p, ph);
  }

  lemma OthersAreTimed(s: State, a: Action)
    requires Timed(s) && CallEnabled(s, a) && (a.RemoveCmd? || a.RemoveReply? || a.Misfile? || a.PlantReply?)
    ensures Timed(CallNext(s, a))
  {
    hide CallsTimed, Filed;
  }

  lemma CallKeepsTimed(s: State, a: Action)
    requires Timed(s) && CallEnabled(s, a)
    ensures Timed(CallNext(s, a))
  {
    hide Timed, CallNext, CallEnabled;
    if a.PublishCmd? || a.TimeOut? || a.FinishRewrite? {
      WritingIsTimed(s, a);
    } else if a.RemoveCmd? || a.RemoveReply? || a.Misfile? || a.PlantReply? {
      OthersAreTimed(s, a);
    } else {
      CallActions(s, a);
      ReadingIsTimed(s, a);
    }
  }

  lemma CallActions(s: State, a: Action)
    requires CallEnabled(s, a)
    ensures a.Call? || a.PublishCmd? || a.ReadReply? || a.Judge? || a.TimeOut? || a.FinishRewrite? || a.GiveUp?
            || a.RemoveCmd? || a.RemoveReply? || a.Misfile? || a.PlantReply?
  {
  }

  lemma StepKeepsTimed(s: State, a: Action)
    requires Timed(s) && Enabled(s, a)
    ensures Timed(Next(s, a))
  {
    hide CallNext, HelperNext, CallEnabled, HelperEnabled, TimeoutMs;
    if a.Tick? {
      TickKeepsTimed(s, a.ms);
    } else if CallEnabled(s, a) {
      CallKeepsTimed(s, a);
    } else {
      HelperFrame(s, a);
    }
  }

  lemma TickKeepsTimed(s: State, ms: nat)
    requires Timed(s)
    ensures Timed(s.(nowMs := s.nowMs + ms))
  {
    hide TimeoutMs;
  }

  lemma {:induction false} RunKeepsTimed(s: State, run: seq<Action>)
    requires Timed(s) && IsRun(s, run)
    ensures Timed(Final(s, run))
    decreases |run|
  {
    hide Timed, Enabled, Next;
    if run != [] {
      StepKeepsTimed(s, run[0]);
      RunKeepsTimed(Next(s, run[0]), run[1..]);
    }
  }

  /** The command that a call rewrites after its timeout is already stale whenever the timeout
      is one of the two longer ones: every helper that checks it from then on rejects it. */
  lemma SlowRetryIsRejected(stored: Stamps, nowMs: nat, run: seq<Action>, id: RequestId, keyReadable: bool)
    requires IsRun(Init(stored, nowMs), run)
    requires var s := Final(Init(stored, nowMs), run);
             && id in s.calls && s.calls[id].Relaunched? && id in s.signed
             && TimeoutMs(s.signed[id].command.name) > MAX_COMMAND_AGE_MS
    ensures var s := Final(Init(stored, nowMs), run);
            Checked(s, Checking(id, WholeCmd(s.signed[id])), keyReadable).Answering?
  {
    var s0 := Init(stored, nowMs);
    RunKeepsTimed(s0, run);
    hide TimeoutMs, IsRun, Final;
  }
}
