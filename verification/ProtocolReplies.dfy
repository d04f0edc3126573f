/**
  What a call that returns Ok got: over every run, with any overlap of calls and helpers, the
  data that dispatch produced for a payload filed under the call's id; so for the call's own
  command, unless another signed payload was filed there. Anyone may plant replies, unsigned ones
  or copies of signed ones, under any id: the call's own checks keep them out.
 */
module ProtocolReplies {
  import opened Wrappers
  import opened Nonces
  import opened Commands
  import opened ElevProtocol

  // ----- the invariant

  predicate CmdOk(filed: Filing, id: RequestId, file: CmdFile) {
    file.WholeCmd? ==> id in filed && file.payload in filed[id]
  }

  /** Data that dispatch produced for a request, for the command of one of the payloads ps. */
  predicate MadeOf(ps: set<Payload>, made: set<Made>, id: RequestId, data: string) {
    exists p :: p in ps && Made(id, p.command, data) in made
  }

  /** An ok outcome for id is what dispatch produced for a payload filed under id. */
  predicate OutcomeOk(filed: Filing, made: set<Made>, id: RequestId, o: Outcome) {
    o.Ok? ==> id in filed && MadeOf(filed[id], made, id, o.value)
  }

  /** A signed reply is what a helper answered to the request that it names, wherever it lies. */
  predicate AnswerOk(filed: Filing, made: set<Made>, r: Reply) {
    r.signed ==> OutcomeOk(filed, made, r.id, r.outcome)
  }

  predicate ReplyOk(filed: Filing, made: set<Made>, file: ReplyFile) {
    file.WholeReply? ==> AnswerOk(filed, made, file.reply)
  }

  predicate WorkOk(filed: Filing, made: set<Made>, w: Work) {
    match w
    case Opened(id, c) => CmdOk(filed, id, c)
    case Checking(id, c) => CmdOk(filed, id, c)
    case Verified(id, p, at) => CmdOk(filed, id, WholeCmd(p))
    case Dispatching(id, p) => CmdOk(filed, id, WholeCmd(p))
    case Answering(id, o) => OutcomeOk(filed, made, id, o)
    case Writing(id, r) => AnswerOk(filed, made, r)
    case _ => true
  }

  predicate PhaseOk(filed: Filing, made: set<Made>, id: RequestId, ph: Phase) {
    match ph
    case Holding(c) => ReplyOk(filed, made, c)
    case Returned(answer) => OutcomeOk(filed, made, id, answer)
    case _ => true
  }

  ghost predicate CmdsOk(filed: Filing, m: map<RequestId, CmdFile>) {
    forall id :: id in m ==> CmdOk(filed, id, m[id])
  }

  ghost predicate RepliesOk(filed: Filing, made: set<Made>, m: map<RequestId, ReplyFile>) {
    forall id :: id in m ==> ReplyOk(filed, made, m[id])
  }

  ghost predicate WrittenOk(filed: Filing, made: set<Made>, written: set<Reply>) {
    forall r :: r in written ==> AnswerOk(filed, made, r)
  }

  ghost predicate HelpersOk(filed: Filing, made: set<Made>, m: map<HelperId, Helper>) {
    forall h :: h in m ==> WorkOk(filed, made, m[h].work)
  }

  ghost predicate CallsOk(filed: Filing, made: set<Made>, m: map<RequestId, Phase>) {
    forall id :: id in m ==> PhaseOk(filed, made, id, m[id])
  }

  ghost predicate SignedFiled(signed: map<RequestId, Payload>, filed: Filing) {
    forall id :: id in signed ==> id in filed && signed[id] in filed[id]
  }

  ghost predicate Inv(s: State) {
    && SignedFiled(s.signed, s.filed)
    && CmdsOk(s.filed, s.cmd)
    && RepliesOk(s.filed, s.made, s.reply)
    && RepliesOk(s.filed, s.made, s.replyTmp)
    && WrittenOk(s.filed, s.made, s.written)
    && HelpersOk(s.filed, s.made, s.helpers)
    && CallsOk(s.filed, s.made, s.calls)
  }

  // ----- one entry more, one entry less, more history

  lemma CmdsPut(filed: Filing, m: map<RequestId, CmdFile>, id: RequestId, f: CmdFile)
    ensures CmdsOk(filed, m) && CmdOk(filed, id, f) ==> CmdsOk(filed, m[id := f])
    ensures CmdsOk(filed, m) ==> CmdsOk(filed, m - {id})
  {
  }

  lemma RepliesPut(filed: Filing, made: set<Made>, m: map<RequestId, ReplyFile>, id: RequestId, f: ReplyFile)
    ensures RepliesOk(filed, made, m) && ReplyOk(filed, made, f) ==> RepliesOk(filed, made, m[id := f])
    ensures RepliesOk(filed, made, m) ==> RepliesOk(filed, made, m - {id})
  {
  }

  lemma HelpersPut(filed: Filing, made: set<Made>, m: map<HelperId, Helper>, h: HelperId, x: Helper)
    ensures HelpersOk(filed, made, m) && WorkOk(filed, made, x.work) ==> HelpersOk(filed, made, m[h := x])
    ensures HelpersOk(filed, made, m) ==> HelpersOk(filed, made, m - {h})
  {
  }

  lemma CallsPut(filed: Filing, made: set<Made>, m: map<RequestId, Phase>, id: RequestId, x: Phase)
    ensures CallsOk(filed, made, m) && PhaseOk(filed, made, id, x) ==> CallsOk(filed, made, m[id := x])
  {
  }

  /** Signed payloads never change and executed commands are never forgotten. */
  ghost predicate Grows(filed: Filing, made: set<Made>, filed': Filing, made': set<Made>) {
    (forall id :: id in filed ==> id in filed' && filed[id] <= filed'[id]) && made <= made'
  }

  lemma WorkGrows(filed: Filing, made: set<Made>, filed': Filing, made': set<Made>, w: Work)
    ensures WorkOk(filed, made, w) && Grows(filed, made, filed', made') ==> WorkOk(filed', made', w)
  {
  }

  lemma ReplyGrows(filed: Filing, made: set<Made>, filed': Filing, made': set<Made>,
                   f: ReplyFile)
    ensures ReplyOk(filed, made, f) && Grows(filed, made, filed', made') ==> ReplyOk(filed', made', f)
  {
  }

  lemma PhaseGrows(filed: Filing, made: set<Made>, filed': Filing, made': set<Made>,
                   id: RequestId, ph: Phase)
    ensures PhaseOk(filed, made, id, ph) && Grows(filed, made, filed', made') ==> PhaseOk(filed', made', id, ph)
  {
  }

  lemma CmdGrows(filed: Filing, filed': Filing, m: map<RequestId, CmdFile>)
    ensures CmdsOk(filed, m) && Grows(filed, {}, filed', {}) ==> CmdsOk(filed', m)
  {
  }

  lemma RepliesGrow(filed: Filing, made: set<Made>, filed': Filing, made': set<Made>,
                    m: map<RequestId, ReplyFile>)
    requires RepliesOk(filed, made, m) && Grows(filed, made, filed', made')
    ensures RepliesOk(filed', made', m)
  {
    hide ReplyOk, Grows;
    forall id | id in m ensures ReplyOk(filed', made', m[id]) {
      ReplyGrows(filed, made, filed', made', m[id]);
    }
  }

  lemma WrittenGrows(filed: Filing, made: set<Made>, filed': Filing, made': set<Made>,
                     written: set<Reply>)
    requires WrittenOk(filed, made, written) && Grows(filed, made, filed', made')
    ensures WrittenOk(filed', made', written)
  {
    hide AnswerOk, Grows;
    forall r | r in written ensures AnswerOk(filed', made', r) {
      ReplyGrows(filed, made, filed', made', WholeReply(r));
    }
  }

  lemma HelpersGrow(filed: Filing, made: set<Made>, filed': Filing, made': set<Made>,
                    m: map<HelperId, Helper>)
    requires HelpersOk(filed, made, m) && Grows(filed, made, filed', made')
    ensures HelpersOk(filed', made', m)
  {
    hide WorkOk, Grows;
    forall h | h in m ensures WorkOk(filed', made', m[h].work) {
      WorkGrows(filed, made, filed', made', m[h].work);
    }
  }

  lemma CallsGrow(filed: Filing, made: set<Made>, filed': Filing, made': set<Made>,
                  m: map<RequestId, Phase>)
    requires CallsOk(filed, made, m) && Grows(filed, made, filed', made')
    ensures CallsOk(filed', made', m)
  {
    hide PhaseOk, Grows;
    forall id | id in m ensures PhaseOk(filed', made', id, m[id]) {
      PhaseGrows(filed, made, filed', made', id, m[id]);
    }
  }

  lemma InvGrows(s: State, filed': Filing, made': set<Made>)
    requires Inv(s) && Grows(s.filed, s.made, filed', made') && SignedFiled(s.signed, filed')
    ensures Inv(s.(filed := filed', made := made'))
  {
    assert Grows(s.filed, {}, filed', {});
    hide SignedFiled, CmdsOk, RepliesOk, WrittenOk, HelpersOk, CallsOk, Grows;
    CmdGrows(s.filed, filed', s.cmd);
    RepliesGrow(s.filed, s.made, filed', made', s.reply);
    RepliesGrow(s.filed, s.made, filed', made', s.replyTmp);
    WrittenGrows(s.filed, s.made, filed', made', s.written);
    HelpersGrow(s.filed, s.made, filed', made', s.helpers);
    CallsGrow(s.filed, s.made, filed', made', s.calls);
  }

  // ----- every step of a call keeps it

  lemma FilingKeeps(s: State, a: Action)
    requires Inv(s) && CallEnabled(s, a) && (a.Call? || a.Misfile?)
    ensures Inv(CallNext(s, a))
  {
    hide SignedFiled, CmdsOk, RepliesOk, WrittenOk, HelpersOk, CallsOk, Grows, Filed;
    var p := if a.Call? then Payload(s.nowMs, a.nonce, a.command) else s.signed[a.from];
    var filed' := Filed(s.filed, a.id, p);
    FiledGrows(s.filed, s.made, a.id, p);
    SignedStaysFiled(s.signed, s.filed, a.id, p);
    InvGrows(s, filed', s.made);
    if a.Call? {
      RepliesPut(filed', s.made, s.reply, a.id, TornReply);
      CallsPut(filed', s.made, s.calls, a.id, Prepared);
    } else {
      CmdsPut(filed', s.cmd, a.id, WholeCmd(p));
    }
  }

  lemma ReadingReplyKeeps(s: State, a: Action)
    requires Inv(s) && CallEnabled(s, a) && (a.ReadReply? || a.Judge?)
    ensures Inv(CallNext(s, a))
  {
    hide SignedFiled, CmdsOk, RepliesOk, WrittenOk, HelpersOk, CallsOk;
    if a.ReadReply? {
      ReplyAt(s.filed, s.made, s.reply, a.id);
      CallsPut(s.filed, s.made, s.calls, a.id, Holding(s.reply[a.id]));
    } else {
      PhaseAt(s.filed, s.made, s.calls, a.id);
      CmdsPut(s.filed, s.cmd, a.id, TornCmd);
      RepliesPut(s.filed, s.made, s.reply, a.id, TornReply);
      CallsPut(s.filed, s.made, s.calls, a.id, Returned(Judged(a.id, s.calls[a.id].content, s.nowMs)));
    }
  }

  lemma WritingCmdKeeps(s: State, a: Action)
    requires Inv(s) && CallEnabled(s, a) && (a.PublishCmd? || a.TimeOut? || a.FinishRewrite?)
    ensures Inv(CallNext(s, a))
  {
    hide SignedFiled, CmdsOk, RepliesOk, WrittenOk, HelpersOk, CallsOk, TimeoutMs;
    SignedAt(s.signed, s.filed, a.id);
    CmdsPut(s.filed, s.cmd, a.id, if a.TimeOut? then TornCmd else WholeCmd(s.signed[a.id]));
    CallsPut(s.filed, s.made, s.calls, a.id,
             if a.PublishCmd? then Polling(s.nowMs) else if a.TimeOut? then Rewriting else Relaunched);
  }

  lemma RemovingKeeps(s: State, a: Action)
    requires Inv(s) && CallEnabled(s, a) && (a.GiveUp? || a.RemoveCmd? || a.RemoveReply? || a.PlantReply?)
    ensures Inv(CallNext(s, a))
  {
    hide SignedFiled, CmdsOk, RepliesOk, WrittenOk, HelpersOk, CallsOk;
    CmdsPut(s.filed, s.cmd, a.id, TornCmd);
    RepliesPut(s.filed, s.made, s.reply, a.id, TornReply);
    if a.GiveUp? { CallsPut(s.filed, s.made, s.calls, a.id, Returned(Err("not executed"))); }
    if a.PlantReply? {
      WrittenAt(s.filed, s.made, s.written, a.planted);
      RepliesPut(s.filed, s.made, s.reply, a.id, WholeReply(a.planted));
    }
  }

  lemma CallKeeps(s: State, a: Action)
    requires Inv(s) && CallEnabled(s, a)
    ensures Inv(CallNext(s, a))
  {
    hide Inv, CallNext;
    if a.Call? || a.Misfile? {
      FilingKeeps(s, a);
    } else if a.ReadReply? || a.Judge? {
      ReadingReplyKeeps(s, a);
    } else if a.PublishCmd? || a.TimeOut? || a.FinishRewrite? {
      WritingCmdKeeps(s, a);
    } else {
      RemovingKeeps(s, a);
    }
  }

  lemma FiledGrows(filed: Filing, made: set<Made>, id: RequestId, p: Payload)
    ensures Grows(filed, made, Filed(filed, id, p), made)
    ensures CmdOk(Filed(filed, id, p), id, WholeCmd(p))
  {
  }

  lemma SignedStaysFiled(signed: map<RequestId, Payload>, filed: Filing, id: RequestId, p: Payload)
    ensures SignedFiled(signed, filed)
            ==> SignedFiled(signed[id := p], Filed(filed, id, p)) && SignedFiled(signed, Filed(filed, id, p))
  {
  }

  lemma SignedAt(signed: map<RequestId, Payload>, filed: Filing, id: RequestId)
    ensures SignedFiled(signed, filed) && id in signed ==> CmdOk(filed, id, WholeCmd(signed[id]))
  {
  }

  lemma ReplyAt(filed: Filing, made: set<Made>, m: map<RequestId, ReplyFile>, id: RequestId)
    ensures RepliesOk(filed, made, m) && id in m ==> ReplyOk(filed, made, m[id])
  {
  }

  lemma WrittenAt(filed: Filing, made: set<Made>, written: set<Reply>, r: Reply)
    ensures WrittenOk(filed, made, written) && (!r.signed || r in written) ==> ReplyOk(filed, made, WholeReply(r))
    ensures WrittenOk(filed, made, written) && AnswerOk(filed, made, r) ==> WrittenOk(filed, made, written + {r})
  {
  }

  lemma PhaseAt(filed: Filing, made: set<Made>, m: map<RequestId, Phase>, id: RequestId)
    ensures CallsOk(filed, made, m) && id in m ==> PhaseOk(filed, made, id, m[id])
  {
  }

  lemma CmdAt(filed: Filing, m: map<RequestId, CmdFile>, id: RequestId)
    ensures CmdsOk(filed, m) && id in m ==> CmdOk(filed, id, m[id])
  {
  }

  lemma WorkAt(filed: Filing, made: set<Made>, m: map<HelperId, Helper>, h: HelperId)
    ensures HelpersOk(filed, made, m) && h in m ==> WorkOk(filed, made, m[h].work)
  {
  }

  // ----- every step of a helper keeps it

  lemma WorkSet(s: State, h: HelperId, w: Work)
    requires Inv(s) && h in s.helpers && WorkOk(s.filed, s.made, w)
    ensures Inv(SetWork(s, h, w))
  {
    hide SignedFiled, CmdsOk, RepliesOk, WrittenOk, HelpersOk, CallsOk, WorkOk;
    HelpersPut(s.filed, s.made, s.helpers, h, s.helpers[h].(work := w));
  }

  lemma HelperKeeps(s: State, a: Action)
    requires Inv(s) && HelperEnabled(s, a)
    ensures Inv(HelperNext(s, a))
  {
    hide SignedFiled, CmdsOk, RepliesOk, WrittenOk, HelpersOk, CallsOk, Grows;
    if a.Start? {
      HelpersPut(s.filed, s.made, s.helpers, a.h, Helper(None, a.queue, Idle));
    } else {
      WorkAt(s.filed, s.made, s.helpers, a.h);
      if a.Take? || a.Open? || a.Consume? || a.Verify? {
        ReadingKeeps(s, a);
      } else if a.Record? || a.Dispatched? || a.Exit? || a.Kill? {
        RunningKeeps(s, a);
      } else if a.BeginReply? || a.EndReply? || a.PublishReply? {
        AnsweringKeeps(s, a);
      } else {
        FallbackKeeps(s, a);
      }
    }
  }

  lemma ReadingKeeps(s: State, a: Action)
    requires Inv(s) && HelperEnabled(s, a) && (a.Take? || a.Open? || a.Consume? || a.Verify?)
    requires WorkOk(s.filed, s.made, s.helpers[a.h].work)
    ensures Inv(HelperNext(s, a))
  {
    hide SignedFiled, CmdsOk, RepliesOk, WrittenOk, HelpersOk, CallsOk;
    var w := s.helpers[a.h].work;
    match a {
      case Take(h) =>
        var id := s.helpers[h].queue[0];
        RepliesPut(s.filed, s.made, s.reply, id, TornReply);
        HelpersPut(s.filed, s.made, s.helpers, h, s.helpers[h].(queue := s.helpers[h].queue[1..], work := Opening(id)));
      case Open(h) =>
        if w.id in s.cmd {
          CmdAt(s.filed, s.cmd, w.id);
          WorkSet(s, h, Opened(w.id, s.cmd[w.id]));
        } else {
          WorkSet(s, h, Answering(w.id, Err("Cannot read command file")));
        }
      case Consume(h) =>
        WorkSet(s, h, Checking(w.id, w.content));
        CmdsPut(s.filed, s.cmd, w.id, TornCmd);
      case Verify(h, k) =>
        WorkSet(s, h, Checked(s, w, k));
    }
  }

  lemma RunningKeeps(s: State, a: Action)
    requires Inv(s) && HelperEnabled(s, a) && (a.Record? || a.Dispatched? || a.Exit? || a.Kill?)
    requires WorkOk(s.filed, s.made, s.helpers[a.h].work)
    ensures Inv(HelperNext(s, a))
  {
    hide SignedFiled, CmdsOk, RepliesOk, WrittenOk, HelpersOk, CallsOk, Admit, Gone, StoredAfter;
    var w := s.helpers[a.h].work;
    match a {
      case Record(h, ok) =>
        var m := Admit(s.helpers[h].seen, s.stored, w.payload.nonce, Secs(s.nowMs), ok);
        HelpersPut(s.filed, s.made, s.helpers, h,
                   s.helpers[h].(seen := Some(m.seen), work := Dispatching(w.id, w.payload)));
        HelpersPut(s.filed, s.made, s.helpers, h,
                   s.helpers[h].(seen := Some(m.seen), work := Answering(w.id, Err("Duplicate nonce"))));
      case Dispatched(h, o) =>
        var made' := HelperNext(s, a).made;
        InvGrows(s, s.filed, made');
        WorkSet(s.(made := made'), h, Answering(w.id, o));
      case Exit(h, f) =>
        HelpersPut(s.filed, s.made, s.helpers, h, s.helpers[h]);
      case Kill(h) =>
        HelpersPut(s.filed, s.made, s.helpers, h, s.helpers[h]);
    }
  }

  lemma AnsweringKeeps(s: State, a: Action)
    requires Inv(s) && HelperEnabled(s, a) && (a.BeginReply? || a.EndReply? || a.PublishReply?)
    requires WorkOk(s.filed, s.made, s.helpers[a.h].work)
    ensures Inv(HelperNext(s, a))
  {
    hide SignedFiled, CmdsOk, RepliesOk, WrittenOk, HelpersOk, CallsOk;
    var w := s.helpers[a.h].work;
    match a {
      case BeginReply(h, k) =>
        WorkSet(s, h, Writing(w.id, Reply(w.id, w.outcome, s.nowMs, k)));
        WrittenAt(s.filed, s.made, s.written, Reply(w.id, w.outcome, s.nowMs, k));
        RepliesPut(s.filed, s.made, s.replyTmp, w.id, TornReply);
      case EndReply(h) =>
        WorkSet(s, h, Renaming(w.id));
        RepliesPut(s.filed, s.made, s.replyTmp, w.id, WholeReply(w.reply));
        RepliesPut(s.filed, s.made, s.reply, w.id, WholeReply(w.reply));
      case PublishReply(h) =>
        WorkSet(s, h, Idle);
        RepliesPut(s.filed, s.made, s.replyTmp, w.id, TornReply);
        if w.id in s.replyTmp {
          ReplyAt(s.filed, s.made, s.replyTmp, w.id);
          RepliesPut(s.filed, s.made, s.reply, w.id, s.replyTmp[w.id]);
        }
    }
  }

  lemma FallbackKeeps(s: State, a: Action)
    requires Inv(s) && HelperEnabled(s, a) && (a.AbandonReply? || a.BeginFallback? || a.EndFallback?)
    requires WorkOk(s.filed, s.made, s.helpers[a.h].work)
    ensures Inv(HelperNext(s, a))
  {
    hide SignedFiled, CmdsOk, RepliesOk, WrittenOk, HelpersOk, CallsOk;
    var w := s.helpers[a.h].work;
    match a {
      case AbandonReply(h, rm) =>
        WorkSet(s, h, Idle);
        RepliesPut(s.filed, s.made, s.replyTmp, w.id, TornReply);
      case BeginFallback(h, id) =>
        WorkSet(s, h, FallingBack(id));
        RepliesPut(s.filed, s.made, s.reply, id, TornReply);
      case EndFallback(h) =>
        WorkSet(s, h, Idle);
        RepliesPut(s.filed, s.made, s.reply, w.id, WholeReply(Reply(w.id, Err("No pending command"), s.nowMs, false)));
    }
  }

  // ----- whole runs

  lemma InitOk(stored: Stamps, nowMs: nat)
    ensures Inv(Init(stored, nowMs))
  {
  }

  lemma StepKeeps(s: State, a: Action)
    requires Inv(s) && Enabled(s, a)
    ensures Inv(Next(s, a))
  {
    hide SignedFiled, CmdsOk, RepliesOk, WrittenOk, HelpersOk, CallsOk, CallNext, HelperNext, CallEnabled,
      HelperEnabled;
    if CallEnabled(s, a) {
      CallKeeps(s, a);
    } else if !a.Tick? {
      HelperKeeps(s, a);
    }
  }

  lemma {:induction false} RunKeeps(s: State, run: seq<Action>)
    requires Inv(s) && IsRun(s, run)
    ensures Inv(Final(s, run))
    decreases |run|
  {
    hide Inv, Enabled, Next;
    if run != [] {
      StepKeeps(s, run[0]);
      RunKeeps(Next(s, run[0]), run[1..]);
    }
  }

  /** The state before step i of a run. */
  function StateAt(s: State, run: seq<Action>, i: nat): State
    requires IsRun(s, run) && i <= |run|
    decreases |run|
  {
    if i == 0 then s else StateAt(Next(s, run[0]), run[1..], i - 1)
  }

  /** Step a is the return of dispatch for the request and command of x, with its data. */
  predicate DispatchStep(s: State, a: Action, x: Made) {
    && a.Dispatched? && a.h in s.helpers && s.helpers[a.h].work.Dispatching?
    && s.helpers[a.h].work.id == x.id && s.helpers[a.h].work.payload.command == x.command
    && a.outcome == Ok(x.data)
  }

  lemma MadeByStep(s: State, a: Action, x: Made)
    ensures Enabled(s, a) && x !in s.made && x in Next(s, a).made ==> DispatchStep(s, a, x)
  {
    hide HelperEnabled, CallEnabled, HelperNext, CallNext, SameCalls, SameSigned;
    if CallEnabled(s, a) {
      CallFrame(s, a);
    } else if HelperEnabled(s, a) {
      if a.Dispatched? {
        DispatchMakes(s, a, x);
      } else {
        HelperFrame(s, a);
      }
    }
  }

  lemma DispatchMakes(s: State, a: Action, x: Made)
    ensures HelperEnabled(s, a) && a.Dispatched? && x !in s.made && x in HelperNext(s, a).made ==> DispatchStep(s, a, x)
  {
  }

  lemma {:induction false} MadeInRun(s: State, run: seq<Action>, x: Made) returns (i: nat)
    requires IsRun(s, run) && x !in s.made && x in Final(s, run).made
    ensures i < |run| && DispatchStep(StateAt(s, run, i), run[i], x)
    decreases |run|
  {
    hide Enabled, Next, DispatchStep;
    var s1 := Next(s, run[0]);
    if x in s1.made {
      MadeByStep(s, run[0], x);
      i := 0;
    } else {
      var j := MadeInRun(s1, run[1..], x);
      i := j + 1;
    }
  }

  lemma DataIsMade(s: State, id: RequestId, data: string)
    requires Inv(s) && id in s.calls && s.calls[id] == Returned(Ok(data))
    ensures id in s.filed && MadeOf(s.filed[id], s.made, id, data)
  {
    PhaseAt(s.filed, s.made, s.calls, id);
  }

  /** Over every run, with any overlap: a call that returned Ok(data) through the file path got the
      data of a dispatch, at some step of the run, of a payload that was filed under the call's id. */
  lemma OkIsFiledData(stored: Stamps, nowMs: nat, run: seq<Action>, id: RequestId, data: string)
    returns (p: Payload, i: nat)
    requires IsRun(Init(stored, nowMs), run)
    requires id in Final(Init(stored, nowMs), run).calls
    requires Final(Init(stored, nowMs), run).calls[id] == Returned(Ok(data))
    ensures var s0 := Init(stored, nowMs);
            var s := Final(s0, run);
            && id in s.filed && p in s.filed[id]
            && i < |run| && DispatchStep(StateAt(s0, run, i), run[i], Made(id, p.command, data))
  {
    var s0 := Init(stored, nowMs);
    InitOk(stored, nowMs);
    RunKeeps(s0, run);
    var s := Final(s0, run);
    DataIsMade(s, id, data);
    assert s0.made == {};
    p :| p in s.filed[id] && Made(id, p.command, data) in s.made;
    hide IsRun, Final, Inv;
    i := MadeInRun(s0, run, Made(id, p.command, data));
  }

  /** Only the call's own payload is ever filed under its id. */
  predicate NotMisfiled(run: seq<Action>, id: RequestId) {
    forall i :: 0 <= i < |run| && run[i].Misfile? && run[i].id == id ==> run[i].from == id
  }

  ghost predicate OnlyOwn(s: State, id: RequestId) {
    id in s.filed ==> id in s.signed && s.filed[id] == {s.signed[id]}
  }

  lemma StepFilesOwn(s: State, a: Action, id: RequestId)
    requires OnlyOwn(s, id) && Enabled(s, a) && (a.Misfile? && a.id == id ==> a.from == id)
    ensures OnlyOwn(Next(s, a), id)
  {
    if CallEnabled(s, a) && (a.Call? || a.Misfile?) {
      FilesOwn(s, a, id);
    } else if !a.Tick? {
      hide CallEnabled, HelperEnabled, HelperNext, CallNext, SameHelpers;
      if CallEnabled(s, a) { CallFrame(s, a); } else { HelperFrame(s, a); }
    }
  }

  lemma FilesOwn(s: State, a: Action, id: RequestId)
    requires OnlyOwn(s, id) && CallEnabled(s, a) && (a.Call? || a.Misfile?)
             && (a.Misfile? && a.id == id ==> a.from == id)
    ensures OnlyOwn(CallNext(s, a), id)
  {
  }

  lemma {:induction false} RunFilesOwn(s: State, run: seq<Action>, id: RequestId)
    requires OnlyOwn(s, id) && IsRun(s, run) && NotMisfiled(run, id)
    ensures OnlyOwn(Final(s, run), id)
    decreases |run|
  {
    hide OnlyOwn, Enabled, Next;
    if run != [] {
      StepFilesOwn(s, run[0], id);
      RunFilesOwn(Next(s, run[0]), run[1..], id);
    }
  }

  /** So it got the data of its own command, unless another signed payload was filed under its id. */
  lemma OkIsOwnData(stored: Stamps, nowMs: nat, run: seq<Action>, id: RequestId, data: string) returns (i: nat)
    requires IsRun(Init(stored, nowMs), run) && NotMisfiled(run, id)
    requires id in Final(Init(stored, nowMs), run).calls
    requires Final(Init(stored, nowMs), run).calls[id] == Returned(Ok(data))
    ensures var s0 := Init(stored, nowMs);
            var s := Final(s0, run);
            && id in s.signed
            && i < |run| && DispatchStep(StateAt(s0, run, i), run[i], Made(id, s.signed[id].command, data))
  {
    var p: Payload;
    p, i := OkIsFiledData(stored, nowMs, run, id, data);
    RunFilesOwn(Init(stored, nowMs), run, id);
    hide IsRun, Final, StateAt, DispatchStep;
  }

  // ----- what a call makes of the reply it holds

  /** The reply is whole and signed, names the request, and is dated within thirty seconds of the clock,
      which is one of 64 bits. */
  predicate Good(content: ReplyFile, id: RequestId, nowMs: nat) {
    && content.WholeReply? && content.reply.signed && content.reply.id == id
    && content.reply.createdMs <= nowMs + 30_000 && nowMs <= content.reply.createdMs + 30_000
    && nowMs <= 0xFFFF_FFFF_FFFF_FFFF
  }

  /** A call that holds a reply returns data exactly when the reply is good and brings that data. The error
      of a good reply is returned as it is, and each other reply has its own error; the files of the
      request are gone, and nothing else changes. */
  lemma JudgesExactly(s: State, id: RequestId)
    requires id in s.calls && s.calls[id].Holding?
    ensures Enabled(s, Judge(id))
    ensures var s', content := Next(s, Judge(id)), s.calls[id].content;
            && id in s'.calls && s'.calls[id].Returned?
            && (forall data :: s'.calls[id].answer == Ok(data)
                  <==> Good(content, id, s.nowMs) && content.reply.outcome == Ok(data))
            && (Good(content, id, s.nowMs) ==> s'.calls[id].answer == content.reply.outcome)
            && (content.TornReply? ==> s'.calls[id].answer == Err("Invalid result JSON"))
            && (content.WholeReply? && !Good(content, content.reply.id, s.nowMs)
                ==> s'.calls[id].answer == Err("Elevated response authentication failed"))
            && (content.WholeReply? && Good(content, content.reply.id, s.nowMs) && content.reply.id != id
                ==> s'.calls[id].answer == Err("Elevated result request_id mismatch"))
            && s' == s.(calls := s'.calls, reply := s.reply - {id}, cmd := s.cmd - {id})
            && s'.calls == s.calls[id := s'.calls[id]]
  {
  }
}
