/**
  The elevated request protocol as steps over a shared directory: any number of calls in the
  unprivileged process and any number of helper processes, interleaved at every file access.
  A file is torn while it is being written and whole afterwards; a rename is one step.
 */
module ElevProtocol {
  import opened Wrappers
  import opened Nonces
  import opened Commands

  type RequestId = string
  type HelperId = nat

  /** A signed command payload. Only a call of the program signs one, but anyone may copy it. */
  datatype Payload = Payload(createdMs: nat, nonce: Nonce, command: Command)

  /** What dispatch answers: data, or an error. */
  type Outcome = Result<string, string>

  datatype Reply = Reply(id: RequestId, outcome: Outcome, createdMs: nat, signed: bool)

  /** The payloads that may lie under each id. */
  type Filing = map<RequestId, set<Payload>>

  datatype CmdFile = TornCmd | WholeCmd(payload: Payload)

  datatype ReplyFile = TornReply | WholeReply(reply: Reply)

  /** Where a call of run_elevated_impl is, from its payload on. */
  datatype Phase =
    | Prepared
    | Polling(sinceMs: nat)
    | Rewriting
    | Relaunched
    | Holding(content: ReplyFile)
    | Returned(answer: Result<string, string>)

  /** Where a helper is in process_pending. */
  datatype Work =
    | Idle
    | Opening(id: RequestId)
    | Opened(id: RequestId, content: CmdFile)
    | Checking(id: RequestId, content: CmdFile)
    | Verified(id: RequestId, payload: Payload, atMs: nat)
    | Dispatching(id: RequestId, payload: Payload)
    | Answering(id: RequestId, outcome: Outcome)
    | Writing(id: RequestId, reply: Reply)
    | Renaming(id: RequestId)
    | FallingBack(id: RequestId)

  datatype Helper = Helper(seen: Option<Stamps>, queue: seq<RequestId>, work: Work)

  /** A command that dispatch executed for a request, and the data it produced. */
  datatype Made = Made(id: RequestId, command: Command, data: string)

  datatype State = State(
    nowMs: nat,
    // the shared directory
    cmd: map<RequestId, CmdFile>,
    reply: map<RequestId, ReplyFile>,
    replyTmp: map<RequestId, ReplyFile>,
    stored: Stamps,
    // the processes
    signed: map<RequestId, Payload>,
    filed: Filing,
    calls: map<RequestId, Phase>,
    helpers: map<HelperId, Helper>,
    // history
    written: set<Reply>,
    made: set<Made>,
    fellBack: set<RequestId>,
    begun: seq<Nonce>,
    born: map<Nonce, nat>,
    lost: set<Nonce>,
    loss: nat,
    unflushed: nat)

  /** The nonces of the stored map count as born long ago: a new nonce differs from them. */
  function Init(stored: Stamps, nowMs: nat): State {
    State(nowMs, map[], map[], map[], stored, map[], map[], map[], map[], {}, {}, {}, [],
          map n | n in stored :: 0, {}, 0, 0)
  }

  datatype Action =
    | Tick(ms: nat)
    // a call
    | Call(id: RequestId, nonce: Nonce, command: Command)
    | PublishCmd(id: RequestId)
    | ReadReply(id: RequestId)
    | Judge(id: RequestId)
    | TimeOut(id: RequestId)
    | FinishRewrite(id: RequestId)
    | GiveUp(id: RequestId)
    | RemoveCmd(id: RequestId)
    | RemoveReply(id: RequestId)
    // someone else files a signed payload, or a reply, under some id
    | Misfile(id: RequestId, from: RequestId)
    | PlantReply(id: RequestId, planted: Reply)
    // a helper
    | Start(h: HelperId, queue: seq<RequestId>)
    | Take(h: HelperId)
    | Open(h: HelperId)
    | Consume(h: HelperId)
    | Verify(h: HelperId, keyReadable: bool)
    | Record(h: HelperId, saveOk: bool)
    | Dispatched(h: HelperId, outcome: Outcome)
    | BeginReply(h: HelperId, signable: bool)
    | EndReply(h: HelperId)
    | PublishReply(h: HelperId)
    | AbandonReply(h: HelperId, removed: bool)
    | BeginFallback(h: HelperId, id: RequestId)
    | EndFallback(h: HelperId)
    | Exit(h: HelperId, flushed: bool)
    | Kill(h: HelperId)

  // ----- the steps of a call

  predicate CallEnabled(s: State, a: Action) {
    match a
    case Call(id, n, c) => id !in s.signed && n !in s.born
    case PublishCmd(id) => id in s.calls && s.calls[id] == Prepared && id in s.signed
    case ReadReply(id) => id in s.calls && (s.calls[id].Polling? || s.calls[id] == Relaunched) && id in s.reply
    case Judge(id) => id in s.calls && s.calls[id].Holding?
    case TimeOut(id) =>
      && id in s.calls && s.calls[id].Polling? && id in s.signed
      && s.nowMs > s.calls[id].sinceMs + TimeoutMs(s.signed[id].command.name)
    case FinishRewrite(id) => id in s.calls && s.calls[id] == Rewriting && id in s.signed
    case GiveUp(id) => id in s.calls && !s.calls[id].Returned?
    case RemoveCmd(id) => true
    case RemoveReply(id) => true
    case Misfile(id, from) => from in s.signed
    case PlantReply(id, r) => !r.signed || r in s.written
    case _ => false
  }

  /** How a call judges the reply it read: whole, signed and fresh, for its own request, ok. */
  function Judged(id: RequestId, content: ReplyFile, nowMs: nat): Result<string, string> {
    match content
    case TornReply => Err("Invalid result JSON")
    case WholeReply(r) =>
      if !r.signed || !Fresh(nowMs, r.createdMs) then Err("Elevated response authentication failed")
      else if r.id != id then Err("Elevated result request_id mismatch")
      else r.outcome
  }

  /** The payloads that may lie under each id, with one more. */
  function Filed(filed: Filing, id: RequestId, p: Payload): Filing {
    filed[id := (if id in filed then filed[id] else {}) + {p}]
  }

  function CallNext(s: State, a: Action): State
    requires CallEnabled(s, a)
  {
    match a
    case Call(id, n, c) =>
      s.(signed := s.signed[id := Payload(s.nowMs, n, c)], filed := Filed(s.filed, id, Payload(s.nowMs, n, c)),
         calls := s.calls[id := Prepared], born := s.born[n := s.nowMs], reply := s.reply - {id})
    case PublishCmd(id) =>
      s.(cmd := s.cmd[id := WholeCmd(s.signed[id])], calls := s.calls[id := Polling(s.nowMs)])
    case ReadReply(id) =>
      s.(calls := s.calls[id := Holding(s.reply[id])])
    case Judge(id) =>
      s.(calls := s.calls[id := Returned(Judged(id, s.calls[id].content, s.nowMs))],
         reply := s.reply - {id}, cmd := s.cmd - {id})
    case TimeOut(id) =>
      s.(cmd := s.cmd[id := TornCmd], calls := s.calls[id := Rewriting])
    case FinishRewrite(id) =>
      s.(cmd := s.cmd[id := WholeCmd(s.signed[id])], calls := s.calls[id := Relaunched])
    case GiveUp(id) =>
      s.(calls := s.calls[id := Returned(Err("not executed"))])
    case RemoveCmd(id) =>
      s.(cmd := s.cmd - {id})
    case RemoveReply(id) =>
      s.(reply := s.reply - {id})
    case Misfile(id, from) =>
      s.(cmd := s.cmd[id := WholeCmd(s.signed[from])], filed := Filed(s.filed, id, s.signed[from]))
    case PlantReply(id, r) =>
      s.(reply := s.reply[id := WholeReply(r)])
  }

  /** What no step of a call touches, and what only a new call and a misfiled payload do. */
  ghost predicate SameHelpers(s: State, s': State) {
    && s'.helpers == s.helpers && s'.stored == s.stored && s'.nowMs == s.nowMs && s'.made == s.made
    && s'.begun == s.begun && s'.lost == s.lost && s'.loss == s.loss && s'.unflushed == s.unflushed
  }

  ghost predicate SameSigned(s: State, s': State) {
    s'.signed == s.signed && s'.filed == s.filed && s'.born == s.born
  }

  lemma FilingFrame(s: State, a: Action)
    requires CallEnabled(s, a) && (a.Call? || a.Misfile?)
    ensures SameHelpers(s, CallNext(s, a))
  {
    hide Filed;
  }

  lemma PollingFrame(s: State, a: Action)
    requires CallEnabled(s, a) && (a.PublishCmd? || a.ReadReply? || a.GiveUp?)
    ensures SameHelpers(s, CallNext(s, a)) && SameSigned(s, CallNext(s, a))
  {
  }

  lemma JudgingFrame(s: State, a: Action)
    requires CallEnabled(s, a) && (a.Judge? || a.TimeOut? || a.FinishRewrite?)
    ensures SameHelpers(s, CallNext(s, a)) && SameSigned(s, CallNext(s, a))
  {
    hide Judged;
  }

  lemma RemovingFrame(s: State, a: Action)
    requires CallEnabled(s, a) && (a.RemoveCmd? || a.RemoveReply? || a.PlantReply?)
    ensures SameHelpers(s, CallNext(s, a)) && SameSigned(s, CallNext(s, a))
  {
  }

  lemma CallFrame(s: State, a: Action)
    requires CallEnabled(s, a)
    ensures SameHelpers(s, CallNext(s, a))
    ensures !a.Call? && !a.Misfile? ==> SameSigned(s, CallNext(s, a))
  {
    hide CallNext, SameHelpers, SameSigned;
    if a.Call? || a.Misfile? {
      FilingFrame(s, a);
    } else if a.PublishCmd? || a.ReadReply? || a.GiveUp? {
      PollingFrame(s, a);
    } else if a.Judge? || a.TimeOut? || a.FinishRewrite? {
      JudgingFrame(s, a);
    } else {
      RemovingFrame(s, a);
    }
  }

  // ----- the steps of a helper

  predicate HelperEnabled(s: State, a: Action) {
    match a
    case Start(h, queue) => h !in s.helpers
    case Take(h) => h in s.helpers && s.helpers[h].work == Idle && s.helpers[h].queue != []
    case Open(h) => h in s.helpers && s.helpers[h].work.Opening?
    case Consume(h) => h in s.helpers && s.helpers[h].work.Opened?
    case Verify(h, k) => h in s.helpers && s.helpers[h].work.Checking?
    case Record(h, ok) => h in s.helpers && s.helpers[h].work.Verified?
    case Dispatched(h, o) => h in s.helpers && s.helpers[h].work.Dispatching?
    case BeginReply(h, k) => h in s.helpers && s.helpers[h].work.Answering?
    case EndReply(h) => h in s.helpers && s.helpers[h].work.Writing?
    case PublishReply(h) => h in s.helpers && s.helpers[h].work.Renaming?
    case AbandonReply(h, rm) => h in s.helpers && (s.helpers[h].work.Writing? || s.helpers[h].work.Renaming?)
    case BeginFallback(h, id) =>
      h in s.helpers && s.helpers[h].work == Idle && s.helpers[h].queue == [] && s.helpers[h].seen.None?
    case EndFallback(h) => h in s.helpers && s.helpers[h].work.FallingBack?
    case Exit(h, f) => h in s.helpers && s.helpers[h].work == Idle && s.helpers[h].queue == []
    case Kill(h) => h in s.helpers
    case _ => false
  }

  function SetWork(s: State, h: HelperId, work: Work): State
    requires h in s.helpers
  {
    s.(helpers := s.helpers[h := s.helpers[h].(work := work)])
  }

  function Checked(s: State, w: Work, keyReadable: bool): Work
    requires w.Checking?
  {
    if w.content.TornCmd? then Answering(w.id, Err("Invalid command JSON"))
    else if !keyReadable then Answering(w.id, Err("Authentication key unavailable"))
    else if !Fresh(s.nowMs, w.content.payload.createdMs) then Answering(w.id, Err("Command authentication failed"))
    else Verified(w.id, w.content.payload, s.nowMs)
  }

  function Recorded(s: State, h: HelperId, saveOk: bool): State
    requires h in s.helpers && s.helpers[h].work.Verified?
  {
    var w := s.helpers[h].work;
    var n := w.payload.nonce;
    var a := Admit(s.helpers[h].seen, s.stored, n, Secs(s.nowMs), saveOk);
    var work := if a.isNew then Dispatching(w.id, w.payload) else Answering(w.id, Err("Duplicate nonce"));
    s.(helpers := s.helpers[h := s.helpers[h].(seen := Some(a.seen), work := work)], stored := a.stored,
       begun := if a.isNew then s.begun + [n] else s.begun, lost := if a.isNew then s.lost - {n} else s.lost)
  }

  /** The stored map after a helper left, having written its map or not. */
  function StoredAfter(seen: Option<Stamps>, stored: Stamps, flushed: bool): Stamps {
    if flushed && seen.Some? then seen.value else stored
  }

  /** What only a helper that left knew. */
  function Gone(seen: Option<Stamps>, stored: Stamps): set<Nonce> {
    if seen.Some? then Unsaved(seen.value, stored) else {}
  }

  function Left(s: State, h: HelperId, flushed: bool): State
    requires h in s.helpers
  {
    var stored := StoredAfter(s.helpers[h].seen, s.stored, flushed);
    var gone := Gone(s.helpers[h].seen, stored);
    s.(helpers := s.helpers - {h}, stored := stored, lost := s.lost + gone, loss := s.loss + |gone|,
       unflushed := s.unflushed + if flushed then 0 else 1)
  }

  function HelperNext(s: State, a: Action): State
    requires HelperEnabled(s, a)
  {
    match a
    case Start(h, queue) => s.(helpers := s.helpers[h := Helper(None, queue, Idle)])
    case Take(h) =>
      var id := s.helpers[h].queue[0];
      s.(reply := s.reply - {id},
         helpers := s.helpers[h := s.helpers[h].(queue := s.helpers[h].queue[1..], work := Opening(id))])
    case Open(h) =>
      var id := s.helpers[h].work.id;
      SetWork(s, h, if id in s.cmd then Opened(id, s.cmd[id]) else Answering(id, Err("Cannot read command file")))
    case Consume(h) =>
      var w := s.helpers[h].work;
      SetWork(s, h, Checking(w.id, w.content)).(cmd := s.cmd - {w.id})
    case Verify(h, k) => SetWork(s, h, Checked(s, s.helpers[h].work, k))
    case Record(h, ok) => Recorded(s, h, ok)
    case Dispatched(h, o) =>
      var w := s.helpers[h].work;
      SetWork(s, h, Answering(w.id, o)).(
        made := if o.Ok? then s.made + {Made(w.id, w.payload.command, o.value)} else s.made)
    case BeginReply(h, k) =>
      var w := s.helpers[h].work;
      var r := Reply(w.id, w.outcome, s.nowMs, k);
      SetWork(s, h, Writing(w.id, r)).(replyTmp := s.replyTmp[w.id := TornReply], written := s.written + {r})
    case EndReply(h) =>
      var w := s.helpers[h].work;
      // The open file receives the content under whichever name it has by now.
      SetWork(s, h, Renaming(w.id)).(
        replyTmp := if w.id in s.replyTmp then s.replyTmp[w.id := WholeReply(w.reply)] else s.replyTmp,
        reply := if w.id in s.reply && w.id !in s.replyTmp then s.reply[w.id := WholeReply(w.reply)] else s.reply)
    case PublishReply(h) =>
      var id := s.helpers[h].work.id;
      SetWork(s, h, Idle).(reply := if id in s.replyTmp then s.reply[id := s.replyTmp[id]] else s.reply,
                           replyTmp := s.replyTmp - {id})
    case AbandonReply(h, removed) =>
      // The write or the rename failed.
      SetWork(s, h, Idle).(replyTmp := if removed then s.replyTmp - {s.helpers[h].work.id} else s.replyTmp)
    case BeginFallback(h, id) =>
      // run()'s answer to a missing command file is written in place, not renamed. The file was
      // missed some time before, so it may be there again.
      SetWork(s, h, FallingBack(id)).(reply := s.reply[id := TornReply], fellBack := s.fellBack + {id})
    case EndFallback(h) =>
      var id := s.helpers[h].work.id;
      SetWork(s, h, Idle).(reply := s.reply[id := WholeReply(Reply(id, Err("No pending command"), s.nowMs, false))])
    case Exit(h, f) => Left(s, h, f)
    case Kill(h) => Left(s, h, false)
  }

  /** What no step of a helper touches, and what only dispatch does. */
  ghost predicate SameCalls(s: State, s': State) {
    && s'.calls == s.calls && s'.signed == s.signed && s'.filed == s.filed && s'.nowMs == s.nowMs && s'.born == s.born
  }

  lemma TakingFrame(s: State, a: Action)
    requires HelperEnabled(s, a) && (a.Start? || a.Take? || a.Consume?)
    ensures SameCalls(s, HelperNext(s, a)) && HelperNext(s, a).made == s.made
  {
  }

  lemma WorkFrame(s: State, h: HelperId, w: Work)
    ensures h in s.helpers ==> SameCalls(s, SetWork(s, h, w)) && SetWork(s, h, w).made == s.made
  {
  }

  lemma OpenFrame(s: State, a: Action)
    requires HelperEnabled(s, a) && a.Open?
    ensures SameCalls(s, HelperNext(s, a)) && HelperNext(s, a).made == s.made
  {
    var id := s.helpers[a.h].work.id;
    WorkFrame(s, a.h, Answering(id, Err("Cannot read command file")));
    if id in s.cmd { WorkFrame(s, a.h, Opened(id, s.cmd[id])); }
    hide SetWork, SameCalls;
  }

  lemma VerifyFrame(s: State, a: Action)
    requires HelperEnabled(s, a) && (a.Verify?)
    ensures SameCalls(s, HelperNext(s, a)) && HelperNext(s, a).made == s.made
  {
    hide Checked;
  }

  lemma RecordFrame(s: State, a: Action)
    requires HelperEnabled(s, a) && a.Record?
    ensures SameCalls(s, HelperNext(s, a)) && HelperNext(s, a).made == s.made
  {
    RecordedFrame(s, a.h, a.saveOk);
    hide Recorded, SameCalls;
  }

  /** The record step, field by field. */
  lemma RecordedIs(s: State, h: HelperId, saveOk: bool)
    requires h in s.helpers && s.helpers[h].work.Verified?
    ensures var w, s' := s.helpers[h].work, Recorded(s, h, saveOk);
            var a := Admit(s.helpers[h].seen, s.stored, w.payload.nonce, Secs(s.nowMs), saveOk);
            && s'.helpers == s.helpers[h := Helper(Some(a.seen), s.helpers[h].queue,
                                                   if a.isNew then Dispatching(w.id, w.payload)
                                                   else Answering(w.id, Err("Duplicate nonce")))]
            && s'.stored == a.stored && s'.loss == s.loss && s'.unflushed == s.unflushed
            && s'.begun == (if a.isNew then s.begun + [w.payload.nonce] else s.begun)
            && s'.lost == (if a.isNew then s.lost - {w.payload.nonce} else s.lost)
            && s'.born == s.born && s'.signed == s.signed && s'.filed == s.filed && s'.nowMs == s.nowMs
            && s'.cmd == s.cmd && s'.reply == s.reply && s'.replyTmp == s.replyTmp && s'.fellBack == s.fellBack
            && s'.calls == s.calls && s'.made == s.made
  {
    hide Admit;
  }

  /** Leaving, field by field. */
  lemma LeftIs(s: State, h: HelperId, flushed: bool)
    requires h in s.helpers
    ensures var s' := Left(s, h, flushed);
            var gone := Gone(s.helpers[h].seen, s'.stored);
            && s'.helpers == s.helpers - {h} && s'.stored == StoredAfter(s.helpers[h].seen, s.stored, flushed)
            && s'.lost == s.lost + gone && s'.loss == s.loss + |gone|
            && s'.unflushed == s.unflushed + (if flushed then 0 else 1)
            && s'.begun == s.begun && s'.born == s.born && s'.signed == s.signed && s'.filed == s.filed
            && s'.nowMs == s.nowMs
  {
    hide Gone, StoredAfter;
  }

  lemma RecordedFrame(s: State, h: HelperId, saveOk: bool)
    requires h in s.helpers && s.helpers[h].work.Verified?
    ensures SameCalls(s, Recorded(s, h, saveOk)) && Recorded(s, h, saveOk).made == s.made
  {
    hide Admit;
  }

  lemma LeaveFrame(s: State, a: Action)
    requires HelperEnabled(s, a) && (a.Exit? || a.Kill?)
    ensures SameCalls(s, HelperNext(s, a)) && HelperNext(s, a).made == s.made
  {
    hide Gone, StoredAfter;
  }

  lemma BeginFrame(s: State, a: Action)
    requires HelperEnabled(s, a) && (a.BeginReply? || a.AbandonReply?)
    ensures SameCalls(s, HelperNext(s, a)) && HelperNext(s, a).made == s.made
  {
  }

  lemma PublishFrame(s: State, a: Action)
    requires HelperEnabled(s, a) && (a.EndReply? || a.PublishReply?)
    ensures SameCalls(s, HelperNext(s, a)) && HelperNext(s, a).made == s.made
  {
    var id := s.helpers[a.h].work.id;
    WorkFrame(s, a.h, Idle);
    WorkFrame(s, a.h, Renaming(id));
    hide SetWork;
  }

  lemma FallbackFrame(s: State, a: Action)
    requires HelperEnabled(s, a) && (a.BeginFallback? || a.EndFallback? || a.Dispatched?)
    ensures SameCalls(s, HelperNext(s, a)) && (!a.Dispatched? ==> HelperNext(s, a).made == s.made)
  {
  }

  lemma HelperFrame(s: State, a: Action)
    requires HelperEnabled(s, a)
    ensures SameCalls(s, HelperNext(s, a))
    ensures !a.Dispatched? ==> HelperNext(s, a).made == s.made
  {
    hide HelperNext, SameCalls;
    if a.Start? || a.Take? || a.Consume? {
      TakingFrame(s, a);
    } else if a.Open? {
      OpenFrame(s, a);
    } else if a.Verify? {
      VerifyFrame(s, a);
    } else if a.Record? {
      RecordFrame(s, a);
    } else if a.Exit? || a.Kill? {
      LeaveFrame(s, a);
    } else if a.BeginReply? || a.AbandonReply? {
      BeginFrame(s, a);
    } else if a.EndReply? || a.PublishReply? {
      PublishFrame(s, a);
    } else {
      FallbackFrame(s, a);
    }
  }

  // ----- runs

  predicate Enabled(s: State, a: Action) {
    a.Tick? || CallEnabled(s, a) || HelperEnabled(s, a)
  }

  function Next(s: State, a: Action): State
    requires Enabled(s, a)
  {
    if a.Tick? then s.(nowMs := s.nowMs + a.ms)
    else if CallEnabled(s, a) then CallNext(s, a)
    else HelperNext(s, a)
  }

  predicate IsRun(s: State, run: seq<Action>)
    decreases |run|
  {
    run == [] || (Enabled(s, run[0]) && IsRun(Next(s, run[0]), run[1..]))
  }

  function Final(s: State, run: seq<Action>): State
    requires IsRun(s, run)
    decreases |run|
  {
    if run == [] then s else Final(Next(s, run[0]), run[1..])
  }

  /** What others may do to the files in any state: remove those of a request, and file there a copy of any
      signed command or reply, or a reply that is not signed. */
  lemma OthersMayFile(s: State, id: RequestId, from: RequestId, r: Reply)
    ensures Enabled(s, RemoveCmd(id)) && Next(s, RemoveCmd(id)).cmd == s.cmd - {id}
    ensures Enabled(s, RemoveReply(id)) && Next(s, RemoveReply(id)).reply == s.reply - {id}
    ensures from in s.signed
            ==> Enabled(s, Misfile(id, from)) && Next(s, Misfile(id, from)).cmd == s.cmd[id := WholeCmd(s.signed[from])]
    ensures !r.signed || r in s.written
            ==> Enabled(s, PlantReply(id, r)) && Next(s, PlantReply(id, r)).reply == s.reply[id := WholeReply(r)]
  {
    MayRemove(s, id);
    MayMisfile(s, id, from);
    MayPlant(s, id, r);
    hide *;
  }

  lemma MayRemove(s: State, id: RequestId)
    ensures Enabled(s, RemoveCmd(id)) && Next(s, RemoveCmd(id)).cmd == s.cmd - {id}
    ensures Enabled(s, RemoveReply(id)) && Next(s, RemoveReply(id)).reply == s.reply - {id}
  {
    hide HelperEnabled, HelperNext;
  }

  lemma MayMisfile(s: State, id: RequestId, from: RequestId)
    ensures from in s.signed
            ==> Enabled(s, Misfile(id, from)) && Next(s, Misfile(id, from)).cmd == s.cmd[id := WholeCmd(s.signed[from])]
  {
    hide Filed, HelperEnabled, HelperNext;
  }

  lemma MayPlant(s: State, id: RequestId, r: Reply)
    ensures !r.signed || r in s.written
            ==> Enabled(s, PlantReply(id, r)) && Next(s, PlantReply(id, r)).reply == s.reply[id := WholeReply(r)]
  {
    hide HelperEnabled, HelperNext;
  }

  /** A helper may start for any requests and die at any time. */
  lemma HelpersComeAndGo(s: State, h: HelperId, queue: seq<RequestId>)
    ensures if h in s.helpers then Enabled(s, Kill(h)) && Next(s, Kill(h)).helpers == s.helpers - {h}
            else && Enabled(s, Start(h, queue))
                 && Next(s, Start(h, queue)).helpers == s.helpers[h := Helper(None, queue, Idle)]
  {
    hide Gone, StoredAfter, CallNext;
  }
}
