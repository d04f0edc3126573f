/**
  Whole runs from the empty directory. In most of them an assumption of the protocol's theorems fails and
  their conclusion with it: two overlapping helpers record one nonce, two publish a torn reply, a payload is
  filed under another request's id, a helper is killed or records too late. In one an honest call gets its data.
 */
module ProtocolWitnesses {
  import opened Wrappers
  import opened Nonces
  import opened Commands
  import opened ElevProtocol
  import opened ProtocolRefinement
  import HelperDrain
  import ProtocolNonces
  import ProtocolFiles
  import ProtocolReplies

  // ----- runs put together

  lemma {:induction false} Concat(s: State, run: seq<Action>, more: seq<Action>)
    requires IsRun(s, run) && IsRun(Final(s, run), more)
    ensures IsRun(s, run + more) && Final(s, run + more) == Final(Final(s, run), more)
    decreases |run|
  {
    hide Enabled, Next;
    if run == [] {
      assert run + more == more;
    } else {
      Concat(Next(s, run[0]), run[1..], more);
      assert (run + more)[1..] == run[1..] + more;
    }
  }

  /** A call that has published its command and polls. */
  predicate Polls(s: State, id: RequestId, p: Payload) {
    && id in s.signed && s.signed[id] == p && id in s.cmd && s.cmd[id] == WholeCmd(p)
    && id in s.calls && s.calls[id] == Polling(s.nowMs) && id !in s.reply && p.createdMs == s.nowMs
  }

  /** Nothing has been executed yet. */
  predicate Quiet(s: State) {
    s.stored == map[] && s.begun == [] && s.made == {} && s.fellBack == {}
  }

  lemma NewRequest(s0: State, run: seq<Action>, id: RequestId, n: Nonce, c: Command) returns (run': seq<Action>)
    requires IsRun(s0, run) && Quiet(Final(s0, run))
    requires id !in Final(s0, run).signed && n !in Final(s0, run).born
    ensures IsRun(s0, run') && (Smooth(run) ==> Smooth(run'))
    ensures var s, s' := Final(s0, run), Final(s0, run');
            && s'.cmd == s.cmd[id := WholeCmd(Payload(s.nowMs, n, c))]
            && s'.calls == s.calls[id := Polling(s.nowMs)] && s'.unflushed == s.unflushed
            && Polls(s', id, Payload(s.nowMs, n, c)) && Quiet(s') && s'.nowMs == s.nowMs && s'.helpers == s.helpers
            && s'.signed == s.signed[id := Payload(s.nowMs, n, c)] && s'.born == s.born[n := s.nowMs]
  {
    hide Next, Enabled, IsRun, Final, Quiet;
    var s := Final(s0, run);
    Calls(s, id, n, c);
    LastStep(s0, run, Call(id, n, c));
    var s1 := Next(s, Call(id, n, c));
    PublishesCmd(s1, id);
    LastStep(s0, run + [Call(id, n, c)], PublishCmd(id));
    run' := run + [Call(id, n, c)] + [PublishCmd(id)];
  }

  lemma Calls(s: State, id: RequestId, n: Nonce, c: Command)
    requires id !in s.signed && n !in s.born && Quiet(s)
    ensures Enabled(s, Call(id, n, c))
    ensures var s' := Next(s, Call(id, n, c));
            && id in s'.calls && s'.calls[id] == Prepared && s'.nowMs == s.nowMs && s'.helpers == s.helpers && Quiet(s')
            && s'.signed == s.signed[id := Payload(s.nowMs, n, c)] && s'.born == s.born[n := s.nowMs] && id !in s'.reply
            && s'.cmd == s.cmd && s'.calls == s.calls[id := Prepared] && s'.unflushed == s.unflushed
  {
    hide Filed;
  }

  lemma PublishesCmd(s: State, id: RequestId)
    requires id in s.calls && s.calls[id] == Prepared && id in s.signed && id !in s.reply
    requires s.signed[id].createdMs == s.nowMs
    requires Quiet(s)
    ensures Enabled(s, PublishCmd(id))
    ensures var s' := Next(s, PublishCmd(id));
            && Polls(s', id, s.signed[id]) && Quiet(s') && s'.nowMs == s.nowMs && s'.helpers == s.helpers
            && s'.signed == s.signed && s'.born == s.born && s'.unflushed == s.unflushed
            && s'.cmd == s.cmd[id := WholeCmd(s.signed[id])] && s'.calls == s.calls[id := Polling(s.nowMs)]
  {
  }

  lemma Starts(s0: State, run: seq<Action>, h: HelperId, id: RequestId) returns (run': seq<Action>)
    requires IsRun(s0, run) && h !in Final(s0, run).helpers
    ensures IsRun(s0, run') && Final(s0, run') == SetHelper(Final(s0, run), h, Helper(None, [id], Idle))
  {
    LastStep(s0, run, Start(h, [id]));
    run' := run + [Start(h, [id])];
  }

  function SetHelper(s: State, h: HelperId, x: Helper): State { s.(helpers := s.helpers[h := x]) }

  /** Everything goes well, and at once. */
  function Well(nowMs: nat, data: string): HelperDrain.Env {
    HelperDrain.Env(true, nowMs, nowMs, HelperDrain.Saved, Ok(data), true, nowMs, true, true)
  }

  lemma FreshNow(nowMs: nat)
    ensures nowMs <= U64_MAX ==> Fresh(nowMs, nowMs)
  {
  }

  /** A started helper's verdict on a whole fresh command. */
  lemma ReachesVerified(s0: State, run: seq<Action>, h: HelperId, id: RequestId, p: Payload) returns (run': seq<Action>)
    requires IsRun(s0, run) && HelperIs(Final(s0, run), h, Helper(None, [id], Idle))
    requires id in Final(s0, run).cmd && Final(s0, run).cmd[id] == WholeCmd(p)
             && Fresh(Final(s0, run).nowMs, p.createdMs)
    ensures IsRun(s0, run') && (Smooth(run) ==> Smooth(run'))
    ensures var s, s' := Final(s0, run), Final(s0, run');
            && Kept(s, s', h) && s'.cmd == s.cmd - {id} && s'.reply == s.reply - {id}
            && HelperIs(s', h, Helper(None, [], Verified(id, p, s.nowMs)))
  {
    hide Kept, HelperIs, Fresh, IsRun, Final, Enabled, Next;
    var s := Final(s0, run);
    var x := Helper(None, [id], Idle);
    var more, y := ReachesContent(s, h, x);
    Concat(s0, run, more);
    if Smooth(run) { SmoothConcat(run, more); }
    var s1 := Final(s0, run + more);
    SameClock(s, s1, h);
    var e := Well(s.nowMs, "");
    run', y := ReachesVerdict(s0, run + more, h, y, e);
    assert s1.(nowMs := e.checkMs) == s1;
    KeptTwice(s, s1, Final(s0, run'), h);
    assert [id][1..] == [];
  }

  lemma SameClock(s: State, s': State, h: HelperId)
    ensures Kept(s, s', h) ==> s'.nowMs == s.nowMs
  {
  }

  // ----- one command, executed twice

  /** The first helper's way to the record. */
  lemma RecordsFirst(nowMs: nat, id: RequestId, n: Nonce, c: Command, h: HelperId, h': HelperId)
    returns (run: seq<Action>)
    requires nowMs <= U64_MAX && h != h'
    ensures IsRun(Init(map[], nowMs), run)
    ensures var s := Final(Init(map[], nowMs), run);
            && s.begun == [n] && s.stored == map[] && s.nowMs == nowMs && h' !in s.helpers
            && id in s.signed && s.signed[id] == Payload(nowMs, n, c) && id in s.calls && s.calls[id] == Polling(nowMs)
  {
    var s0, p := Init(map[], nowMs), Payload(nowMs, n, c);
    Empty(s0);
    FreshNow(nowMs);
    FirstAdmission(n, Secs(nowMs));
    hide IsRun, Final, Admit, Fresh, Apart;
    run := NewRequest(s0, [], id, n, c);
    run := Starts(s0, run, h, id);
    var s1 := Final(s0, run);
    run := ReachesVerified(s0, run, h, id, p);
    var s2 := Final(s0, run);
    var y: Helper;
    run, y := ReachesDecision(s0, run, h, Helper(None, [], Verified(id, p, nowMs)), Well(nowMs, ""));
    ApartTwice(s1, s2, Final(s0, run), h);
    ApartFrom(s1, Final(s0, run), h, h');
  }

  lemma ApartFrom(s: State, s': State, h: HelperId, h': HelperId)
    ensures Apart(s, s', h) && h' != h
            ==> s'.calls == s.calls && s'.signed == s.signed && s'.fellBack == s.fellBack && SameHelper(s, s', h')
  {
  }

  lemma FirstAdmission(n: Nonce, nowSecs: nat)
    ensures Admit(None, map[], n, nowSecs, true).isNew && Admit(None, map[], n, nowSecs, true).stored == map[]
  {
    assert Purge(map[], nowSecs) == map[];
    InsertKeys(map[], n, nowSecs);
  }

  /** A call with the shortest timeout, a helper that is still at work when it expires, and a second
      helper for the rewritten command: the nonce is recorded and the command begun twice. */
  lemma RetriedCommandRunsTwice(nowMs: nat, id: RequestId, n: Nonce, c: Command, h: HelperId, h': HelperId)
    returns (run: seq<Action>)
    requires nowMs + 15_001 <= U64_MAX && TimeoutMs(c.name) == 15_000 && h != h'
    ensures IsRun(Init(map[], nowMs), run) && Final(Init(map[], nowMs), run).begun == [n, n]
  {
    hide TimeoutMs;
    var s0 := Init(map[], nowMs);
    run := RecordsFirst(nowMs, id, n, c, h, h');
    run := TickTo(s0, run, nowMs + 15_001);
    var s := Final(s0, run);
    assert CallEnabled(s, TimeOut(id));
    assert Fresh(s.nowMs, nowMs) && n !in Purge(s.stored, Secs(s.nowMs));
    hide IsRun, Final, Fresh, Purge, CallEnabled;
    ProtocolNonces.RetryDispatchesAgain(s, id, h');
    var more := [TimeOut(id)] + ([FinishRewrite(id)] + ProtocolNonces.HelperRun(id, h'));
    Concat(s0, run, more);
    run := run + more;
  }

  // ----- one request, two helpers, a torn reply

  /** A started helper executes a whole fresh command and has the answer ready under its temporary name. */
  lemma ReachesRename(s0: State, run: seq<Action>, h: HelperId, id: RequestId, p: Payload, data: string)
    returns (run': seq<Action>, x: Helper)
    requires IsRun(s0, run) && HelperIs(Final(s0, run), h, Helper(None, [id], Idle)) && Final(s0, run).stored == map[]
    requires id in Final(s0, run).cmd && Final(s0, run).cmd[id] == WholeCmd(p)
             && Fresh(Final(s0, run).nowMs, p.createdMs)
    ensures IsRun(s0, run')
    ensures var s, s' := Final(s0, run), Final(s0, run');
            && Apart(s, s', h) && s'.nowMs == s.nowMs && id !in s'.cmd && id !in s'.reply
            && HelperIs(s', h, x) && x.work == Renaming(id)
            && id in s'.replyTmp && s'.replyTmp[id] == WholeReply(Reply(id, Ok(data), s.nowMs, true))
            && s'.made == s.made + {Made(id, p.command, data)}
  {
    hide IsRun, Final, Admit, Fresh, Apart, HelperIs;
    var s := Final(s0, run);
    var e := Well(s.nowMs, data);
    FirstAdmission(p.nonce, Secs(s.nowMs));
    run' := ReachesVerified(s0, run, h, id, p);
    var s1 := Final(s0, run');
    run', x := ReachesOutcome(s0, run', h, Helper(None, [], Verified(id, p, s.nowMs)), e);
    ApartTwice(s, s1, Final(s0, run'), h);
    var s2 := Final(s0, run');
    run' := WritesAnswer(s0, run', h, x, e);
    assert s2.(nowMs := e.replyMs) == s2;
    ApartTwice(s, s2, Final(s0, run'), h);
    x := x.(work := Renaming(id));
  }

  /** Two helpers that both found the command pending: the first has executed it and is about to
      rename the answer, the second found it gone and is about to say so. */
  lemma TwoAtWork(nowMs: nat, id: RequestId, n: Nonce, c: Command, h: HelperId, h': HelperId, data: string)
    returns (run: seq<Action>)
    requires nowMs <= U64_MAX && h != h'
    ensures IsRun(Init(map[], nowMs), run)
    ensures var s := Final(Init(map[], nowMs), run);
            && h in s.helpers && s.helpers[h].work == Renaming(id)
            && h' in s.helpers && s.helpers[h'].work.Answering? && s.helpers[h'].work.id == id
            && id in s.calls && s.calls[id].Polling? && s.fellBack == {} && Made(id, c, data) in s.made
  {
    var s0, p := Init(map[], nowMs), Payload(nowMs, n, c);
    Empty(s0);
    FreshNow(nowMs);
    hide IsRun, Final, Fresh, Apart, Kept;
    run := NewRequest(s0, [], id, n, c);
    run := Starts(s0, run, h, id);
    run := Starts(s0, run, h', id);
    var s1 := Final(s0, run);
    var x: Helper;
    run, x := ReachesRename(s0, run, h, id, p, data);
    var s2 := Final(s0, run);
    ApartFrom(s1, s2, h, h');
    var more, y := ReachesContent(s2, h', Helper(None, [id], Idle));
    Concat(s0, run, more);
    run := run + more;
    KeptIsApart(s2, Final(s0, run), h');
    ApartFrom(s2, Final(s0, run), h', h);
  }

  /** When the second begins to write in between, the call reads a torn reply although its command was
      executed, and although no helper fell back. */
  lemma TornReplyIsRead(nowMs: nat, id: RequestId, n: Nonce, c: Command, h: HelperId, h': HelperId, data: string)
    returns (run: seq<Action>)
    requires nowMs <= U64_MAX && h != h'
    ensures IsRun(Init(map[], nowMs), run)
    ensures var s := Final(Init(map[], nowMs), run);
            && id in s.calls && s.calls[id] == Holding(TornReply) && id !in s.fellBack && Made(id, c, data) in s.made
  {
    var s0 := Init(map[], nowMs);
    hide IsRun, Final;
    run := TwoAtWork(nowMs, id, n, c, h, h', data);
    ProtocolFiles.SharedRequestTears(Final(s0, run), h, h', true);
    var more := [BeginReply(h', true), PublishReply(h)];
    Concat(s0, run, more);
    run := run + more;
    ReadsReply(s0, run, id);
    run := run + [ReadReply(id)];
  }

  lemma KeptIsApart(s: State, s': State, h: HelperId)
    ensures Kept(s, s', h) ==> Apart(s, s', h) && s'.made == s.made && s'.begun == s.begun && s'.nowMs == s.nowMs
  {
  }

  lemma ReadsReply(s0: State, run: seq<Action>, id: RequestId)
    requires IsRun(s0, run)
    requires var s := Final(s0, run); id in s.calls && s.calls[id].Polling? && id in s.reply
    ensures IsRun(s0, run + [ReadReply(id)])
    ensures var s, s' := Final(s0, run), Final(s0, run + [ReadReply(id)]);
            && id in s'.calls && s'.calls[id] == Holding(s.reply[id])
            && s'.made == s.made && s'.begun == s.begun && s'.fellBack == s.fellBack && s'.nowMs == s.nowMs
            && s'.signed == s.signed
  {
    LastStep(s0, run, ReadReply(id));
    hide IsRun, Final;
  }

  // ----- a payload filed under another request's id

  /** When the command of request b is filed under a, the helper executes it for a and the call a
      returns its data as its own: nobody compares the payload with the name of its file. */
  lemma MisfiledCommandIsAnswered(nowMs: nat, a: RequestId, b: RequestId, n: Nonce, n': Nonce, c: Command, c': Command,
                                  h: HelperId, data: string)
    returns (run: seq<Action>)
    requires nowMs <= U64_MAX && a != b && n != n'
    ensures IsRun(Init(map[], nowMs), run)
    ensures var s := Final(Init(map[], nowMs), run);
            && a in s.signed && s.signed[a].command == c && a in s.calls && s.calls[a] == Returned(Ok(data))
            && s.made == {Made(a, c', data)}
  {
    var s0 := Init(map[], nowMs);
    FreshNow(nowMs);
    hide IsRun, Final, Fresh, Apart;
    run := FilesUnderOther(nowMs, a, b, n, n', c, c', h);
    var s1 := Final(s0, run);
    var x: Helper;
    run, x := ReachesRename(s0, run, h, a, Payload(nowMs, n', c'), data);
    var s2 := Final(s0, run);
    ApartFrom(s1, s2, h, h + 1);
    run := LeavesName(s0, run, h, x, true);
    KeptIsApart(s2, Final(s0, run), h);
    ApartFrom(s2, Final(s0, run), h, h + 1);
    ReadsReply(s0, run, a);
    run := run + [ReadReply(a)];
    Judges(s0, run, a);
    run := run + [Judge(a)];
  }

  lemma FilesUnderOther(nowMs: nat, a: RequestId, b: RequestId, n: Nonce, n': Nonce, c: Command, c': Command,
                        h: HelperId)
    returns (run: seq<Action>)
    requires a != b && n != n'
    ensures IsRun(Init(map[], nowMs), run)
    ensures var s := Final(Init(map[], nowMs), run);
            && a in s.signed && s.signed[a].command == c && a in s.calls && s.calls[a] == Polling(nowMs)
            && a in s.cmd && s.cmd[a] == WholeCmd(Payload(nowMs, n', c'))
            && s.nowMs == nowMs && s.stored == map[] && s.made == {}
            && HelperIs(s, h, Helper(None, [a], Idle))
  {
    var s0 := Init(map[], nowMs);
    Empty(s0);
    hide IsRun, Final;
    run := NewRequest(s0, [], b, n', c');
    run := NewRequest(s0, run, a, n, c);
    LastStep(s0, run, Misfile(a, b));
    run := run + [Misfile(a, b)];
    run := Starts(s0, run, h, a);
  }

  lemma Judges(s0: State, run: seq<Action>, id: RequestId)
    requires IsRun(s0, run)
    requires var s := Final(s0, run); id in s.calls && s.calls[id].Holding?
    ensures IsRun(s0, run + [Judge(id)])
    ensures var s, s' := Final(s0, run), Final(s0, run + [Judge(id)]);
            && id in s'.calls && s'.calls[id] == Returned(Judged(id, s.calls[id].content, s.nowMs))
            && s'.made == s.made && s'.signed == s.signed
  {
    LastStep(s0, run, Judge(id));
    hide IsRun, Final, Judged;
  }

  // ----- an honest call

  /** A call whose helper takes the command up within thirty seconds, and which reads the reply within
      thirty seconds of its date, returns the data that its own command produced. */
  lemma HonestCallGetsData(nowMs: nat, id: RequestId, n: Nonce, c: Command, h: HelperId, data: string, waitMs: nat,
                           delayMs: nat)
    returns (run: seq<Action>)
    requires waitMs <= 30_000 && delayMs <= 30_000 && nowMs + waitMs + delayMs <= 0xFFFF_FFFF_FFFF_FFFF
    ensures IsRun(Init(map[], nowMs), run)
    ensures var s := Final(Init(map[], nowMs), run);
            && id in s.signed && s.signed[id].command == c && Made(id, c, data) in s.made
            && id in s.calls && s.calls[id] == Returned(Ok(data)) && s.nowMs == nowMs + waitMs + delayMs
  {
    var s0, p, atMs := Init(map[], nowMs), Payload(nowMs, n, c), nowMs + waitMs;
    Empty(s0);
    hide IsRun, Final, Fresh, Apart;
    run := NewRequest(s0, [], id, n, c);
    run := TickTo(s0, run, atMs);
    run := Starts(s0, run, h, id);
    var s1 := Final(s0, run);
    assert Fresh(atMs, nowMs) by { HelperDrain.FreshIsWithin(atMs, nowMs); }
    var x: Helper;
    run, x := ReachesRename(s0, run, h, id, p, data);
    var s2 := Final(s0, run);
    ApartFrom(s1, s2, h, h + 1);
    run := LeavesName(s0, run, h, x, true);
    KeptIsApart(s2, Final(s0, run), h);
    ApartFrom(s2, Final(s0, run), h, h + 1);
    run := TickTo(s0, run, atMs + delayMs);
    run := TakesReply(s0, run, id);
  }

  /** From any state: a call that polls, and finds a good reply, ends with its outcome. */
  lemma TakesReply(s0: State, run: seq<Action>, id: RequestId) returns (run': seq<Action>)
    requires IsRun(s0, run)
    requires var s := Final(s0, run);
             && id in s.calls && s.calls[id].Polling? && id in s.reply && ProtocolReplies.Good(s.reply[id], id, s.nowMs)
    ensures IsRun(s0, run')
    ensures var s, s' := Final(s0, run), Final(s0, run');
            && id in s'.calls && s'.calls[id] == Returned(s.reply[id].reply.outcome)
            && s'.made == s.made && s'.signed == s.signed && s'.nowMs == s.nowMs
  {
    hide IsRun, Final, Fresh, ProtocolReplies.Good;
    ReadsReply(s0, run, id);
    run' := run + [ReadReply(id)];
    ProtocolReplies.JudgesExactly(Final(s0, run'), id);
    LastStep(s0, run', Judge(id));
    run' := run' + [Judge(id)];
    hide Next, Enabled;
  }

  // ----- short runs are serial

  predicate CheckedSince(s: State, t: nat) {
    forall h :: h in s.helpers ==> WorkSince(s.helpers[h].work, t)
  }

  predicate WorkSince(w: Work, t: nat) { w.Verified? ==> w.atMs >= t }

  lemma HelperPut(s: State, s': State, h: HelperId, x: Helper, t: nat)
    ensures CheckedSince(s, t) && WorkSince(x.work, t) && s'.helpers == s.helpers[h := x] ==> CheckedSince(s', t)
    ensures CheckedSince(s, t) && s'.helpers == s.helpers - {h} ==> CheckedSince(s', t)
  {
  }

  lemma VerdictSince(s: State, w: Work, k: bool, t: nat)
    requires w.Checking? && t <= s.nowMs
    ensures WorkSince(Checked(s, w, k), t)
  {
    hide Fresh;
  }

  /** What a helper's step other than recording and leaving makes of the helper. */
  lemma OneHelper(s: State, a: Action, t: nat) returns (x: Helper)
    requires HelperEnabled(s, a) && !a.Record? && !a.Exit? && !a.Kill? && t <= s.nowMs
    ensures HelperNext(s, a).helpers == s.helpers[a.h := x] && WorkSince(x.work, t)
  {
    x := HelperNext(s, a).helpers[a.h];
    if a.Verify? { VerdictSince(s, s.helpers[a.h].work, a.keyReadable, t); }
    hide Checked;
  }

  lemma HelperChecksLater(s: State, a: Action, t: nat)
    requires HelperEnabled(s, a) && CheckedSince(s, t) && t <= s.nowMs
    ensures CheckedSince(HelperNext(s, a), t)
  {
    hide CheckedSince, HelperNext;
    if a.Record? {
      RecordNext(s, a);
      RecordedIs(s, a.h, a.saveOk);
      HelperPut(s, HelperNext(s, a), a.h, Recorded(s, a.h, a.saveOk).helpers[a.h], t);
    } else if a.Exit? || a.Kill? {
      var f := LeaveNext(s, a);
      LeftIs(s, a.h, f);
      HelperPut(s, HelperNext(s, a), a.h, s.helpers[a.h], t);
    } else {
      var x := OneHelper(s, a, t);
      HelperPut(s, HelperNext(s, a), a.h, x, t);
    }
  }

  lemma RecordNext(s: State, a: Action)
    requires HelperEnabled(s, a) && a.Record?
    ensures HelperNext(s, a) == Recorded(s, a.h, a.saveOk)
  {
    hide Recorded;
  }

  lemma LeaveNext(s: State, a: Action) returns (flushed: bool)
    requires HelperEnabled(s, a) && (a.Exit? || a.Kill?)
    ensures HelperNext(s, a) == Left(s, a.h, flushed)
  {
    hide Left;
    flushed := a.Exit? && a.flushed;
  }

  lemma StepChecksLater(s: State, a: Action, t: nat)
    requires Enabled(s, a) && CheckedSince(s, t) && t <= s.nowMs
    ensures CheckedSince(Next(s, a), t) && s.nowMs <= Next(s, a).nowMs
  {
    hide CallEnabled, HelperEnabled, CallNext, HelperNext, WorkSince;
    if a.Tick? {
    } else if CallEnabled(s, a) {
      CallFrame(s, a);
    } else {
      HelperFrame(s, a);
      HelperChecksLater(s, a, t);
    }
  }

  lemma {:induction false} ClockRunsOn(s: State, run: seq<Action>)
    requires IsRun(s, run)
    ensures s.nowMs <= Final(s, run).nowMs
    decreases |run|
  {
    if run != [] {
      hide Enabled, Next;
      StepChecksLater(s, run[0], 0);
      ClockRunsOn(Next(s, run[0]), run[1..]);
    }
  }

  /** A run in which no helper starts, and which ends before the gap since t is over, is serial. */
  lemma {:induction false} ShortRunIsSerial(s: State, run: seq<Action>, t: nat)
    requires IsRun(s, run) && Smooth(run) && CheckedSince(s, t) && t <= s.nowMs
    requires Final(s, run).nowMs <= t + RECORD_GAP_MS
    ensures ProtocolNonces.SerialRun(s, run)
    decreases |run|
  {
    if run != [] {
      ClockRunsOn(s, run);
      assert Smooth(run[1..]) && ProtocolNonces.Serial(s, run[0]);
      hide Enabled, Next, CheckedSince, ProtocolNonces.Serial, Smooth;
      StepChecksLater(s, run[0], t);
      ShortRunIsSerial(Next(s, run[0]), run[1..], t);
    }
  }

  lemma {:induction false} SerialConcat(s: State, run: seq<Action>, more: seq<Action>)
    requires IsRun(s, run) && ProtocolNonces.SerialRun(s, run)
    requires IsRun(Final(s, run), more) && ProtocolNonces.SerialRun(Final(s, run), more)
    ensures IsRun(s, run + more) && ProtocolNonces.SerialRun(s, run + more)
    decreases |run|
  {
    Concat(s, run, more);
    hide Enabled, Next, ProtocolNonces.Serial;
    if run == [] {
      assert run + more == more;
    } else {
      SerialConcat(Next(s, run[0]), run[1..], more);
      assert (run + more)[1..] == run[1..] + more;
    }
  }

  // ----- a killed helper that costs two repeats

  lemma TwoPublished(nowMs: nat, a: RequestId, b: RequestId, n: Nonce, n': Nonce, c: Command, c': Command)
    returns (run: seq<Action>)
    requires a != b && n != n'
    ensures IsRun(Init(map[], nowMs), run) && Smooth(run)
    ensures var s := Final(Init(map[], nowMs), run);
            && Asked(s, nowMs, a, Payload(nowMs, n, c)) && Asked(s, nowMs, b, Payload(nowMs, n', c'))
            && Issued(s, a, Payload(nowMs, n, c)) && Issued(s, b, Payload(nowMs, n', c'))
            && s.helpers == map[] && s.stored == map[] && s.begun == [] && s.nowMs == nowMs && s.unflushed == 0
  {
    var s0 := Init(map[], nowMs);
    Empty(s0);
    hide IsRun, Final, Polls;
    run := NewRequest(s0, [], a, n, c);
    run := NewRequest(s0, run, b, n', c');
  }

  predicate Asked(s: State, sinceMs: nat, id: RequestId, p: Payload) {
    id in s.signed && s.signed[id] == p && id in s.calls && s.calls[id] == Polling(sinceMs)
  }

  predicate Issued(s: State, id: RequestId, p: Payload) { id in s.cmd && s.cmd[id] == WholeCmd(p) }

  /** What a helper knows when the store is empty. */
  function Known(seen: Option<Stamps>): Stamps { if seen.Some? then seen.value else map[] }

  lemma BaseOfEmpty(seen: Option<Stamps>, nowSecs: nat)
    ensures Base(seen, map[], nowSecs) == Known(seen)
  {
    assert Purge(map[], nowSecs) == map[];
  }

  /** The first two acceptances are not stored. */
  lemma SmallAdmission(seen: Option<Stamps>, n: Nonce, nowSecs: nat)
    requires |Known(seen)| <= 1 && n !in Known(seen)
    ensures Admit(seen, map[], n, nowSecs, true) == Admission(Known(seen)[n := nowSecs], map[], true)
    ensures |Known(seen)[n := nowSecs]| == |Known(seen)| + 1
    ensures Known(seen)[n := nowSecs].Keys == Known(seen).Keys + {n}
  {
    BaseOfEmpty(seen, nowSecs);
    InsertKeys(Known(seen), n, nowSecs);
    hide Known, Base;
  }

  /** One of the first two requests of a helper, when the store is empty: begun, and not stored. */
  lemma Executes(s: State, h: HelperId, x: Helper, p: Payload) returns (run: seq<Action>, y: Helper)
    requires HelperIs(s, h, x) && x.work == Idle && x.queue != [] && Issued(s, x.queue[0], p) && s.stored == map[]
    requires Fresh(s.nowMs, p.createdMs) && |Known(x.seen)| <= 1 && p.nonce !in Known(x.seen)
    ensures IsRun(s, run) && Smooth(run)
    ensures var s' := Final(s, run);
            && s'.cmd == s.cmd - {x.queue[0]} && s'.nowMs == s.nowMs && Apart(s, s', h)
            && s'.stored == map[] && s'.begun == s.begun + [p.nonce] && HelperIs(s', h, y)
            && y == Helper(Some(Known(x.seen)[p.nonce := Secs(s.nowMs)]), x.queue[1..], Idle)
            && |Known(y.seen)| == |Known(x.seen)| + 1
            && Known(y.seen).Keys == Known(x.seen).Keys + {p.nonce}
  {
    SmallAdmission(x.seen, p.nonce, Secs(s.nowMs));
    hide IsRun, Final, Apart, Admit, Fresh, HelperIs;
    var e := Well(s.nowMs, "");
    assert s.(nowMs := e.checkMs) == s;
    var o: Outcome;
    run, o := RequestRun(s, h, x, e);
    y := Helper(Some(Admit(x.seen, map[], p.nonce, Secs(s.nowMs), true).seen), x.queue[1..], Idle);
  }

  /** A helper started for two requests begins both, and stores neither nonce. */
  lemma ExecutesBoth(s: State, h: HelperId, a: RequestId, b: RequestId, p: Payload, p': Payload)
    returns (run: seq<Action>)
    requires HelperIs(s, h, Helper(None, [a, b], Idle)) && s.stored == map[] && Issued(s, a, p) && Issued(s, b, p')
    requires a != b && p.nonce != p'.nonce && Fresh(s.nowMs, p.createdMs) && Fresh(s.nowMs, p'.createdMs)
    ensures IsRun(s, run) && Smooth(run)
    ensures var s' := Final(s, run);
            && s'.begun == s.begun + [p.nonce] + [p'.nonce] && s'.stored == map[] && s'.nowMs == s.nowMs
            && Apart(s, s', h) && h in s'.helpers && s'.helpers[h].work == Idle
  {
    hide IsRun, Final, Apart, Fresh, Smooth;
    var x := Helper(None, [a, b], Idle);
    assert x.queue[1..] == [b];
    var more, y := Executes(s, h, x, p);
    var s1 := Final(s, more);
    var last, z := Executes(s1, h, y, p');
    Concat(s, more, last);
    run := more + last;
    ApartTwice(s, s1, Final(s, run), h);
    SmoothConcat(more, last);
  }

  lemma SmoothConcat(run: seq<Action>, more: seq<Action>)
    requires Smooth(run) && Smooth(more)
    ensures Smooth(run + more)
  {
  }

  /** A call whose timeout has expired writes its command once more. */
  lemma Retries(s0: State, run: seq<Action>, sinceMs: nat, id: RequestId, p: Payload) returns (run': seq<Action>)
    requires IsRun(s0, run) && Asked(Final(s0, run), sinceMs, id, p)
    requires Final(s0, run).nowMs > sinceMs + TimeoutMs(p.command.name)
    ensures IsRun(s0, run') && (Smooth(run) ==> Smooth(run'))
    ensures var s, s' := Final(s0, run), Final(s0, run');
            && s'.cmd == s.cmd[id := WholeCmd(p)] && s'.calls == s.calls[id := Relaunched] && s'.signed == s.signed
            && s'.helpers == s.helpers && s'.stored == s.stored && s'.begun == s.begun && s'.nowMs == s.nowMs
            && s'.unflushed == s.unflushed
  {
    hide TimeoutMs;
    var s := Final(s0, run);
    assert CallEnabled(s, TimeOut(id));
    hide IsRun, Final, CallEnabled;
    var s2 := ProtocolNonces.RewriteSteps(s, id);
    LastStep(s0, run, TimeOut(id));
    LastStep(s0, run + [TimeOut(id)], FinishRewrite(id));
    run' := run + [TimeOut(id)] + [FinishRewrite(id)];
  }

  lemma IsKilled(s0: State, run: seq<Action>, h: HelperId) returns (run': seq<Action>)
    requires IsRun(s0, run) && h in Final(s0, run).helpers
    ensures IsRun(s0, run') && (Smooth(run) ==> Smooth(run'))
    ensures var s, s' := Final(s0, run), Final(s0, run');
            && s'.helpers == s.helpers - {h} && s'.cmd == s.cmd && s'.calls == s.calls && s'.signed == s.signed
            && s'.stored == s.stored && s'.begun == s.begun && s'.nowMs == s.nowMs && s'.unflushed == s.unflushed + 1
  {
    hide Gone;
    LastStep(s0, run, Kill(h));
    run' := run + [Kill(h)];
  }

  /** Helpers one at a time, and every batch write works. */
  ghost predicate OneAtATime(s: State, run: seq<Action>) {
    IsRun(s, run) && ProtocolNonces.SerialRun(s, run) && ProtocolNonces.Saves(run)
  }

  lemma AddSteps(s0: State, run: seq<Action>, more: seq<Action>)
    requires OneAtATime(s0, run) && IsRun(Final(s0, run), more) && Smooth(more)
    requires CheckedSince(Final(s0, run), Final(s0, run).nowMs)
    requires Final(Final(s0, run), more).nowMs <= Final(s0, run).nowMs + RECORD_GAP_MS
    ensures IsRun(s0, run + more) && OneAtATime(s0, run + more)
    ensures Final(s0, run + more) == Final(Final(s0, run), more)
  {
    hide IsRun, Final, CheckedSince, ProtocolNonces.SerialRun;
    ShortRunIsSerial(Final(s0, run), more, Final(s0, run).nowMs);
    SerialConcat(s0, run, more);
    Concat(s0, run, more);
  }

  lemma AddHelper(s0: State, run: seq<Action>, h: HelperId, queue: seq<RequestId>) returns (run': seq<Action>)
    requires OneAtATime(s0, run) && Final(s0, run).helpers == map[]
    ensures IsRun(s0, run') && OneAtATime(s0, run')
    ensures Final(s0, run') == SetHelper(Final(s0, run), h, Helper(None, queue, Idle))
  {
    var s, step := Final(s0, run), [Start(h, queue)];
    assert step[1..] == [] && ProtocolNonces.Serial(s, step[0]);
    LastStep(s0, run, step[0]);
    assert IsRun(Next(s, step[0]), []) && ProtocolNonces.SerialRun(Next(s, step[0]), []);
    assert IsRun(s, step) && ProtocolNonces.SerialRun(s, step);
    hide IsRun, Final, ProtocolNonces.SerialRun;
    SerialConcat(s0, run, step);
    run' := run + step;
  }

  /** The first helper's work, its end, and the retries of both calls. */
  lemma KilledAndRetried(s: State, h: HelperId, a: RequestId, b: RequestId, p: Payload, p': Payload)
    returns (run: seq<Action>)
    requires s.helpers == map[h := Helper(None, [a, b], Idle)] && s.stored == map[]
    requires Issued(s, a, p) && Issued(s, b, p')
    requires a != b && p.nonce != p'.nonce && Fresh(s.nowMs, p.createdMs) && Fresh(s.nowMs, p'.createdMs)
    requires Asked(s, s.nowMs, a, p) && Asked(s, s.nowMs, b, p')
    requires TimeoutMs(p.command.name) == 15_000 && TimeoutMs(p'.command.name) == 15_000
    ensures IsRun(s, run) && Smooth(run)
    ensures var s' := Final(s, run);
            && s'.begun == s.begun + [p.nonce] + [p'.nonce] && s'.stored == map[] && s'.nowMs == s.nowMs + 15_001
            && s'.helpers == map[] && s'.unflushed == s.unflushed + 1 && Issued(s', a, p) && Issued(s', b, p')
  {
    hide IsRun, Final, Fresh, Apart, Smooth, TimeoutMs;
    run := ExecutesBoth(s, h, a, b, p, p');
    var s1 := Final(s, run);
    ApartAlone(s, s1, h);
    run := IsKilled(s, run, h);
    run := TickTo(s, run, s.nowMs + 15_001);
    run := Retries(s, run, s.nowMs, a, p);
    run := Retries(s, run, s.nowMs, b, p');
  }

  lemma ApartAlone(s: State, s': State, h: HelperId)
    requires Apart(s, s', h) && s.helpers.Keys == {h}
    ensures s'.helpers - {h} == map[] && s'.calls == s.calls && s'.signed == s.signed && s'.unflushed == s.unflushed
  {
    forall h' | h' != h ensures h' !in s'.helpers {
      assert SameHelper(s, s', h');
    }
  }

  lemma FirstIsKilled(nowMs: nat, a: RequestId, b: RequestId, p: Payload, p': Payload, h: HelperId)
    returns (run: seq<Action>)
    requires a != b && p.nonce != p'.nonce && p.createdMs == nowMs && p'.createdMs == nowMs && nowMs <= U64_MAX
    requires TimeoutMs(p.command.name) == 15_000 && TimeoutMs(p'.command.name) == 15_000
    ensures OneAtATime(Init(map[], nowMs), run)
    ensures var s := Final(Init(map[], nowMs), run);
            && s.begun == [p.nonce, p'.nonce] && s.stored == map[] && s.nowMs == nowMs + 15_001
            && s.helpers == map[] && s.unflushed == 1 && Issued(s, a, p) && Issued(s, b, p')
  {
    hide TimeoutMs;
    var s0 := Init(map[], nowMs);
    Empty(s0);
    FreshNow(nowMs);
    EmptyIsSerial(s0);
    hide IsRun, Final, Fresh, Apart, Smooth, OneAtATime, Issued;
    var first := TwoPublished(nowMs, a, b, p.nonce, p'.nonce, p.command, p'.command);
    AddSteps(s0, [], first);
    assert [] + first == first;
    run := AddHelper(s0, first, h, [a, b]);
    SameIssued(Final(s0, first), Final(s0, run), a, p);
    SameIssued(Final(s0, first), Final(s0, run), b, p');
    var more := KilledAndRetried(Final(s0, run), h, a, b, p, p');
    AddSteps(s0, run, more);
    run := run + more;
  }

  lemma SameIssued(s: State, s': State, id: RequestId, p: Payload)
    ensures Issued(s, id, p) && s'.cmd == s.cmd ==> Issued(s', id, p)
  {
  }

  /** With helpers one at a time and working batch writes, a single killed helper costs two repeats. */
  lemma KilledHelperCostsTwo(nowMs: nat, a: RequestId, b: RequestId, n: Nonce, n': Nonce, c: Command, c': Command,
                             h: HelperId, h': HelperId)
    returns (run: seq<Action>)
    requires a != b && n != n' && nowMs + 15_001 <= U64_MAX
    requires TimeoutMs(c.name) == 15_000 && TimeoutMs(c'.name) == 15_000
    ensures OneAtATime(Init(map[], nowMs), run)
    ensures var s := Final(Init(map[], nowMs), run);
            s.begun == [n, n', n, n'] && s.unflushed == 1 && ProtocolNonces.Repeats(s.begun) == 2 * s.unflushed
  {
    hide TimeoutMs;
    var s0, p, p' := Init(map[], nowMs), Payload(nowMs, n, c), Payload(nowMs, n', c');
    assert Fresh(nowMs + 15_001, nowMs);
    hide IsRun, Final, Fresh, Apart, Smooth, OneAtATime, Issued;
    var first := FirstIsKilled(nowMs, a, b, p, p', h);
    run := AddHelper(s0, first, h', [a, b]);
    SameIssued(Final(s0, first), Final(s0, run), a, p);
    SameIssued(Final(s0, first), Final(s0, run), b, p');
    var more := ExecutesBoth(Final(s0, run), h', a, b, p, p');
    AddSteps(s0, run, more);
    ApartUnflushed(Final(s0, run), Final(Final(s0, run), more), h');
    run := run + more;
    TwoRepeats(n, n');
  }

  lemma ApartUnflushed(s: State, s': State, h: HelperId)
    ensures Apart(s, s', h) ==> s'.unflushed == s.unflushed
  {
  }

  lemma EmptyIsSerial(s: State)
    ensures OneAtATime(s, [])
  {
  }

  lemma TwoRepeats(n: Nonce, n': Nonce)
    requires n != n'
    ensures ProtocolNonces.Repeats([n, n', n, n']) == 2
  {
    assert ProtocolNonces.Set([n, n', n, n']) == {n, n'};
  }

  // ----- a helper that waits too long between the check and the record

  lemma Leaves(s0: State, run: seq<Action>, h: HelperId) returns (run': seq<Action>)
    requires IsRun(s0, run) && h in Final(s0, run).helpers
    requires var x := Final(s0, run).helpers[h]; x.work == Idle && x.queue == [] && x.seen.Some?
    ensures IsRun(s0, run') && (Smooth(run) ==> Smooth(run'))
    ensures var s, s' := Final(s0, run), Final(s0, run');
            && s'.helpers == s.helpers - {h} && s'.cmd == s.cmd && s'.calls == s.calls && s'.signed == s.signed
            && s'.stored == s.helpers[h].seen.value && s'.begun == s.begun && s'.nowMs == s.nowMs
            && s'.unflushed == s.unflushed
  {
    hide Gone;
    LastStep(s0, run, Exit(h, true));
    run' := run + [Exit(h, true)];
  }

  lemma AddTick(s0: State, run: seq<Action>, ms: nat)
    requires OneAtATime(s0, run)
    ensures IsRun(s0, run + [Tick(ms)]) && OneAtATime(s0, run + [Tick(ms)])
    ensures Final(s0, run + [Tick(ms)]) == Final(s0, run).(nowMs := Final(s0, run).nowMs + ms)
  {
    var s, step := Final(s0, run), [Tick(ms)];
    LastStep(s0, run, Tick(ms));
    assert step[1..] == [] && ProtocolNonces.Serial(s, step[0]);
    assert IsRun(Next(s, step[0]), []) && ProtocolNonces.SerialRun(Next(s, step[0]), []);
    assert IsRun(s, step) && ProtocolNonces.SerialRun(s, step);
    hide IsRun, Final, ProtocolNonces.SerialRun;
    SerialConcat(s0, run, step);
  }

  /** The first helper's work and flush, the retry of the call, and the last moment of its payload. */
  lemma FlushedAndRetried(s: State, h: HelperId, id: RequestId, p: Payload) returns (run: seq<Action>)
    requires s.helpers == map[h := Helper(None, [id], Idle)] && s.stored == map[] && Issued(s, id, p)
    requires Asked(s, s.nowMs, id, p) && Fresh(s.nowMs, p.createdMs) && TimeoutMs(p.command.name) == 15_000
    ensures IsRun(s, run) && Smooth(run)
    ensures var s' := Final(s, run);
            && s'.begun == s.begun + [p.nonce] && s'.stored == map[p.nonce := Secs(s.nowMs)]
            && s'.nowMs == s.nowMs + 30_000 && s'.helpers == map[] && s'.unflushed == s.unflushed && Issued(s', id, p)
  {
    hide IsRun, Final, Fresh, Apart, Smooth, TimeoutMs, Issued;
    run := Flushed(s, h, id, p);
    run := TickTo(s, run, s.nowMs + 15_001);
    run := Retries(s, run, s.nowMs, id, p);
    run := TickTo(s, run, s.nowMs + 30_000);
    IssuedAgain(Final(s, run), id, p);
  }

  lemma IssuedAgain(s: State, id: RequestId, p: Payload)
    ensures id in s.cmd && s.cmd[id] == WholeCmd(p) ==> Issued(s, id, p)
  {
  }

  /** The only helper works, flushes and leaves. */
  lemma Flushed(s: State, h: HelperId, id: RequestId, p: Payload) returns (run: seq<Action>)
    requires s.helpers == map[h := Helper(None, [id], Idle)] && s.stored == map[] && Issued(s, id, p)
    requires Fresh(s.nowMs, p.createdMs)
    ensures IsRun(s, run) && Smooth(run)
    ensures var s' := Final(s, run);
            && s'.begun == s.begun + [p.nonce] && s'.stored == map[p.nonce := Secs(s.nowMs)]
            && s'.nowMs == s.nowMs && s'.helpers == map[] && s'.unflushed == s.unflushed
            && s'.calls == s.calls && s'.signed == s.signed
  {
    hide IsRun, Final, Fresh, Apart, Smooth, Issued;
    var y: Helper;
    run, y := Executes(s, h, Helper(None, [id], Idle), p);
    assert [id][1..] == [];
    ApartAlone(s, Final(s, run), h);
    run := Leaves(s, run, h);
  }

  lemma OnePublished(nowMs: nat, id: RequestId, n: Nonce, c: Command) returns (run: seq<Action>)
    ensures IsRun(Init(map[], nowMs), run) && Smooth(run)
    ensures var s := Final(Init(map[], nowMs), run);
            && Asked(s, nowMs, id, Payload(nowMs, n, c)) && Issued(s, id, Payload(nowMs, n, c))
            && s.helpers == map[] && s.stored == map[] && s.begun == [] && s.nowMs == nowMs && s.unflushed == 0
  {
    var s0 := Init(map[], nowMs);
    Empty(s0);
    hide IsRun, Final, Polls;
    run := NewRequest(s0, [], id, n, c);
  }

  /** The run up to the second helper's check, at the last moment of the payload. */
  lemma CheckedLate(nowMs: nat, id: RequestId, p: Payload, h: HelperId, h': HelperId) returns (run: seq<Action>)
    requires nowMs + 30_000 <= U64_MAX && p.createdMs == nowMs && TimeoutMs(p.command.name) == 15_000
    ensures IsRun(Init(map[], nowMs), run) && OneAtATime(Init(map[], nowMs), run)
    ensures var s := Final(Init(map[], nowMs), run);
            && s.begun == [p.nonce] && s.stored == map[p.nonce := Secs(nowMs)] && s.unflushed == 0
            && s.nowMs == nowMs + 30_000 && HelperIs(s, h', Helper(None, [], Verified(id, p, nowMs + 30_000)))
  {
    hide *;
    var s0 := Init(map[], nowMs);
    FreshNow(nowMs);
    FreshAtLast(nowMs);
    var first := PublishedAlone(nowMs, id, p);
    run := WorkedOff(s0, first, id, p, h);
    run := LateCheck(s0, run, h', id, p);
  }

  lemma FreshAtLast(nowMs: nat)
    ensures nowMs + 30_000 <= U64_MAX ==> Fresh(nowMs + 30_000, nowMs)
  {
  }

  lemma PublishedAlone(nowMs: nat, id: RequestId, p: Payload) returns (run: seq<Action>)
    requires p.createdMs == nowMs
    ensures IsRun(Init(map[], nowMs), run) && OneAtATime(Init(map[], nowMs), run)
    ensures var s := Final(Init(map[], nowMs), run);
            && Asked(s, nowMs, id, p) && Issued(s, id, p)
            && s.helpers == map[] && s.stored == map[] && s.begun == [] && s.nowMs == nowMs && s.unflushed == 0
  {
    var s0 := Init(map[], nowMs);
    Empty(s0);
    EmptyIsSerial(s0);
    hide IsRun, Final, Smooth, OneAtATime, Issued, Asked;
    run := OnePublished(nowMs, id, p.nonce, p.command);
    AddSteps(s0, [], run);
    assert [] + run == run;
  }

  /** A helper added for a published request: its work, its end, and the wait. */
  lemma WorkedOff(s0: State, first: seq<Action>, id: RequestId, p: Payload, h: HelperId) returns (run: seq<Action>)
    requires IsRun(s0, first) && OneAtATime(s0, first)
    requires Final(s0, first).helpers == map[] && Final(s0, first).stored == map[]
    requires Issued(Final(s0, first), id, p) && Asked(Final(s0, first), Final(s0, first).nowMs, id, p)
    requires Fresh(Final(s0, first).nowMs, p.createdMs) && TimeoutMs(p.command.name) == 15_000
    ensures IsRun(s0, run) && OneAtATime(s0, run)
    ensures var s, s' := Final(s0, first), Final(s0, run);
            && s'.begun == s.begun + [p.nonce] && s'.stored == map[p.nonce := Secs(s.nowMs)]
            && s'.nowMs == s.nowMs + 30_000 && s'.helpers == map[] && s'.unflushed == s.unflushed && Issued(s', id, p)
  {
    hide IsRun, Final, Fresh, Smooth, TimeoutMs, OneAtATime, Issued;
    var run1 := AddHelper(s0, first, h, [id]);
    SameIssued(Final(s0, first), Final(s0, run1), id, p);
    var more := FlushedAndRetried(Final(s0, run1), h, id, p);
    NoHelperChecks(Final(s0, run1), h, id);
    AddSteps(s0, run1, more);
    run := run1 + more;
  }

  lemma NoHelperChecks(s: State, h: HelperId, id: RequestId)
    ensures s.helpers == map[h := Helper(None, [id], Idle)] ==> CheckedSince(s, s.nowMs)
  {
  }

  lemma LateCheck(s0: State, run: seq<Action>, h: HelperId, id: RequestId, p: Payload) returns (run': seq<Action>)
    requires OneAtATime(s0, run) && Final(s0, run).helpers == map[] && Issued(Final(s0, run), id, p)
    requires Fresh(Final(s0, run).nowMs, p.createdMs)
    ensures IsRun(s0, run') && OneAtATime(s0, run')
    ensures var s, s' := Final(s0, run), Final(s0, run');
            && s'.begun == s.begun && s'.stored == s.stored && s'.unflushed == s.unflushed && s'.nowMs == s.nowMs
            && HelperIs(s', h, Helper(None, [], Verified(id, p, s.nowMs)))
  {
    run' := AddHelper(s0, run, h, [id]);
    var s := Final(s0, run');
    Empty(s);
    assert Smooth([]);
    hide IsRun, Final, Fresh, Smooth, OneAtATime;
    var more := ReachesVerified(s, [], h, id, p);
    KeptIsApart(s, Final(s, more), h);
    ApartUnflushed(s, Final(s, more), h);
    KeptStored(s, Final(s, more), h);
    AddSteps(s0, run', more);
    run' := run' + more;
  }

  lemma KeptStored(s: State, s': State, h: HelperId)
    ensures Kept(s, s', h) ==> s'.stored == s.stored
  {
  }

  /** One millisecond past the gap, in an otherwise serial run in which every helper flushes, a second
      helper dispatches the nonce again. */
  lemma LateRecordRunsTwice(nowMs: nat, id: RequestId, n: Nonce, c: Command, h: HelperId, h': HelperId)
    returns (run: seq<Action>)
    requires nowMs % 1000 == 999 && nowMs + 30_000 <= U64_MAX && TimeoutMs(c.name) == 15_000
    ensures OneAtATime(Init(map[], nowMs), run) && Enabled(Final(Init(map[], nowMs), run), Record(h', true))
    ensures var s := Final(Init(map[], nowMs), run);
            && h' in s.helpers && s.helpers[h'].work.Verified?
            && s.nowMs == s.helpers[h'].work.atMs + RECORD_GAP_MS + 1
            && s.unflushed == 0 && s.begun == [n] && Next(s, Record(h', true)).begun == [n, n]
  {
    hide TimeoutMs;
    var s0, p := Init(map[], nowMs), Payload(nowMs, n, c);
    hide IsRun, Final, OneAtATime;
    run := CheckedLate(nowMs, id, p, h, h');
    AddTick(s0, run, RECORD_GAP_MS + 1);
    run := run + [Tick(RECORD_GAP_MS + 1)];
    var s := Final(s0, run);
    assert n !in Purge(map[n := Secs(nowMs)], Secs(s.nowMs));
    hide Purge, Next, Enabled;
    ProtocolNonces.RecordStep(s, h');
  }
}
