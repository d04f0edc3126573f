/**
  The two accounts of the helper agree: when nothing comes between, its steps over the shared
  directory do to the nonce maps, the command and the reply what process_pending does.
 */
module ProtocolRefinement {
  import opened Wrappers
  import opened Nonces
  import opened Names
  import opened ElevProtocol
  import HelperDrain
  import DrainGuarantees

  /** A command file as a document of the queue directory. */
  function DocOf(cmd: map<RequestId, CmdFile>, id: RequestId): HelperDrain.Doc {
    if id !in cmd then HelperDrain.Unreadable
    else match cmd[id]
      case TornCmd => HelperDrain.NotJson
      case WholeCmd(p) =>
        HelperDrain.Json(HelperDrain.Valid, Some(p.createdMs), HelperDrain.CommandBody(Some(p.nonce), p.command))
  }

  /** The same data, or an error in both. */
  predicate Same(o: Outcome, o': HelperDrain.Outcome) {
    o.Ok? == o'.Ok? && (o.Ok? ==> o.value == o'.value)
  }

  function OutcomeOf(o: HelperDrain.Outcome): Outcome {
    if o.Ok? then Ok(o.value) else Err("failed")
  }

  // ----- runs, one step longer

  lemma {:induction false} LastStep(s: State, run: seq<Action>, a: Action)
    requires IsRun(s, run) && Enabled(Final(s, run), a)
    ensures IsRun(s, run + [a]) && Final(s, run + [a]) == Next(Final(s, run), a)
    decreases |run|
  {
    hide Enabled, Next;
    if run == [] {
      assert IsRun(Next(s, a), []) && ([] + [a])[1..] == [];
    } else {
      LastStep(Next(s, run[0]), run[1..], a);
      assert (run + [a])[1..] == run[1..] + [a];
    }
  }

  lemma Empty(s: State)
    ensures IsRun(s, []) && Final(s, []) == s
  {
  }

  /** A run in which no helper starts and every write of the nonce map works. */
  predicate Smooth(run: seq<Action>) {
    forall i :: 0 <= i < |run| ==> !run[i].Start? && (run[i].Record? ==> run[i].saveOk)
  }

  lemma TickTo(s: State, run: seq<Action>, nowMs: nat) returns (run': seq<Action>)
    requires IsRun(s, run) && Final(s, run).nowMs <= nowMs
    ensures Smooth(run) ==> Smooth(run')
    ensures IsRun(s, run') && Final(s, run') == Final(s, run).(nowMs := nowMs)
  {
    var a := Tick(nowMs - Final(s, run).nowMs);
    LastStep(s, run, a);
    run' := run + [a];
  }

  /** What every step of helper h leaves alone. */
  ghost predicate Apart(s: State, s': State, h: HelperId) {
    && s'.calls == s.calls && s'.signed == s.signed && s'.fellBack == s.fellBack && s'.unflushed == s.unflushed
    && forall h' :: h' != h ==> SameHelper(s, s', h')
  }

  predicate SameHelper(s: State, s': State, h: HelperId) {
    (h in s.helpers <==> h in s'.helpers) && (h in s.helpers ==> s'.helpers[h] == s.helpers[h])
  }

  /** What the steps around the nonce check leave alone, too. */
  ghost predicate Kept(s: State, s': State, h: HelperId) {
    s'.stored == s.stored && s'.begun == s.begun && s'.made == s.made && s'.nowMs == s.nowMs && Apart(s, s', h)
  }

  ghost predicate HelperIs(s: State, h: HelperId, x: Helper) { h in s.helpers && s.helpers[h] == x }

  // ----- the steps of one request

  lemma Takes(s: State, h: HelperId, x: Helper)
    requires HelperIs(s, h, x) && x.work == Idle && x.queue != []
    ensures Enabled(s, Take(h))
    ensures var s' := Next(s, Take(h));
            && Kept(s, s', h) && s'.cmd == s.cmd && s'.reply == s.reply - {x.queue[0]}
            && HelperIs(s', h, Helper(x.seen, x.queue[1..], Opening(x.queue[0])))
  {
  }

  lemma Opens(s: State, h: HelperId, x: Helper)
    requires HelperIs(s, h, x) && x.work.Opening?
    ensures Enabled(s, Open(h))
    ensures var s', id := Next(s, Open(h)), x.work.id;
            && Kept(s, s', h) && s'.cmd == s.cmd && s'.reply == s.reply
            && HelperIs(s', h, x.(work := if id in s.cmd then Opened(id, s.cmd[id])
                                          else Answering(id, Err("Cannot read command file"))))
  {
    OpensTo(s, h, x);
    hide SetWork;
  }

  lemma OpensTo(s: State, h: HelperId, x: Helper)
    requires HelperIs(s, h, x) && x.work.Opening?
    ensures Enabled(s, Open(h))
    ensures Next(s, Open(h)) == SetWork(s, h, if x.work.id in s.cmd then Opened(x.work.id, s.cmd[x.work.id])
                                              else Answering(x.work.id, Err("Cannot read command file")))
  {
    hide SetWork;
  }

  lemma Consumes(s: State, h: HelperId, x: Helper)
    requires HelperIs(s, h, x) && x.work.Opened?
    ensures Enabled(s, Consume(h))
    ensures var s' := Next(s, Consume(h));
            && Kept(s, s', h) && s'.cmd == s.cmd - {x.work.id} && s'.reply == s.reply
            && HelperIs(s', h, x.(work := Checking(x.work.id, x.work.content)))
  {
  }

  lemma Verifies(s: State, h: HelperId, x: Helper, keyReadable: bool)
    requires HelperIs(s, h, x) && x.work.Checking?
    ensures Enabled(s, Verify(h, keyReadable))
    ensures var s' := Next(s, Verify(h, keyReadable));
            && Kept(s, s', h) && s'.cmd == s.cmd && s'.reply == s.reply
            && HelperIs(s', h, x.(work := Checked(s, x.work, keyReadable)))
  {
    hide Checked;
  }

  lemma Records(s: State, h: HelperId, x: Helper, saveOk: bool)
    requires HelperIs(s, h, x) && x.work.Verified?
    ensures h in s.helpers && s.helpers[h].work.Verified?
    ensures Enabled(s, Record(h, saveOk)) && Next(s, Record(h, saveOk)) == Recorded(s, h, saveOk)
  {
    hide Recorded;
  }

  lemma Dispatches(s: State, h: HelperId, x: Helper, o: Outcome)
    requires HelperIs(s, h, x) && x.work.Dispatching?
    ensures Enabled(s, Dispatched(h, o))
    ensures var s' := Next(s, Dispatched(h, o));
            && s'.stored == s.stored && s'.begun == s.begun && s'.nowMs == s.nowMs && Apart(s, s', h)
            && s'.made == (if o.Ok? then s.made + {Made(x.work.id, x.work.payload.command, o.value)} else s.made)
            && s'.cmd == s.cmd && s'.reply == s.reply && HelperIs(s', h, x.(work := Answering(x.work.id, o)))
  {
  }

  lemma BeginsReply(s: State, h: HelperId, x: Helper, signable: bool)
    requires HelperIs(s, h, x) && x.work.Answering?
    ensures Enabled(s, BeginReply(h, signable))
    ensures var s', id := Next(s, BeginReply(h, signable)), x.work.id;
            && Kept(s, s', h) && s'.cmd == s.cmd && s'.reply == s.reply && id in s'.replyTmp
            && HelperIs(s', h, x.(work := Writing(id, Reply(id, x.work.outcome, s.nowMs, signable))))
  {
  }

  lemma EndsReply(s: State, h: HelperId, x: Helper)
    requires HelperIs(s, h, x) && x.work.Writing? && x.work.id in s.replyTmp
    ensures Enabled(s, EndReply(h))
    ensures var s', id := Next(s, EndReply(h)), x.work.id;
            && Kept(s, s', h) && s'.cmd == s.cmd && s'.reply == s.reply
            && id in s'.replyTmp && s'.replyTmp[id] == WholeReply(x.work.reply)
            && HelperIs(s', h, x.(work := Renaming(id)))
  {
  }

  lemma Publishes(s: State, h: HelperId, x: Helper)
    requires HelperIs(s, h, x) && x.work.Renaming? && x.work.id in s.replyTmp
    ensures Enabled(s, PublishReply(h))
    ensures var s', id := Next(s, PublishReply(h)), x.work.id;
            && Kept(s, s', h) && s'.cmd == s.cmd && id in s'.reply && s'.reply[id] == s.replyTmp[id]
            && HelperIs(s', h, x.(work := Idle))
  {
  }

  lemma Abandons(s: State, h: HelperId, x: Helper, removed: bool)
    requires HelperIs(s, h, x) && (x.work.Writing? || x.work.Renaming?)
    ensures Enabled(s, AbandonReply(h, removed))
    ensures var s' := Next(s, AbandonReply(h, removed));
            Kept(s, s', h) && s'.cmd == s.cmd && s'.reply == s.reply && HelperIs(s', h, x.(work := Idle))
  {
  }

  lemma KeptTwice(s: State, s1: State, s2: State, h: HelperId)
    requires Kept(s, s1, h) && Kept(s1, s2, h)
    ensures Kept(s, s2, h)
  {
    ApartTwice(s, s1, s2, h);
  }

  lemma ApartTwice(s: State, s1: State, s2: State, h: HelperId)
    requires Apart(s, s1, h) && Apart(s1, s2, h)
    ensures Apart(s, s2, h)
  {
    forall h' | h' != h ensures SameHelper(s, s2, h') {
      assert SameHelper(s, s1, h') && SameHelper(s1, s2, h');
    }
  }

  // ----- from the command to a verdict, to an outcome, to the reply

  /** Taking the request up, reading and removing its command. */
  lemma ReachesContent(s: State, h: HelperId, x: Helper) returns (run: seq<Action>, y: Helper)
    requires HelperIs(s, h, x) && x.work == Idle && x.queue != []
    ensures IsRun(s, run) && Smooth(run)
    ensures var s', id := Final(s, run), x.queue[0];
            && Kept(s, s', h) && HelperIs(s', h, y) && y.seen == x.seen && y.queue == x.queue[1..]
            && s'.cmd == s.cmd - {id} && s'.reply == s.reply - {id}
            && y.work == if id in s.cmd then Checking(id, s.cmd[id]) else Answering(id, Err("Cannot read command file"))
  {
    hide Kept, HelperIs, Enabled, Next;
    Empty(s);
    Takes(s, h, x);
    LastStep(s, [], Take(h));
    var s1 := Next(s, Take(h));
    var x1 := Helper(x.seen, x.queue[1..], Opening(x.queue[0]));
    Opens(s1, h, x1);
    LastStep(s, [] + [Take(h)], Open(h));
    var s2 := Next(s1, Open(h));
    run := [] + [Take(h)] + [Open(h)];
    var id := x.queue[0];
    KeptTwice(s, s1, s2, h);
    if id !in s.cmd {
      y := x1.(work := Answering(id, Err("Cannot read command file")));
      assert s.cmd - {id} == s.cmd;
    } else {
      var x2 := x1.(work := Opened(id, s.cmd[id]));
      Consumes(s2, h, x2);
      LastStep(s, run, Consume(h));
      KeptTwice(s, s2, Next(s2, Consume(h)), h);
      run := run + [Consume(h)];
      y := x2.(work := Checking(id, s.cmd[id]));
    }
  }

  /** Verifying it when the clock reads checkMs. */
  lemma ReachesVerdict(s0: State, run: seq<Action>, h: HelperId, x: Helper, e: HelperDrain.Env)
    returns (run': seq<Action>, y: Helper)
    requires IsRun(s0, run) && HelperIs(Final(s0, run), h, x) && x.work.Checking? && Final(s0, run).nowMs <= e.checkMs
    ensures IsRun(s0, run') && (Smooth(run) ==> Smooth(run'))
    ensures var s, s' := Final(s0, run), Final(s0, run');
            && Kept(s.(nowMs := e.checkMs), s', h) && s'.cmd == s.cmd && s'.reply == s.reply && HelperIs(s', h, y)
            && y == x.(work := Checked(s.(nowMs := e.checkMs), x.work, e.keyReadable))
  {
    hide Kept, Enabled, Next, Checked;
    run' := TickTo(s0, run, e.checkMs);
    var s1 := Final(s0, run');
    Verifies(s1, h, x, e.keyReadable);
    LastStep(s0, run', Verify(h, e.keyReadable));
    run' := run' + [Verify(h, e.keyReadable)];
    y := x.(work := Checked(s1, x.work, e.keyReadable));
  }

  /** The nonce check when the clock reads recordMs, and dispatch when the nonce is new. */
  lemma ReachesOutcome(s0: State, run: seq<Action>, h: HelperId, x: Helper, e: HelperDrain.Env)
    returns (run': seq<Action>, y: Helper)
    requires IsRun(s0, run) && HelperIs(Final(s0, run), h, x) && x.work.Verified? && Final(s0, run).nowMs <= e.recordMs
    ensures IsRun(s0, run') && (Smooth(run) && e.save.Saved? ==> Smooth(run'))
    ensures var s, s', p := Final(s0, run), Final(s0, run'), x.work.payload;
            var a := Admit(x.seen, s.stored, p.nonce, Secs(e.recordMs), e.save.Saved?);
            && s'.nowMs == e.recordMs && Apart(s, s', h) && s'.cmd == s.cmd && s'.reply == s.reply
            && s'.stored == a.stored && HelperIs(s', h, y)
            && s'.begun == (if a.isNew then s.begun + [p.nonce] else s.begun)
            && s'.made == (if a.isNew && e.outcome.Ok? then s.made + {Made(x.work.id, p.command, e.outcome.value)}
                           else s.made)
            && y == Helper(Some(a.seen), x.queue,
                           Answering(x.work.id, if a.isNew then OutcomeOf(e.outcome) else Err("Duplicate nonce")))
  {
    hide Enabled, Next, Admit, Recorded, Apart, HelperIs;
    run', y := ReachesDecision(s0, run, h, x, e);
    if y.work.Dispatching? {
      var s1, o := Final(s0, run'), OutcomeOf(e.outcome);
      Dispatches(s1, h, y, o);
      LastStep(s0, run', Dispatched(h, o));
      ApartTwice(Final(s0, run), s1, Next(s1, Dispatched(h, o)), h);
      run' := run' + [Dispatched(h, o)];
      y := y.(work := Answering(x.work.id, o));
    }
  }

  /** The nonce check alone. */
  lemma ReachesDecision(s0: State, run: seq<Action>, h: HelperId, x: Helper, e: HelperDrain.Env)
    returns (run': seq<Action>, y: Helper)
    requires IsRun(s0, run) && HelperIs(Final(s0, run), h, x) && x.work.Verified? && Final(s0, run).nowMs <= e.recordMs
    ensures IsRun(s0, run') && (Smooth(run) && e.save.Saved? ==> Smooth(run'))
    ensures var s, s', p := Final(s0, run), Final(s0, run'), x.work.payload;
            var a := Admit(x.seen, s.stored, p.nonce, Secs(e.recordMs), e.save.Saved?);
            && s'.nowMs == e.recordMs && Apart(s, s', h) && s'.cmd == s.cmd && s'.reply == s.reply && s'.made == s.made
            && s'.stored == a.stored && HelperIs(s', h, y)
            && s'.begun == (if a.isNew then s.begun + [p.nonce] else s.begun)
            && y == Helper(Some(a.seen), x.queue, if a.isNew then Dispatching(x.work.id, p)
                                                  else Answering(x.work.id, Err("Duplicate nonce")))
  {
    hide Enabled, Next, Admit, Recorded;
    run' := TickTo(s0, run, e.recordMs);
    var s := Final(s0, run');
    Records(s, h, x, e.save.Saved?);
    RecordedIs(s, h, e.save.Saved?);
    LastStep(s0, run', Record(h, e.save.Saved?));
    run' := run' + [Record(h, e.save.Saved?)];
    y := Final(s0, run').helpers[h];
  }

  /** The answer when the clock reads replyMs: written and renamed, or given up on the way. */
  lemma LeavesReply(s0: State, run: seq<Action>, h: HelperId, x: Helper, e: HelperDrain.Env) returns (run': seq<Action>)
    requires IsRun(s0, run) && HelperIs(Final(s0, run), h, x) && x.work.Answering? && Final(s0, run).nowMs <= e.replyMs
    ensures IsRun(s0, run') && (Smooth(run) ==> Smooth(run'))
    ensures var s, s', id := Final(s0, run), Final(s0, run'), x.work.id;
            && Kept(s.(nowMs := e.replyMs), s', h) && s'.cmd == s.cmd && HelperIs(s', h, x.(work := Idle))
            && if e.wrote && e.renamed
               then id in s'.reply && s'.reply[id] == WholeReply(Reply(id, x.work.outcome, e.replyMs, e.signable))
               else s'.reply == s.reply
  {
    hide Kept, Enabled, Next, HelperIs;
    if !e.wrote {
      run' := BeginsAnswer(s0, run, h, x, e);
      var s1 := Final(s0, run');
      var x1 := x.(work := Writing(x.work.id, Reply(x.work.id, x.work.outcome, e.replyMs, e.signable)));
      Abandons(s1, h, x1, false);
      LastStep(s0, run', AbandonReply(h, false));
      run' := run' + [AbandonReply(h, false)];
      KeptTwice(Final(s0, run).(nowMs := e.replyMs), s1, Next(s1, AbandonReply(h, false)), h);
    } else {
      run' := WritesAnswer(s0, run, h, x, e);
      var s2 := Final(s0, run');
      run' := LeavesName(s0, run', h, x.(work := Renaming(x.work.id)), e.renamed);
      KeptTwice(Final(s0, run).(nowMs := e.replyMs), s2, Final(s0, run'), h);
    }
  }

  lemma BeginsAnswer(s0: State, run: seq<Action>, h: HelperId, x: Helper, e: HelperDrain.Env)
    returns (run': seq<Action>)
    requires IsRun(s0, run) && HelperIs(Final(s0, run), h, x) && x.work.Answering? && Final(s0, run).nowMs <= e.replyMs
    ensures IsRun(s0, run') && (Smooth(run) ==> Smooth(run'))
    ensures var s, s', id := Final(s0, run), Final(s0, run'), x.work.id;
            && Kept(s.(nowMs := e.replyMs), s', h) && s'.cmd == s.cmd && s'.reply == s.reply && id in s'.replyTmp
            && HelperIs(s', h, x.(work := Writing(id, Reply(id, x.work.outcome, e.replyMs, e.signable))))
  {
    hide Kept, Enabled, Next;
    run' := TickTo(s0, run, e.replyMs);
    BeginsReply(Final(s0, run'), h, x, e.signable);
    LastStep(s0, run', BeginReply(h, e.signable));
    run' := run' + [BeginReply(h, e.signable)];
  }

  /** The answer whole under its temporary name. */
  lemma WritesAnswer(s0: State, run: seq<Action>, h: HelperId, x: Helper, e: HelperDrain.Env)
    returns (run': seq<Action>)
    requires IsRun(s0, run) && HelperIs(Final(s0, run), h, x) && x.work.Answering? && Final(s0, run).nowMs <= e.replyMs
    ensures IsRun(s0, run') && (Smooth(run) ==> Smooth(run'))
    ensures var s, s', id := Final(s0, run), Final(s0, run'), x.work.id;
            && Kept(s.(nowMs := e.replyMs), s', h) && s'.cmd == s.cmd && s'.reply == s.reply
            && id in s'.replyTmp && s'.replyTmp[id] == WholeReply(Reply(id, x.work.outcome, e.replyMs, e.signable))
            && HelperIs(s', h, x.(work := Renaming(id)))
  {
    hide Kept, Enabled, Next, HelperIs;
    run' := BeginsAnswer(s0, run, h, x, e);
    var s1 := Final(s0, run');
    EndsReply(s1, h, x.(work := Writing(x.work.id, Reply(x.work.id, x.work.outcome, e.replyMs, e.signable))));
    LastStep(s0, run', EndReply(h));
    run' := run' + [EndReply(h)];
    KeptTwice(Final(s0, run).(nowMs := e.replyMs), s1, Next(s1, EndReply(h)), h);
  }

  lemma LeavesName(s0: State, run: seq<Action>, h: HelperId, x: Helper, renamed: bool) returns (run': seq<Action>)
    requires IsRun(s0, run) && HelperIs(Final(s0, run), h, x) && x.work.Renaming?
             && x.work.id in Final(s0, run).replyTmp
    ensures IsRun(s0, run') && (Smooth(run) ==> Smooth(run'))
    ensures var s, s', id := Final(s0, run), Final(s0, run'), x.work.id;
            && Kept(s, s', h) && s'.cmd == s.cmd && HelperIs(s', h, x.(work := Idle))
            && if renamed then id in s'.reply && s'.reply[id] == s.replyTmp[id] else s'.reply == s.reply
  {
    hide Kept, HelperIs, Enabled, Next;
    var a := if renamed then PublishReply(h) else AbandonReply(h, true);
    if renamed { Publishes(Final(s0, run), h, x); } else { Abandons(Final(s0, run), h, x, true); }
    LastStep(s0, run, a);
    run' := run + [a];
  }

  /** What the check of a request's command comes to when the clock reads checkMs. */
  function CheckOf(s: State, id: RequestId, e: HelperDrain.Env): Work {
    if id in s.cmd then Checked(s.(nowMs := e.checkMs), Checking(id, s.cmd[id]), e.keyReadable)
    else Answering(id, Err("Cannot read command file"))
  }

  /** The helper's steps for one request, uninterrupted, up to the outcome that it answers. */
  lemma ReachesAnswer(s: State, h: HelperId, x: Helper, e: HelperDrain.Env) returns (run: seq<Action>, y: Helper)
    requires HelperIs(s, h, x) && x.work == Idle && x.queue != [] && s.nowMs <= e.checkMs <= e.recordMs <= e.replyMs
    ensures IsRun(s, run) && (e.save.Saved? ==> Smooth(run))
    ensures var s', id := Final(s, run), x.queue[0];
            var c := CheckOf(s, id, e);
            && s'.cmd == s.cmd - {id} && s'.reply == s.reply - {id} && s'.nowMs <= e.replyMs && Apart(s, s', h)
            && HelperIs(s', h, y) && y.work.Answering? && y.work.id == id && y.queue == x.queue[1..]
            && if c.Verified? then
                 var a := Admit(x.seen, s.stored, c.payload.nonce, Secs(e.recordMs), e.save.Saved?);
                 && s'.stored == a.stored && y.seen == Some(a.seen)
                 && s'.begun == (if a.isNew then s.begun + [c.payload.nonce] else s.begun)
                 && s'.made == (if a.isNew && e.outcome.Ok?
                                then s.made + {Made(id, c.payload.command, e.outcome.value)} else s.made)
                 && y.work.outcome == if a.isNew then OutcomeOf(e.outcome) else Err("Duplicate nonce")
               else
                 && s'.stored == s.stored && y.seen == x.seen
                 && s'.begun == s.begun && s'.made == s.made && c.Answering? && y.work.outcome == c.outcome
  {
    hide Admit, HelperIs, Apart, Checked;
    var id := x.queue[0];
    run, y := ReachesContent(s, h, x);
    var s1 := Final(s, run);
    if y.work.Checking? {
      CheckedSame(s1.(nowMs := e.checkMs), s.(nowMs := e.checkMs), y.work, e.keyReadable);
      CheckedShape(s.(nowMs := e.checkMs), y.work, e.keyReadable);
      run, y := ReachesVerdict(s, run, h, y, e);
      ApartSince(s, s1, e.checkMs, Final(s, run), h);
    }
    var s2 := Final(s, run);
    if y.work.Verified? {
      run, y := ReachesOutcome(s, run, h, y, e);
      ApartTwice(s, s2, Final(s, run), h);
    }
  }

  /** And up to its reply. */
  lemma RequestRun(s: State, h: HelperId, x: Helper, e: HelperDrain.Env) returns (run: seq<Action>, o: Outcome)
    requires HelperIs(s, h, x) && x.work == Idle && x.queue != [] && s.nowMs <= e.checkMs <= e.recordMs <= e.replyMs
    ensures IsRun(s, run) && (e.save.Saved? ==> Smooth(run))
    ensures var s', id := Final(s, run), x.queue[0];
            var c := CheckOf(s, id, e);
            && s'.cmd == s.cmd - {id} && s'.nowMs == e.replyMs && Apart(s, s', h)
            && (if e.wrote && e.renamed
                then id in s'.reply && s'.reply[id] == WholeReply(Reply(id, o, e.replyMs, e.signable))
                else id !in s'.reply)
            && if c.Verified? then
                 var a := Admit(x.seen, s.stored, c.payload.nonce, Secs(e.recordMs), e.save.Saved?);
                 && s'.stored == a.stored && HelperIs(s', h, Helper(Some(a.seen), x.queue[1..], Idle))
                 && s'.begun == (if a.isNew then s.begun + [c.payload.nonce] else s.begun)
                 && s'.made == (if a.isNew && e.outcome.Ok?
                                then s.made + {Made(id, c.payload.command, e.outcome.value)} else s.made)
                 && o == if a.isNew then OutcomeOf(e.outcome) else Err("Duplicate nonce")
               else
                 && s'.stored == s.stored && HelperIs(s', h, Helper(x.seen, x.queue[1..], Idle))
                 && s'.begun == s.begun && s'.made == s.made && c.Answering? && o == c.outcome
  {
    hide Admit, HelperIs, Apart, CheckOf, OutcomeOf, IsRun, Final;
    var y: Helper;
    run, y := ReachesAnswer(s, h, x, e);
    var s1 := Final(s, run);
    o := y.work.outcome;
    run := LeavesReply(s, run, h, y, e);
    ApartSince(s, s1, e.replyMs, Final(s, run), h);
  }

  lemma ApartSince(s: State, s1: State, ms: nat, s2: State, h: HelperId)
    requires Apart(s, s1, h) && Apart(s1.(nowMs := ms), s2, h)
    ensures Apart(s, s2, h)
  {
    forall h' | h' != h ensures SameHelper(s, s2, h') {
      assert SameHelper(s, s1, h') && SameHelper(s1.(nowMs := ms), s2, h');
    }
  }

  lemma CheckedShape(s: State, w: Work, keyReadable: bool)
    requires w.Checking?
    ensures var c := Checked(s, w, keyReadable); c.id == w.id && (c.Verified? || c.Answering?)
  {
    hide Fresh;
  }

  // ----- the agreement

  /** The maps, the command and the clock of both accounts before the request. */
  predicate Agree(s: State, h: HelperId, w: HelperDrain.World, e: HelperDrain.Env) {
    && h in s.helpers && s.helpers[h].work == Idle && s.helpers[h].queue != []
    && s.stored == w.disk && s.helpers[h].seen == w.seen
    && HelperDrain.Look(w.files, CmdFileName(s.helpers[h].queue[0])) == DocOf(s.cmd, s.helpers[h].queue[0])
    && s.nowMs <= e.checkMs <= e.recordMs <= e.replyMs
  }

  /** Neither account executes anything, or both execute the same command with the same nonce. */
  predicate SameExecution(s: State, s': State, w: HelperDrain.World, w': HelperDrain.World, id: RequestId,
                          e: HelperDrain.Env) {
    if w'.log == w.log then s'.begun == s.begun && s'.made == s.made
    else
      && id in s.cmd && s.cmd[id].WholeCmd?
      && var p := s.cmd[id].payload;
         && w'.log == w.log + [HelperDrain.Executed(id, HelperDrain.Signed(p.nonce, p.command))]
         && s'.begun == s.begun + [p.nonce]
         && s'.made == (if e.outcome.Ok? then s.made + {Made(id, p.command, e.outcome.value)} else s.made)
  }

  /** Neither account leaves a reply, or both leave the same one. */
  ghost predicate SameReply(s': State, w': HelperDrain.World, id: RequestId, e: HelperDrain.Env) {
    && (e.wrote && e.renamed <==> id in s'.reply) && (e.wrote && e.renamed <==> ResultFileName(id) in w'.files)
    && (e.wrote && e.renamed ==>
          && s'.reply[id].WholeReply?
          && var r := s'.reply[id].reply;
             exists o :: Same(r.outcome, o) && r == Reply(id, r.outcome, e.replyMs, e.signable)
                         && w'.files[ResultFileName(id)] == HelperDrain.Answer(id, o, e))
  }

  /** Uninterrupted, the helper's steps for a request are process_pending, whatever the clock reads at
      each of them and however the writes go: the same maps, the same execution, the command gone, and
      the same reply under the request's name. */
  lemma StepsAreProcessPending(s: State, h: HelperId, w: HelperDrain.World, e: HelperDrain.Env)
    returns (run: seq<Action>)
    requires Agree(s, h, w, e)
    ensures IsRun(s, run)
    ensures var s', id := Final(s, run), s.helpers[h].queue[0];
            var w' := HelperDrain.Processed(w, id, e);
            && h in s'.helpers && s'.helpers[h] == Helper(w'.seen, s.helpers[h].queue[1..], Idle)
            && s'.stored == w'.disk && id !in s'.cmd && s'.nowMs == e.replyMs
            && SameExecution(s, s', w, w', id, e) && SameReply(s', w', id, e)
  {
    hide HelperDrain.Processed, IsRun, Final, Admit, HelperDrain.Verdict, CmdFileName, ResultFileName;
    hide HelperDrain.Look, DocOf, HelperDrain.Answer, SameReply, Same, OutcomeOf, CheckOf;
    var x, id := s.helpers[h], s.helpers[h].queue[0];
    var o: Outcome;
    run, o := RequestRun(s, h, x, e);
    VerdictsAgree(s, id, w, e);
    ProcessedIs(w, id, e);
    var v := HelperDrain.Verdict(HelperDrain.Look(w.files, CmdFileName(id)), e);
    var o' := if v.Err? then Err(v.error)
              else if Admit(w.seen, w.disk, v.value.nonce, Secs(e.recordMs), e.save.Saved?).isNew then e.outcome
              else Err(HelperDrain.DuplicateNonce(v.value.nonce));
    OutcomesAgree(o, o', e);
    ReplyAgrees(Final(s, run), HelperDrain.Processed(w, id, e), id, e, o, o');
  }

  lemma OutcomesAgree(o: Outcome, o': HelperDrain.Outcome, e: HelperDrain.Env)
    requires (o.Err? && o'.Err?) || (o == OutcomeOf(e.outcome) && o' == e.outcome)
    ensures Same(o, o')
  {
  }

  lemma ReplyAgrees(s': State, w': HelperDrain.World, id: RequestId, e: HelperDrain.Env, o: Outcome,
                    o': HelperDrain.Outcome)
    requires Same(o, o')
    requires if e.wrote && e.renamed
             then id in s'.reply && s'.reply[id] == WholeReply(Reply(id, o, e.replyMs, e.signable))
                  && ResultFileName(id) in w'.files && w'.files[ResultFileName(id)] == HelperDrain.Answer(id, o', e)
             else id !in s'.reply && ResultFileName(id) !in w'.files
    ensures SameReply(s', w', id, e)
  {
    hide Same, ResultFileName, HelperDrain.Answer;
  }

  lemma CheckedSame(s: State, s': State, w: Work, keyReadable: bool)
    ensures w.Checking? && s.nowMs == s'.nowMs ==> Checked(s, w, keyReadable) == Checked(s', w, keyReadable)
  {
  }

  lemma VerdictsAgree(s: State, id: RequestId, w: HelperDrain.World, e: HelperDrain.Env)
    requires HelperDrain.Look(w.files, CmdFileName(id)) == DocOf(s.cmd, id)
    ensures var v, c := HelperDrain.Verdict(HelperDrain.Look(w.files, CmdFileName(id)), e), CheckOf(s, id, e);
            && (v.Err? ==> c.Answering? && c.outcome.Err?)
            && (v.Ok? ==> id in s.cmd && s.cmd[id].WholeCmd? && c.Verified? && c.payload == s.cmd[id].payload
                          && v.value == HelperDrain.Signed(c.payload.nonce, c.payload.command))
  {
    hide Fresh, CmdFileName;
  }

  lemma ProcessedIs(w: HelperDrain.World, id: RequestId, e: HelperDrain.Env)
    ensures var w' := HelperDrain.Processed(w, id, e);
            var v := HelperDrain.Verdict(HelperDrain.Look(w.files, CmdFileName(id)), e);
            && (!(e.wrote && e.renamed) ==> ResultFileName(id) !in w'.files)
            && (e.wrote && e.renamed ==> ResultFileName(id) in w'.files)
            && if v.Err? then
                 && w'.seen == w.seen && w'.disk == w.disk && w'.log == w.log
                 && (e.wrote && e.renamed ==> w'.files[ResultFileName(id)] == HelperDrain.Answer(id, Err(v.error), e))
               else
                 var a := Admit(w.seen, w.disk, v.value.nonce, Secs(e.recordMs), e.save.Saved?);
                 && w'.seen == Some(a.seen) && w'.disk == a.stored
                 && w'.log == (if a.isNew then w.log + [HelperDrain.Executed(id, v.value)] else w.log)
                 && var o := if a.isNew then e.outcome else Err(HelperDrain.DuplicateNonce(v.value.nonce));
                    e.wrote && e.renamed ==> w'.files[ResultFileName(id)] == HelperDrain.Answer(id, o, e)
  {
    DrainGuarantees.ProcessedFiles(w, id, e, "");
    hide CmdFileName, ResultFileName, Admit, HelperDrain.Verdict, HelperDrain.Answer, HelperDrain.Consumed,
      HelperDrain.Look, HelperDrain.Answered;
  }
}
