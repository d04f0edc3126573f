/**
  At-most-once execution, over whole runs in which one helper runs at a time: a nonce is
  dispatched again only when a helper left without writing it to disk. With the flush at the
  end of every helper none is, however often a call rewrites its command; and a killed helper
  leaves at most two behind.
 */
module ProtocolNonces {
  import opened Wrappers
  import opened Nonces
  import opened Commands
  import opened ElevProtocol
  import ProtocolReplies

  // ----- the runs

  /** A helper starts when no other one is running, and records a nonce not much later than
      it checked the payload that carries it. */
  predicate Serial(s: State, a: Action) {
    && (a.Start? ==> s.helpers == map[])
    && (a.Record? && HelperEnabled(s, a) ==> s.nowMs <= s.helpers[a.h].work.atMs + RECORD_GAP_MS)
  }

  predicate SerialRun(s: State, run: seq<Action>)
    requires IsRun(s, run)
    decreases |run|
  {
    run == [] || (Serial(s, run[0]) && SerialRun(Next(s, run[0]), run[1..]))
  }

  // ----- the invariant

  predicate Single(m: map<HelperId, Helper>) {
    forall h, h' :: h in m && h' in m ==> h == h'
  }

  /** The map that the running helper has in memory, if it has loaded one. */
  ghost function Memory(m: map<HelperId, Helper>): Option<Stamps> {
    if h :| h in m then m[h].seen else None
  }

  predicate SignedBorn(signed: map<RequestId, Payload>, born: map<Nonce, nat>) {
    forall id :: id in signed ==> signed[id].nonce in born && born[signed[id].nonce] == signed[id].createdMs
  }

  predicate FiledBorn(filed: Filing, born: map<Nonce, nat>) {
    forall id, p :: id in filed && p in filed[id] ==> p.nonce in born && born[p.nonce] == p.createdMs
  }

  /** No payload is dated ahead. */
  predicate BornPast(born: map<Nonce, nat>, nowMs: nat) {
    forall n :: n in born ==> born[n] <= nowMs
  }

  predicate WorkTimed(nowMs: nat, w: Work) {
    w.Verified? ==> w.atMs <= nowMs && Fresh(w.atMs, w.payload.createdMs)
  }

  predicate AllTimed(nowMs: nat, m: map<HelperId, Helper>) {
    forall h :: h in m ==> WorkTimed(nowMs, m[h].work)
  }

  /** Every stamp was taken when the payload of its nonce was fresh. */
  predicate StampsOk(m: Stamps, born: map<Nonce, nat>) {
    forall n :: n in m ==> n in born && StampOk(born[n], m[n], 0)
  }

  predicate Remembered(memory: Option<Stamps>, stored: Stamps, n: Nonce) {
    if memory.Some? then n in memory.value else n in stored
  }

  predicate Spent(memory: Option<Stamps>, stored: Stamps, born: map<Nonce, nat>, nowMs: nat, n: Nonce) {
    n in born && (Retired(nowMs, born[n], 0) || Remembered(memory, stored, n))
  }

  /** A dispatched nonce is still known wherever it could be accepted, unless it was lost. */
  predicate AllSpent(memory: Option<Stamps>, stored: Stamps, born: map<Nonce, nat>, nowMs: nat,
                     begun: seq<Nonce>, lost: set<Nonce>) {
    forall n :: n in begun && n !in lost ==> Spent(memory, stored, born, nowMs, n)
  }

  function Set(ns: seq<Nonce>): set<Nonce> { set n | n in ns }

  /** Dispatches beyond the first of each nonce. */
  function Repeats(ns: seq<Nonce>): int { |ns| - |Set(ns)| }

  ghost predicate NonceInv(s: State) {
    && SignedBorn(s.signed, s.born) && BornPast(s.born, s.nowMs)
    && FiledBorn(s.filed, s.born)
    && AllTimed(s.nowMs, s.helpers)
    && Single(s.helpers)
    && StampsOk(s.stored, s.born)
    && (Memory(s.helpers).Some? ==> StampsOk(Memory(s.helpers).value, s.born))
    && AllSpent(Memory(s.helpers), s.stored, s.born, s.nowMs, s.begun, s.lost)
    && Repeats(s.begun) + |s.lost| <= s.loss
    && (s.unflushed == 0 ==> s.loss == 0)
  }

  // ----- the memory of the running helper

  lemma MemoryIs(m: map<HelperId, Helper>, h: HelperId)
    ensures Single(m) && h in m ==> Memory(m) == m[h].seen
  {
  }

  lemma OnlyHelper(m: map<HelperId, Helper>, h: HelperId, x: Helper)
    requires Single(m) && h in m
    ensures Single(m[h := x]) && Memory(m[h := x]) == x.seen && Single(m - {h}) && Memory(m - {h}) == None
  {
    MemoryIs(m[h := x], h);
    assert m - {h} == map[];
  }

  lemma FirstHelper(h: HelperId, x: Helper)
    ensures Single(map[][h := x]) && Memory(map[][h := x]) == x.seen && Memory(map[]) == None
  {
    var m: map<HelperId, Helper> := map[][h := x];
    assert h in m;
  }

  lemma TimedSet(nowMs: nat, m: map<HelperId, Helper>, h: HelperId, x: Helper)
    ensures AllTimed(nowMs, m) && WorkTimed(nowMs, x.work) ==> AllTimed(nowMs, m[h := x]) && AllTimed(nowMs, m - {h})
  {
  }

  // ----- the record step

  lemma PurgeStampsOk(stored: Stamps, born: map<Nonce, nat>, nowSecs: nat)
    ensures StampsOk(stored, born) ==> StampsOk(Purge(stored, nowSecs), born)
  {
  }

  /** After loading, every spent nonce is in the helper's memory or retired. */
  lemma BaseSpent(memory: Option<Stamps>, stored: Stamps, born: map<Nonce, nat>, nowMs: nat, n: Nonce)
    requires StampsOk(stored, born) && Spent(memory, stored, born, nowMs, n)
    ensures Spent(Some(Base(memory, stored, Secs(nowMs))), stored, born, nowMs, n)
  {
    if memory.None? && n in stored && n !in Purge(stored, Secs(nowMs)) {
      PurgedIsRetired(n, stored, nowMs, born[n], 0);
    }
  }

  lemma AllBaseSpent(memory: Option<Stamps>, stored: Stamps, born: map<Nonce, nat>, nowMs: nat,
                     begun: seq<Nonce>, lost: set<Nonce>)
    requires StampsOk(stored, born) && AllSpent(memory, stored, born, nowMs, begun, lost)
    ensures AllSpent(Some(Base(memory, stored, Secs(nowMs))), stored, born, nowMs, begun, lost)
  {
    hide Spent, Base, StampsOk;
    forall n | n in begun && n !in lost ensures Spent(Some(Base(memory, stored, Secs(nowMs))), stored, born, nowMs, n) {
      BaseSpent(memory, stored, born, nowMs, n);
    }
  }

  lemma RepeatsStep(begun: seq<Nonce>, lost: set<Nonce>, n: Nonce)
    requires n in begun ==> n in lost
    ensures Repeats(begun + [n]) + |lost - {n}| <= Repeats(begun) + |lost|
  {
    assert Set(begun + [n]) == Set(begun) + {n};
    if n in begun {
      assert Set(begun + [n]) == Set(begun);
      assert lost == (lost - {n}) + {n};
    } else {
      SubsetSize(lost - {n}, lost);
    }
  }

  /** A recordable nonce that the helper does not remember was never dispatched, or lost. */
  lemma UnknownIsLost(base: Stamps, stored: Stamps, born: map<Nonce, nat>, nowMs: nat, begun: seq<Nonce>,
                      lost: set<Nonce>, n: Nonce, atMs: nat)
    requires AllSpent(Some(base), stored, born, nowMs, begun, lost) && n !in base
    requires n in born && Fresh(atMs, born[n]) && nowMs <= atMs + RECORD_GAP_MS
    ensures n in begun ==> n in lost
  {
    RecordableIsNotRetired(atMs, nowMs, born[n], 0);
    assert n in begun && n !in lost ==> Spent(Some(base), stored, born, nowMs, n);
    hide Retired, Fresh;
  }

  lemma SpentAfter(base: Stamps, stored: Stamps, stored': Stamps, born: map<Nonce, nat>, nowMs: nat, begun: seq<Nonce>,
                   lost: set<Nonce>, n: Nonce, secs: nat)
    requires AllSpent(Some(base), stored, born, nowMs, begun, lost) && n in born
    ensures AllSpent(Some(base[n := secs]), stored', born, nowMs, begun + [n], lost - {n})
  {
    forall n' | n' in begun + [n] && n' !in lost - {n} ensures Spent(Some(base[n := secs]), stored', born, nowMs, n') {
      assert n' == n || (n' in begun && n' !in lost);
    }
  }

  /** What Record does to the maps, the trace and the lost nonces. */
  lemma RecordKeeps(s: State, h: HelperId, saveOk: bool)
    requires NonceInv(s) && ProtocolReplies.Inv(s) && HelperEnabled(s, Record(h, saveOk))
             && Serial(s, Record(h, saveOk))
    ensures NonceInv(Recorded(s, h, saveOk))
  {
    var w := s.helpers[h].work;
    var n, at := w.payload.nonce, w.atMs;
    VerifiedFacts(s, h);
    var base := Base(s.helpers[h].seen, s.stored, Secs(s.nowMs));
    var s' := Recorded(s, h, saveOk);
    var x := RecordMaps(s, h, saveOk);
    MemoryIs(s.helpers, h);
    AllBaseSpent(s.helpers[h].seen, s.stored, s.born, s.nowMs, s.begun, s.lost);
    BaseStampsOk(s.helpers[h].seen, s.stored, s.born, Secs(s.nowMs));
    OnlyHelper(s.helpers, h, x);
    TimedSet(s.nowMs, s.helpers, h, x);
    if n !in base {
      UnknownIsLost(base, s.stored, s.born, s.nowMs, s.begun, s.lost, n, at);
      RepeatsStep(s.begun, s.lost, n);
      SpentAfter(base, s.stored, s'.stored, s.born, s.nowMs, s.begun, s.lost, n, Secs(s.nowMs));
      RecordedStampOk(s.nowMs, w.payload.createdMs, 0);
      StampsPut(base, s.born, n, Secs(s.nowMs));
    }
    hide AllSpent, StampsOk, SignedBorn, BornPast, FiledBorn, AllTimed, Single, Repeats, Memory, Recorded, Base,
      SinceBatch;
  }

  lemma StampsPut(m: Stamps, born: map<Nonce, nat>, n: Nonce, secs: nat)
    ensures StampsOk(m, born) && n in born && StampOk(born[n], secs, 0) ==> StampsOk(m[n := secs], born)
  {
  }

  lemma BaseStampsOk(memory: Option<Stamps>, stored: Stamps, born: map<Nonce, nat>, nowSecs: nat)
    requires StampsOk(stored, born) && (memory.Some? ==> StampsOk(memory.value, born))
    ensures StampsOk(Base(memory, stored, nowSecs), born)
  {
    PurgeStampsOk(stored, born, nowSecs);
  }

  lemma VerifiedFacts(s: State, h: HelperId)
    requires NonceInv(s) && ProtocolReplies.Inv(s) && h in s.helpers && s.helpers[h].work.Verified?
    ensures var w := s.helpers[h].work;
            && w.payload.nonce in s.born && s.born[w.payload.nonce] == w.payload.createdMs
            && w.payload.createdMs <= s.nowMs && w.atMs <= s.nowMs && Fresh(w.atMs, w.payload.createdMs)
  {
    ProtocolReplies.WorkAt(s.filed, s.made, s.helpers, h);
    assert WorkTimed(s.nowMs, s.helpers[h].work);
    hide Fresh;
  }

  /** The helper afterwards, and everything that the record step changes. */
  lemma RecordMaps(s: State, h: HelperId, saveOk: bool) returns (x: Helper)
    requires h in s.helpers && s.helpers[h].work.Verified?
    ensures var n, base := s.helpers[h].work.payload.nonce, Base(s.helpers[h].seen, s.stored, Secs(s.nowMs));
            var s' := Recorded(s, h, saveOk);
            && s'.born == s.born && s'.signed == s.signed && s'.filed == s.filed && s'.nowMs == s.nowMs
            && s'.loss == s.loss && s'.unflushed == s.unflushed
            && s'.helpers == s.helpers[h := x] && !x.work.Verified?
            && if n in base then
                 x.seen == Some(base) && s'.stored == s.stored && s'.begun == s.begun && s'.lost == s.lost
               else && x.seen == Some(base[n := Secs(s.nowMs)])
                    && s'.stored == (if SinceBatch(|base[n := Secs(s.nowMs)]|) == 0 && saveOk
                                     then base[n := Secs(s.nowMs)] else s.stored)
                    && s'.begun == s.begun + [n] && s'.lost == s.lost - {n}
  {
    var w := s.helpers[h].work;
    var n := w.payload.nonce;
    var a := Admit(s.helpers[h].seen, s.stored, n, Secs(s.nowMs), saveOk);
    var work := if a.isNew then Dispatching(w.id, w.payload) else Answering(w.id, Err("Duplicate nonce"));
    x := Helper(Some(a.seen), s.helpers[h].queue, work);
    RecordedIs(s, h, saveOk);
    AdmitNew(s.helpers[h].seen, s.stored, n, Secs(s.nowMs), saveOk);
    hide Admit, Base, SinceBatch, Recorded, SameCalls;
  }

  // ----- the other steps

  /** A step that leaves the nonces alone and changes at most the work of helper h. */
  ghost predicate Quiet(s: State, s': State, h: HelperId, x: Helper) {
    && s'.nowMs == s.nowMs && s'.born == s.born && s'.signed == s.signed && s'.filed == s.filed && s'.stored == s.stored
    && s'.begun == s.begun && s'.lost == s.lost && s'.loss == s.loss && s'.unflushed == s.unflushed
    && h in s.helpers && s'.helpers == s.helpers[h := x] && x.seen == s.helpers[h].seen && WorkTimed(s.nowMs, x.work)
  }

  lemma QuietKeeps(s: State, s': State, h: HelperId, x: Helper)
    requires NonceInv(s) && Quiet(s, s', h, x)
    ensures NonceInv(s')
  {
    hide SignedBorn, BornPast, FiledBorn, AllTimed, Single, StampsOk, AllSpent, Repeats, Memory, WorkTimed;
    MemoryIs(s.helpers, h);
    OnlyHelper(s.helpers, h, x);
    TimedSet(s.nowMs, s.helpers, h, x);
  }

  lemma WorkQuiet(s: State, h: HelperId, w: Work)
    requires h in s.helpers && WorkTimed(s.nowMs, w)
    ensures Quiet(s, SetWork(s, h, w), h, s.helpers[h].(work := w))
  {
    hide WorkTimed;
  }

  lemma ReadingIsQuiet(s: State, a: Action) returns (x: Helper)
    requires HelperEnabled(s, a) && (a.Take? || a.Open? || a.Consume? || a.Verify?)
    ensures Quiet(s, HelperNext(s, a), a.h, x)
  {
    var w := s.helpers[a.h].work;
    match a {
      case Take(h) =>
        x := s.helpers[h].(queue := s.helpers[h].queue[1..], work := Opening(s.helpers[h].queue[0]));
      case Open(h) =>
        var w' := if w.id in s.cmd then Opened(w.id, s.cmd[w.id]) else Answering(w.id, Err("Cannot read command file"));
        WorkQuiet(s, h, w');
        x := s.helpers[h].(work := w');
      case Consume(h) =>
        WorkQuiet(s, h, Checking(w.id, w.content));
        x := s.helpers[h].(work := Checking(w.id, w.content));
      case Verify(h, k) =>
        WorkQuiet(s, h, Checked(s, w, k));
        x := s.helpers[h].(work := Checked(s, w, k));
    }
  }

  lemma RepliesAreQuiet(s: State, s': State, h: HelperId, x: Helper, reply: map<RequestId, ReplyFile>,
                        tmp: map<RequestId, ReplyFile>, written: set<Reply>)
    ensures Quiet(s, s', h, x) ==> Quiet(s, s'.(reply := reply, replyTmp := tmp, written := written), h, x)
  {
  }

  lemma WritingIsQuiet(s: State, a: Action) returns (x: Helper)
    requires HelperEnabled(s, a) && (a.BeginReply? || a.EndReply?)
    ensures Quiet(s, HelperNext(s, a), a.h, x)
  {
    hide Quiet;
    var w := s.helpers[a.h].work;
    var w' := if a.BeginReply? then Writing(w.id, Reply(w.id, w.outcome, s.nowMs, a.signable)) else Renaming(w.id);
    WorkQuiet(s, a.h, w');
    x := s.helpers[a.h].(work := w');
    var s' := HelperNext(s, a);
    RepliesAreQuiet(s, SetWork(s, a.h, w'), a.h, x, s'.reply, s'.replyTmp, s'.written);
    hide SetWork;
  }

  lemma PublishingIsQuiet(s: State, a: Action) returns (x: Helper)
    requires HelperEnabled(s, a) && (a.PublishReply? || a.AbandonReply?)
    ensures Quiet(s, HelperNext(s, a), a.h, x)
  {
    WorkQuiet(s, a.h, Idle);
    x := s.helpers[a.h].(work := Idle);
    hide SetWork;
  }

  lemma AnsweringIsQuiet(s: State, a: Action) returns (x: Helper)
    requires HelperEnabled(s, a) && (a.Dispatched? || a.BeginFallback? || a.EndFallback?)
    ensures Quiet(s, HelperNext(s, a), a.h, x)
  {
    var w := s.helpers[a.h].work;
    var w' :=
      if a.Dispatched? then Answering(w.id, a.outcome)
      else if a.BeginFallback? then FallingBack(a.id)
      else Idle;
    WorkQuiet(s, a.h, w');
    x := s.helpers[a.h].(work := w');
    hide SetWork;
  }

  lemma {:induction false} TickKeeps(s: State, ms: nat)
    requires NonceInv(s)
    ensures NonceInv(s.(nowMs := s.nowMs + ms))
  {
    var s' := s.(nowMs := s.nowMs + ms);
    var m := Memory(s.helpers);
    assert AllTimed(s'.nowMs, s'.helpers) by { hide Fresh; }
    assert AllSpent(m, s.stored, s.born, s'.nowMs, s.begun, s.lost) by {
      forall n | n in s.begun && n !in s.lost ensures Spent(m, s.stored, s.born, s'.nowMs, n) {
        assert Spent(m, s.stored, s.born, s.nowMs, n);
      }
    }
    assert BornPast(s.born, s'.nowMs);
    hide SignedBorn, BornPast, FiledBorn, AllTimed, Single, StampsOk, AllSpent, Repeats, Memory;
  }

  lemma BornGrows(memory: Option<Stamps>, stored: Stamps, born: map<Nonce, nat>, nowMs: nat,
                  begun: seq<Nonce>, lost: set<Nonce>, n: Nonce)
    requires AllSpent(memory, stored, born, nowMs, begun, lost) && n !in born
    ensures AllSpent(memory, stored, born[n := nowMs], nowMs, begun, lost)
  {
    forall n' | n' in begun && n' !in lost ensures Spent(memory, stored, born[n := nowMs], nowMs, n') {
      assert Spent(memory, stored, born, nowMs, n');
    }
  }

  lemma StampsGrow(m: Stamps, born: map<Nonce, nat>, n: Nonce, nowMs: nat)
    ensures StampsOk(m, born) && n !in born ==> StampsOk(m, born[n := nowMs])
  {
  }

  lemma BornStaysPast(born: map<Nonce, nat>, n: Nonce, nowMs: nat)
    ensures BornPast(born, nowMs) ==> BornPast(born[n := nowMs], nowMs)
  {
  }

  lemma SignedGrow(signed: map<RequestId, Payload>, born: map<Nonce, nat>, id: RequestId, p: Payload)
    ensures SignedBorn(signed, born) && p.nonce !in born ==> SignedBorn(signed[id := p], born[p.nonce := p.createdMs])
  {
  }

  lemma NewCallKeeps(s: State, id: RequestId, n: Nonce, c: Command)
    requires NonceInv(s) && CallEnabled(s, Call(id, n, c))
    ensures NonceInv(CallNext(s, Call(id, n, c)))
  {
    var m := Memory(s.helpers);
    BornGrows(m, s.stored, s.born, s.nowMs, s.begun, s.lost, n);
    StampsGrow(s.stored, s.born, n, s.nowMs);
    if m.Some? { StampsGrow(m.value, s.born, n, s.nowMs); }
    SignedGrow(s.signed, s.born, id, Payload(s.nowMs, n, c));
    BornStaysPast(s.born, n, s.nowMs);
    FiledGrow(s.filed, s.born, id, Payload(s.nowMs, n, c));
    hide SignedBorn, BornPast, FiledBorn, AllTimed, Single, StampsOk, AllSpent, Repeats, Memory;
  }

  lemma FiledGrow(filed: Filing, born: map<Nonce, nat>, id: RequestId, p: Payload)
    ensures FiledBorn(filed, born) && p.nonce !in born ==> FiledBorn(Filed(filed, id, p), born[p.nonce := p.createdMs])
    ensures FiledBorn(filed, born) && p.nonce in born && born[p.nonce] == p.createdMs
      ==> FiledBorn(Filed(filed, id, p), born)
  {
  }

  lemma MisfileKeeps(s: State, id: RequestId, from: RequestId)
    requires NonceInv(s) && CallEnabled(s, Misfile(id, from))
    ensures NonceInv(CallNext(s, Misfile(id, from)))
  {
    FiledGrow(s.filed, s.born, id, s.signed[from]);
    hide BornPast, FiledBorn, AllTimed, Single, StampsOk, AllSpent, Repeats, Memory, Filed;
  }

  lemma StartKeeps(s: State, h: HelperId, queue: seq<RequestId>)
    requires NonceInv(s) && s.helpers == map[]
    ensures NonceInv(s.(helpers := s.helpers[h := Helper(None, queue, Idle)]))
  {
    FirstHelper(h, Helper(None, queue, Idle));
    TimedSet(s.nowMs, s.helpers, h, Helper(None, queue, Idle));
    hide SignedBorn, BornPast, FiledBorn, AllTimed, Single, StampsOk, AllSpent, Repeats, Memory;
  }

  // ----- leaving

  lemma LeftSpent(memory: Option<Stamps>, stored: Stamps, stored': Stamps, born: map<Nonce, nat>, nowMs: nat,
                  begun: seq<Nonce>, lost: set<Nonce>, gone: set<Nonce>)
    requires AllSpent(memory, stored, born, nowMs, begun, lost)
    requires if memory.Some? then gone == Unsaved(memory.value, stored') else stored' == stored
    ensures AllSpent(None, stored', born, nowMs, begun, lost + gone)
  {
    forall n | n in begun && n !in lost + gone ensures Spent(None, stored', born, nowMs, n) {
      assert Spent(memory, stored, born, nowMs, n);
    }
  }

  lemma UnionSize(a: set<Nonce>, b: set<Nonce>)
    ensures |a + b| <= |a| + |b|
  {
    assert a + b == a + (b - a);
    SubsetSize(b - a, b);
  }

  /** Either the map is written, or what only it held is gone. */
  lemma GoneFacts(m: Option<Stamps>, stored: Stamps, flushed: bool)
    ensures var stored' := StoredAfter(m, stored, flushed);
            && (flushed || m.None? ==> |Gone(m, stored')| == 0)
            && (m.Some? ==> Gone(m, stored') == Unsaved(m.value, stored'))
            && (m.None? ==> stored' == stored)
            && (stored' == stored || (m.Some? && stored' == m.value))
            && (!flushed ==> stored' == stored)
  {
    if m.Some? { NothingUnsaved(m.value, m.value); }
    hide Unsaved;
  }

  lemma LeftKeeps(s: State, h: HelperId, flushed: bool)
    requires NonceInv(s) && h in s.helpers
    ensures NonceInv(ElevProtocol.Left(s, h, flushed))
  {
    hide SignedBorn, BornPast, FiledBorn, AllTimed, Single, StampsOk, AllSpent, Repeats, Memory, Unsaved, Gone,
      StoredAfter;
    hide ElevProtocol.Left, SameCalls;
    LeftIs(s, h, flushed);
    var m := s.helpers[h].seen;
    var stored' := StoredAfter(m, s.stored, flushed);
    var gone := Gone(m, stored');
    GoneFacts(m, s.stored, flushed);
    MemoryIs(s.helpers, h);
    OnlyHelper(s.helpers, h, s.helpers[h]);
    TimedSet(s.nowMs, s.helpers, h, Helper(None, [], Idle));
    LeftSpent(m, s.stored, stored', s.born, s.nowMs, s.begun, s.lost, gone);
    UnionSize(s.lost, gone);
  }

  // ----- whole runs

  lemma HelperStepKeeps(s: State, a: Action)
    requires NonceInv(s) && ProtocolReplies.Inv(s) && HelperEnabled(s, a) && Serial(s, a)
    ensures NonceInv(HelperNext(s, a))
  {
    hide NonceInv, ProtocolReplies.Inv, SetWork, Recorded, ElevProtocol.Left, Checked, Quiet;
    if a.Record? {
      RecordKeeps(s, a.h, a.saveOk);
    } else if a.Start? {
      StartKeeps(s, a.h, a.queue);
    } else if a.Exit? || a.Kill? {
      LeftKeeps(s, a.h, a.Exit? && a.flushed);
    } else {
      var x := QuietStep(s, a);
      QuietKeeps(s, HelperNext(s, a), a.h, x);
    }
  }

  lemma QuietStep(s: State, a: Action) returns (x: Helper)
    requires HelperEnabled(s, a) && !a.Record? && !a.Start? && !a.Exit? && !a.Kill?
    ensures Quiet(s, HelperNext(s, a), a.h, x)
  {
    hide HelperNext, Quiet;
    if a.Take? || a.Open? || a.Consume? || a.Verify? {
      x := ReadingIsQuiet(s, a);
    } else if a.BeginReply? || a.EndReply? {
      x := WritingIsQuiet(s, a);
    } else if a.PublishReply? || a.AbandonReply? {
      x := PublishingIsQuiet(s, a);
    } else {
      x := AnsweringIsQuiet(s, a);
    }
  }

  lemma StepKeeps(s: State, a: Action)
    requires NonceInv(s) && ProtocolReplies.Inv(s) && Enabled(s, a) && Serial(s, a)
    ensures NonceInv(Next(s, a))
  {
    hide ProtocolReplies.Inv, HelperNext, CallNext, HelperEnabled, CallEnabled, Serial;
    if a.Tick? {
      hide NonceInv;
      TickKeeps(s, a.ms);
    } else if !CallEnabled(s, a) {
      hide NonceInv;
      HelperStepKeeps(s, a);
    } else if a.Call? {
      hide NonceInv;
      NewCallKeeps(s, a.id, a.nonce, a.command);
    } else if a.Misfile? {
      hide NonceInv;
      MisfileKeeps(s, a.id, a.from);
    } else {
      CallFrame(s, a);
      hide SignedBorn, BornPast, FiledBorn, AllTimed, Single, StampsOk, AllSpent, Repeats, Memory;
    }
  }

  lemma {:induction false} RunKeeps(s: State, run: seq<Action>)
    requires NonceInv(s) && ProtocolReplies.Inv(s) && IsRun(s, run) && SerialRun(s, run)
    ensures NonceInv(Final(s, run))
    decreases |run|
  {
    hide NonceInv, ProtocolReplies.Inv, Enabled, Next, Serial;
    if run != [] {
      StepKeeps(s, run[0]);
      ProtocolReplies.StepKeeps(s, run[0]);
      RunKeeps(Next(s, run[0]), run[1..]);
    }
  }

  lemma InitOk(stored: Stamps, nowMs: nat)
    ensures NonceInv(Init(stored, nowMs))
  {
    var s := Init(stored, nowMs);
    assert Memory(s.helpers) == None;
    assert Set(s.begun) == {};
  }

  lemma NoRepeatsIsDistinct(ns: seq<Nonce>)
    requires Repeats(ns) <= 0
    ensures Distinct(ns)
  {
    forall i, j | 0 <= i < j < |ns| ensures ns[i] != ns[j] {
      if ns[i] == ns[j] {
        var rest := ns[..j] + ns[j + 1..];
        assert Set(ns) <= Set(rest) by {
          forall n | n in Set(ns) ensures n in Set(rest) {
            var k :| 0 <= k < |ns| && ns[k] == n;
            assert rest[if k == j then i else if k < j then k else k - 1] == n;
          }
        }
        SetSize(rest);
        SubsetSize(Set(ns), Set(rest));
      }
    }
  }

  lemma {:induction false} SetSize(ns: seq<Nonce>)
    ensures |Set(ns)| <= |ns|
  {
    if ns != [] {
      var front, last := ns[..|ns| - 1], ns[|ns| - 1];
      assert ns == front + [last];
      assert Set(ns) == Set(front) + {last};
      SetSize(front);
    }
  }

  /** Over every run whose helpers do not overlap, the dispatches beyond the first of each nonce
      are at most the nonces that helpers left with and did not write to disk. */
  lemma RepeatsAreLosses(stored: Stamps, nowMs: nat, run: seq<Action>)
    requires IsRun(Init(stored, nowMs), run) && SerialRun(Init(stored, nowMs), run)
    ensures var s := Final(Init(stored, nowMs), run); Repeats(s.begun) + |s.lost| <= s.loss
  {
    InitOk(stored, nowMs);
    ProtocolReplies.InitOk(stored, nowMs);
    RunKeeps(Init(stored, nowMs), run);
    hide SignedBorn, BornPast, FiledBorn, AllTimed, Single, StampsOk, AllSpent, Repeats, Memory, ProtocolReplies.Inv,
      IsRun, SerialRun, Final;
  }

  /** When every helper that left had written its map, no nonce is dispatched twice. */
  lemma FlushedRunsDispatchOnce(stored: Stamps, nowMs: nat, run: seq<Action>)
    requires IsRun(Init(stored, nowMs), run) && SerialRun(Init(stored, nowMs), run)
    requires Final(Init(stored, nowMs), run).unflushed == 0
    ensures Distinct(Final(Init(stored, nowMs), run).begun)
  {
    var s0 := Init(stored, nowMs);
    InitOk(stored, nowMs);
    ProtocolReplies.InitOk(stored, nowMs);
    RunKeeps(s0, run);
    NoRepeatsIsDistinct(Final(s0, run).begun);
    hide SignedBorn, BornPast, FiledBorn, AllTimed, Single, StampsOk, AllSpent, Repeats, Memory, ProtocolReplies.Inv,
      IsRun, SerialRun, Final, Distinct;
  }

  // ----- the bounded loss of a killed helper

  /** Every batch write succeeds. */
  predicate Saves(run: seq<Action>) {
    forall i :: 0 <= i < |run| && run[i].Record? ==> run[i].saveOk
  }

  predicate Batched(memory: Option<Stamps>, stored: Stamps) {
    memory.Some? ==> |Unsaved(memory.value, stored)| <= SinceBatch(|memory.value|)
  }

  ghost predicate LossInv(s: State) {
    Single(s.helpers) && Batched(Memory(s.helpers), s.stored) && s.loss <= 2 * s.unflushed
  }

  lemma RecordKeepsLoss(s: State, h: HelperId)
    requires LossInv(s) && h in s.helpers && s.helpers[h].work.Verified?
    ensures LossInv(Recorded(s, h, true))
  {
    var x := RecordMaps(s, h, true);
    MemoryIs(s.helpers, h);
    OnlyHelper(s.helpers, h, x);
    UnsavedBounded(s.helpers[h].seen, s.stored, s.helpers[h].work.payload.nonce, Secs(s.nowMs));
    AdmitNew(s.helpers[h].seen, s.stored, s.helpers[h].work.payload.nonce, Secs(s.nowMs), true);
    hide Recorded, Single, Memory, Unsaved, SinceBatch, Base, Admit;
  }

  lemma GoneIsSmall(m: Option<Stamps>, stored: Stamps, flushed: bool)
    requires Batched(m, stored)
    ensures |Gone(m, StoredAfter(m, stored, flushed))| <= if flushed then 0 else 2
  {
    GoneFacts(m, stored, flushed);
    if m.Some? { NextModThree(|m.value|); }
    hide Unsaved, SinceBatch, Gone, StoredAfter;
  }

  lemma LeftKeepsLoss(s: State, h: HelperId, flushed: bool)
    requires LossInv(s) && h in s.helpers
    ensures LossInv(ElevProtocol.Left(s, h, flushed))
  {
    hide Single, Memory, Batched, Gone, StoredAfter;
    MemoryIs(s.helpers, h);
    OnlyHelper(s.helpers, h, s.helpers[h]);
    NothingBatched(StoredAfter(s.helpers[h].seen, s.stored, flushed));
    GoneIsSmall(s.helpers[h].seen, s.stored, flushed);
  }

  lemma StepKeepsLoss(s: State, a: Action)
    requires LossInv(s) && Enabled(s, a) && Serial(s, a) && (a.Record? ==> a.saveOk)
    ensures LossInv(Next(s, a))
  {
    hide CallNext, HelperEnabled, CallEnabled, Single, Memory, Batched;
    if a.Tick? {
    } else if CallEnabled(s, a) {
      CallFrame(s, a);
    } else {
      HelperKeepsLoss(s, a);
    }
  }

  lemma HelperKeepsLoss(s: State, a: Action)
    requires LossInv(s) && HelperEnabled(s, a) && Serial(s, a) && (a.Record? ==> a.saveOk)
    ensures LossInv(HelperNext(s, a))
  {
    hide Recorded, ElevProtocol.Left, Single, Memory, Batched, SetWork, Checked;
    if a.Record? {
      RecordKeepsLoss(s, a.h);
    } else if a.Start? {
      FirstHelper(a.h, Helper(None, a.queue, Idle));
      NothingBatched(s.stored);
    } else if a.Exit? || a.Kill? {
      LeftKeepsLoss(s, a.h, a.Exit? && a.flushed);
    } else {
      QuietKeepsLoss(s, a);
    }
  }

  lemma NothingBatched(stored: Stamps)
    ensures Batched(None, stored)
  {
  }

  lemma QuietKeepsLoss(s: State, a: Action)
    requires LossInv(s) && HelperEnabled(s, a) && !a.Record? && !a.Start? && !a.Exit? && !a.Kill?
    ensures LossInv(HelperNext(s, a))
  {
    hide HelperNext, Single, Memory, Batched;
    var x := QuietStep(s, a);
    MemoryIs(s.helpers, a.h);
    OnlyHelper(s.helpers, a.h, x);
  }

  lemma {:induction false} RunKeepsLoss(s: State, run: seq<Action>)
    requires LossInv(s) && IsRun(s, run) && SerialRun(s, run) && Saves(run)
    ensures LossInv(Final(s, run))
    decreases |run|
  {
    hide LossInv, Enabled, Next, Serial;
    if run != [] {
      StepKeepsLoss(s, run[0]);
      RunKeepsLoss(Next(s, run[0]), run[1..]);
    }
  }

  /** With helpers one at a time and working batch writes, at every point of every run the
      running helper holds at most two accepted nonces that are not on disk, and all helpers
      that were killed together cost at most two repeated dispatches each. */
  lemma KilledHelperLosesTwo(stored: Stamps, nowMs: nat, run: seq<Action>, h: HelperId)
    requires IsRun(Init(stored, nowMs), run) && SerialRun(Init(stored, nowMs), run) && Saves(run)
    ensures var s := Final(Init(stored, nowMs), run);
            && (h in s.helpers && s.helpers[h].seen.Some? ==> |Unsaved(s.helpers[h].seen.value, s.stored)| <= 2)
            && Repeats(s.begun) <= 2 * s.unflushed
  {
    var s0 := Init(stored, nowMs);
    InitHoldsLoss(stored, nowMs);
    RunKeepsLoss(s0, run);
    RepeatsAreLosses(stored, nowMs, run);
    var s := Final(s0, run);
    if h in s.helpers {
      MemoryIs(s.helpers, h);
      if s.helpers[h].seen.Some? { NextModThree(|s.helpers[h].seen.value|); }
    }
    hide Single, Memory, Unsaved, SinceBatch, IsRun, SerialRun, Final, Repeats;
  }

  lemma InitHoldsLoss(stored: Stamps, nowMs: nat)
    ensures LossInv(Init(stored, nowMs))
  {
    assert Memory(map[]) == None;
  }

  // ----- why the helpers may not overlap

  /** A helper that starts for one request and records its nonce. */
  function HelperRun(id: RequestId, h: HelperId): seq<Action> {
    [Start(h, [id])] + ([Take(h)] + ([Open(h)] + CheckRun(h)))
  }

  function CheckRun(h: HelperId): seq<Action> {
    [Consume(h)] + ([Verify(h, true)] + ([Record(h, true)] + []))
  }

  function SetHelper(s: State, h: HelperId, x: Helper): State {
    s.(helpers := s.helpers[h := x])
  }

  lemma {:induction false} FirstStep(s: State, a: Action, rest: seq<Action>)
    requires Enabled(s, a) && IsRun(Next(s, a), rest)
    ensures IsRun(s, [a] + rest) && Final(s, [a] + rest) == Final(Next(s, a), rest)
  {
    hide Enabled, Next;
    var run := [a] + rest;
    assert run[0] == a && run[1..] == rest;
  }

  lemma OpenedHelperRecords(s: State, id: RequestId, h: HelperId, p: Payload)
    requires h in s.helpers && s.helpers[h] == Helper(None, [], Opened(id, WholeCmd(p))) && Fresh(s.nowMs, p.createdMs)
    ensures IsRun(s, CheckRun(h))
    ensures Final(s, CheckRun(h)).begun
            == if p.nonce in Purge(s.stored, Secs(s.nowMs)) then s.begun else s.begun + [p.nonce]
  {
    hide Fresh, Purge, IsRun, Final, Enabled, Next;
    var s1 := ConsumeStep(s, h, id);
    var s2 := VerifyStep(s1, h, id);
    RecordStep(s2, h);
    EmptyRun(Next(s2, Record(h, true)));
    FirstStep(s2, Record(h, true), []);
    FirstStep(s1, Verify(h, true), [Record(h, true)] + []);
    FirstStep(s, Consume(h), [Verify(h, true)] + ([Record(h, true)] + []));
  }

  /** Whatever else is going on, a helper that starts now dispatches the whole, fresh command of
      a request, unless the map on disk tells it not to. */
  lemma StartedHelperRecords(s: State, id: RequestId, h: HelperId, p: Payload)
    requires h !in s.helpers && id in s.cmd && s.cmd[id] == WholeCmd(p) && Fresh(s.nowMs, p.createdMs)
    ensures IsRun(s, HelperRun(id, h))
    ensures Final(s, HelperRun(id, h)).begun
            == if p.nonce in Purge(s.stored, Secs(s.nowMs)) then s.begun else s.begun + [p.nonce]
  {
    hide Fresh, Purge, IsRun, Final, Enabled, Next, CheckRun;
    var s1 := StartStep(s, h, id);
    var s2 := TakeStep(s1, h, id);
    var s3 := OpenStep(s2, h, id);
    OpenedHelperRecords(s3, id, h, p);
    FirstStep(s2, Open(h), CheckRun(h));
    FirstStep(s1, Take(h), [Open(h)] + CheckRun(h));
    FirstStep(s, Start(h, [id]), [Take(h)] + ([Open(h)] + CheckRun(h)));
  }

  lemma EmptyRun(s: State)
    ensures IsRun(s, []) && Final(s, []) == s
  {
  }

  ghost predicate SameMaps(s: State, s': State) {
    s'.nowMs == s.nowMs && s'.stored == s.stored && s'.begun == s.begun
  }

  lemma StartStep(s: State, h: HelperId, id: RequestId) returns (s': State)
    requires h !in s.helpers
    ensures Enabled(s, Start(h, [id])) && s' == Next(s, Start(h, [id])) && SameMaps(s, s') && s'.cmd == s.cmd
    ensures h in s'.helpers && s'.helpers[h] == Helper(None, [id], Idle)
  {
    s' := SetHelper(s, h, Helper(None, [id], Idle));
  }

  lemma TakeStep(s: State, h: HelperId, id: RequestId) returns (s': State)
    requires h in s.helpers && s.helpers[h] == Helper(None, [id], Idle)
    ensures Enabled(s, Take(h)) && s' == Next(s, Take(h)) && SameMaps(s, s') && s'.cmd == s.cmd
    ensures h in s'.helpers && s'.helpers[h] == Helper(None, [], Opening(id))
  {
    s' := HelperNext(s, Take(h));
  }

  lemma OpenStep(s: State, h: HelperId, id: RequestId) returns (s': State)
    requires h in s.helpers && s.helpers[h] == Helper(None, [], Opening(id)) && id in s.cmd
    ensures Enabled(s, Open(h)) && s' == Next(s, Open(h)) && SameMaps(s, s')
    ensures h in s'.helpers && s'.helpers[h] == Helper(None, [], Opened(id, s.cmd[id]))
  {
    s' := SetWork(s, h, Opened(id, s.cmd[id]));
  }

  lemma ConsumeStep(s: State, h: HelperId, id: RequestId) returns (s': State)
    requires h in s.helpers && s.helpers[h].work.Opened? && s.helpers[h].work.id == id
    ensures Enabled(s, Consume(h)) && s' == Next(s, Consume(h)) && SameMaps(s, s')
    ensures h in s'.helpers && s'.helpers[h] == s.helpers[h].(work := Checking(id, s.helpers[h].work.content))
  {
    s' := HelperNext(s, Consume(h));
  }

  lemma VerifyStep(s: State, h: HelperId, id: RequestId) returns (s': State)
    requires h in s.helpers && s.helpers[h].work.Checking? && s.helpers[h].work.id == id
    requires s.helpers[h].work.content.WholeCmd? && Fresh(s.nowMs, s.helpers[h].work.content.payload.createdMs)
    ensures Enabled(s, Verify(h, true)) && s' == Next(s, Verify(h, true)) && SameMaps(s, s')
    ensures h in s'.helpers
    ensures s'.helpers[h] == s.helpers[h].(work := Verified(id, s.helpers[h].work.content.payload, s.nowMs))
  {
    hide Fresh;
    s' := SetWork(s, h, Verified(id, s.helpers[h].work.content.payload, s.nowMs));
  }

  lemma RecordStep(s: State, h: HelperId)
    requires h in s.helpers && s.helpers[h].work.Verified? && s.helpers[h].seen.None?
    ensures Enabled(s, Record(h, true))
    ensures var n := s.helpers[h].work.payload.nonce;
            Next(s, Record(h, true)).begun == if n in Purge(s.stored, Secs(s.nowMs)) then s.begun else s.begun + [n]
  {
    var x := RecordMaps(s, h, true);
    hide Recorded, SinceBatch;
  }

  /** A call's own retry, made while an earlier helper is still at work on the request: until the
      payload is stale, a second helper dispatches the command again exactly when the first one has
      not yet written the nonce to disk. If the first one had recorded it, that is a repeat. */
  lemma RetryDispatchesAgain(s: State, id: RequestId, h: HelperId)
    requires CallEnabled(s, TimeOut(id)) && h !in s.helpers && Fresh(s.nowMs, s.signed[id].createdMs)
    ensures var run, n := [TimeOut(id)] + ([FinishRewrite(id)] + HelperRun(id, h)), s.signed[id].nonce;
            && IsRun(s, run)
            && Final(s, run).begun == (if n in Purge(s.stored, Secs(s.nowMs)) then s.begun else s.begun + [n])
            && (n in s.begun ==>
                  Repeats(Final(s, run).begun)
                  == Repeats(s.begun) + if n in Purge(s.stored, Secs(s.nowMs)) then 0 else 1)
  {
    var s1 := Next(s, TimeOut(id));
    var s2 := RewriteSteps(s, id);
    StartedHelperRecords(s2, id, h, s.signed[id]);
    if s.signed[id].nonce in s.begun { OneMoreRepeat(s.begun, s.signed[id].nonce); }
    hide *;
    FirstStep(s1, FinishRewrite(id), HelperRun(id, h));
    FirstStep(s, TimeOut(id), [FinishRewrite(id)] + HelperRun(id, h));
  }

  lemma OneMoreRepeat(begun: seq<Nonce>, n: Nonce)
    requires n in begun
    ensures Repeats(begun + [n]) == Repeats(begun) + 1
  {
    assert Set(begun + [n]) == Set(begun);
  }

  lemma RewriteSteps(s: State, id: RequestId) returns (s2: State)
    requires CallEnabled(s, TimeOut(id))
    ensures Enabled(s, TimeOut(id)) && Enabled(Next(s, TimeOut(id)), FinishRewrite(id))
    ensures s2 == Next(Next(s, TimeOut(id)), FinishRewrite(id)) && SameMaps(s, s2) && s2.helpers == s.helpers
    ensures s2.cmd == s.cmd[id := WholeCmd(s.signed[id])] && s2.calls == s.calls[id := Relaunched]
    ensures s2.signed == s.signed && s2.unflushed == s.unflushed
  {
    hide TimeoutMs;
    var s1 := CallNext(s, TimeOut(id));
    assert s1.calls[id] == Rewriting;
    s2 := CallNext(s1, FinishRewrite(id));
  }
}
