/**
  One tier of the polling hook: the in-flight flag, the stall watchdog that takes it back from a
  leg that hangs, and the legs themselves, including those that were given up and still run.
 */
module Polling {
  const STALL_MS: nat := 8000
  const FAST_POLL_LEG_MS: nat := 6000

  // ----- the flag

  /** A tick may start a leg: none is in flight, or the one that is has stalled. */
  predicate MayStart(inFlight: bool, startedAt: nat, loading: bool, nowMs: nat) {
    !loading && (!inFlight || (startedAt != 0 && nowMs > startedAt + STALL_MS))
  }

  class Tier {
    var inFlight: bool
    var startedAt: nat

    constructor ()
      ensures !inFlight && startedAt == 0
    {
      inFlight, startedAt := false, 0;
    }

    /** The flag and the start time are those of a state of the machine below. */
    ghost predicate In(s: State)
      reads this
    {
      inFlight == s.inFlight && startedAt == s.startedAt
    }

    /** The start of fastPollSystem, fastPoll and slowPoll, up to their first await. */
    method Begin(loading: bool, nowMs: nat) returns (started: bool)
      modifies this
      ensures started
              <==> !loading && (!old(inFlight) || (old(startedAt) != 0 && nowMs > old(startedAt) + 8000))
      ensures started ==> inFlight && startedAt == nowMs
      ensures !started ==> startedAt == old(startedAt)
      ensures !started ==> (inFlight <==> old(inFlight) && (old(startedAt) == 0 || nowMs <= old(startedAt) + 8000))
      ensures forall s :: old(In(s)) && s.loading == loading && s.nowMs == nowMs ==> In(Next(s, Tick))
    {
      started := false;
      if inFlight && startedAt != 0 {
        if nowMs - startedAt > STALL_MS {
          inFlight := false;
        } else {
          return;
        }
      }
      if inFlight || loading {
        return;
      }
      inFlight := true;
      startedAt := nowMs;
      started := true;
    }

    /** The end of a leg, whether it was given up or not. */
    method Finish()
      modifies this`inFlight
      ensures !inFlight
      ensures forall s, leg :: old(In(s)) && leg in s.legs ==> In(Next(s, Settle(leg)))
    {
      inFlight := false;
    }
  }

  predicate Stalled(inFlight: bool, startedAt: nat, nowMs: nat) {
    inFlight && startedAt != 0 && nowMs > startedAt + STALL_MS
  }

  // ----- ticks, legs and time

  /** The clock, the flag, when the initial load began and whether it holds the polls back, the
      running legs with their start times, and the number of legs started. */
  datatype State = State(nowMs: nat, inFlight: bool, startedAt: nat, loadedAt: nat, loading: bool,
                         legs: map<nat, nat>, count: nat)

  datatype Action = Advance(ms: nat) | Tick | Settle(leg: nat) | FinishLoad | LoadTimer

  function Init(nowMs: nat): State { State(nowMs, false, 0, nowMs, true, map[], 0) }

  predicate Enabled(s: State, a: Action) {
    match a
    case Settle(leg) => leg in s.legs
    case LoadTimer => s.nowMs >= s.loadedAt + STALL_MS + FAST_POLL_LEG_MS + 1000
    case _ => true
  }

  function Next(s: State, a: Action): State
    requires Enabled(s, a)
  {
    match a
    case Advance(ms) => s.(nowMs := s.nowMs + ms)
    case Tick =>
      if MayStart(s.inFlight, s.startedAt, s.loading, s.nowMs) then
        s.(inFlight := true, startedAt := s.nowMs, legs := s.legs[s.count := s.nowMs], count := s.count + 1)
      else s.(inFlight := s.inFlight && !Stalled(s.inFlight, s.startedAt, s.nowMs))
    case Settle(leg) => s.(inFlight := false, legs := s.legs - {leg})
    case FinishLoad => s.(loading := false)
    case LoadTimer => if s.nowMs - s.loadedAt > STALL_MS + FAST_POLL_LEG_MS then s.(loading := false) else s
  }

  predicate IsRun(s: State, run: seq<Action>)
    decreases |run|
  {
    run == [] || (Enabled(s, run[0]) && IsRun(Next(s, run[0]), run[1..]))
  }

  function Final(s: State, run: seq<Action>): State
    requires IsRun(s, run)
    decreases |run|
  {
    if run == [] then s else Final(Next(s, run[0]), run[1..])
  }

  /** No running leg is older than the stall window. */
  predicate Young(s: State) { forall leg :: leg in s.legs ==> s.nowMs <= s.legs[leg] + 8000 }

  predicate YoungRun(s: State, run: seq<Action>)
    requires IsRun(s, run)
    decreases |run|
  {
    Young(s) && (run == [] || YoungRun(Next(s, run[0]), run[1..]))
  }

  // ----- at most one leg

  /** The flag says whether a leg runs, and there is only that one. */
  predicate OneLeg(s: State) {
    && (s.inFlight <==> s.legs != map[])
    && (forall leg :: leg in s.legs ==> leg + 1 == s.count && s.legs[leg] == s.startedAt)
  }

  lemma StepKeepsOneLeg(s: State, a: Action)
    requires OneLeg(s) && Young(s) && Enabled(s, a)
    ensures OneLeg(Next(s, a))
  {
    if a.Tick? && s.inFlight {
      var leg :| leg in s.legs;
      assert s.nowMs <= s.legs[leg] + 8000;
    }
    if a.Tick? && MayStart(s.inFlight, s.startedAt, s.loading, s.nowMs) {
      assert s.count in Next(s, a).legs;
    }
    if a.Settle? {
      assert forall leg :: leg in s.legs ==> leg == a.leg;
      assert s.legs - {a.leg} == map[];
    }
  }

  lemma {:induction false} RunKeepsOneLeg(s: State, run: seq<Action>)
    requires OneLeg(s) && IsRun(s, run) && YoungRun(s, run)
    ensures OneLeg(Final(s, run))
    decreases |run|
  {
    hide OneLeg, Young, Enabled, Next;
    if run != [] {
      StepKeepsOneLeg(s, run[0]);
      RunKeepsOneLeg(Next(s, run[0]), run[1..]);
    }
  }

  /** If every leg settles within the stall window, no two legs of a tier ever run at once, over
      any ticks, window focuses and visibility changes. */
  lemma AtMostOneLeg(nowMs: nat, run: seq<Action>, a: nat, b: nat)
    requires IsRun(Init(nowMs), run) && YoungRun(Init(nowMs), run)
    requires a in Final(Init(nowMs), run).legs && b in Final(Init(nowMs), run).legs
    ensures a == b && Final(Init(nowMs), run).inFlight
  {
    RunKeepsOneLeg(Init(nowMs), run);
  }

  // ----- no assumption on the legs

  predicate Started(s: State) {
    && (s.inFlight ==> s.startedAt > 0) && s.startedAt <= s.nowMs && s.nowMs > 0
    && forall leg :: leg in s.legs ==> leg < s.count
  }

  lemma {:induction false} RunKeepsStarted(s: State, run: seq<Action>)
    requires Started(s) && IsRun(s, run)
    ensures Started(Final(s, run))
    decreases |run|
  {
    if run != [] {
      RunKeepsStarted(Next(s, run[0]), run[1..]);
    }
  }

  /** However many legs hang, once the initial load is released every tick more than the stall
      window after the last start begins a new leg beside them, and every other tick does so
      exactly when the flag is down. */
  lemma StalledTierRestarts(nowMs: nat, run: seq<Action>)
    requires nowMs > 0 && IsRun(Init(nowMs), run)
    ensures var s := Final(Init(nowMs), run);
            var s' := Next(s, Tick);
            if !s.loading && (s.nowMs > s.startedAt + 8000 || !s.inFlight)
            then s.count !in s.legs && s'.legs == s.legs[s.count := s.nowMs] && s'.startedAt == s.nowMs
            else s'.legs == s.legs && s'.startedAt == s.startedAt
  {
    RunKeepsStarted(Init(nowMs), run);
  }

  /** So once the load is released no tick leaves the tier idle or stalled. */
  lemma TickLeavesALiveLeg(nowMs: nat, run: seq<Action>)
    requires nowMs > 0 && IsRun(Init(nowMs), run) && !Final(Init(nowMs), run).loading
    ensures var s := Next(Final(Init(nowMs), run), Tick); s.inFlight && s.nowMs <= s.startedAt + 8000
  {
    RunKeepsStarted(Init(nowMs), run);
  }

  lemma {:induction false} LoadedSince(nowMs: nat, run: seq<Action>, s: State)
    requires IsRun(s, run) && s.loadedAt == nowMs
    ensures Final(s, run).loadedAt == nowMs
    decreases |run|
  {
    if run != [] { LoadedSince(nowMs, run[1..], Next(s, run[0])); }
  }

  /** The timer of the load can fire from fifteen seconds after its beginning on, and then releases it,
      whatever happened before. */
  lemma LoadTimerFires(nowMs: nat, run: seq<Action>)
    requires IsRun(Init(nowMs), run)
    ensures var s := Final(Init(nowMs), run);
            && (Enabled(s, LoadTimer) <==> s.nowMs >= nowMs + 15_000)
            && (Enabled(s, LoadTimer) ==> !Next(s, LoadTimer).loading)
  {
    LoadedSince(nowMs, run, Init(nowMs));
  }

  /** The load is released at the latest by its timer, and for good. */
  lemma {:induction false} LoadTimerReleases(s: State, run: seq<Action>)
    requires IsRun(s, run) && (!s.loading || LoadTimer in run)
    ensures !Final(s, run).loading
    decreases |run|
  {
    if run != [] {
      assert run == [run[0]] + run[1..];
      LoadTimerReleases(Next(s, run[0]), run[1..]);
    }
  }

  /** What the assumption of AtMostOneLeg is needed for: a leg that was given up and settles late
      takes down the flag of its successor, so that the next tick starts a third leg at once. */
  lemma LateLegFreesItsSuccessor(s: State, late: nat, recent: nat)
    requires late in s.legs && recent in s.legs && late != recent && recent != s.count && !s.loading && s.inFlight
    requires s.startedAt == s.legs[recent] && s.nowMs <= s.startedAt + 8000
    ensures Next(s, Tick).legs == s.legs
    ensures IsRun(s, [Settle(late), Tick])
    ensures var s' := Final(s, [Settle(late), Tick]);
            recent in s'.legs && s.count in s'.legs && s'.legs[s.count] == s.nowMs
  {
    var run := [Settle(late), Tick];
    var s1 := Next(s, run[0]);
    assert run[1..] == [Tick] && run[1..][1..] == [];
    assert recent in s1.legs;
    var s2 := Next(s1, Tick);
    assert IsRun(s2, []) && Final(s2, []) == s2;
    assert IsRun(s1, run[1..]);
  }

  lemma {:induction false} FirstStep(s: State, a: Action, rest: seq<Action>)
    requires Enabled(s, a) && IsRun(Next(s, a), rest)
    ensures IsRun(s, [a] + rest) && Final(s, [a] + rest) == Final(Next(s, a), rest)
  {
    hide Enabled, Next;
    assert ([a] + rest)[1..] == rest;
  }

  /** Two legs hang from the start; when the first of them settles, the third leg, two seconds old, gets
      a fourth beside it at the next tick. */
  function LateSettle(): seq<Action> {
    [FinishLoad] + ([Tick] + ([Advance(8001)] + ([Tick] + Then())))
  }

  function Then(): seq<Action> {
    [Advance(8001)] + ([Tick] + ([Settle(0)] + ([Advance(2000)] + ([Tick] + []))))
  }

  lemma ThreeLegsAtOnce(nowMs: nat)
    requires nowMs > 0
    ensures IsRun(Init(nowMs), LateSettle())
    ensures var s := Final(Init(nowMs), LateSettle());
            && s.legs == map[1 := nowMs + 8001, 2 := nowMs + 16_002, 3 := nowMs + 18_002]
            && s.nowMs == nowMs + 18_002
  {
    var s0 := Init(nowMs);
    var s1 := Next(s0, FinishLoad);
    var s2 := Next(s1, Tick);
    var s3 := Next(s2, Advance(8001));
    var s4 := Next(s3, Tick);
    assert s4 == State(nowMs + 8001, true, nowMs + 8001, nowMs, false, map[0 := nowMs, 1 := nowMs + 8001], 2);
    hide Init, IsRun, Final, Then;
    TwoMoreLegs(nowMs, s4);
    FirstStep(s3, Tick, Then());
    FirstStep(s2, Advance(8001), [Tick] + Then());
    FirstStep(s1, Tick, [Advance(8001)] + ([Tick] + Then()));
    FirstStep(s0, FinishLoad, [Tick] + ([Advance(8001)] + ([Tick] + Then())));
  }

  lemma TwoMoreLegs(nowMs: nat, s4: State)
    requires nowMs > 0
    requires s4 == State(nowMs + 8001, true, nowMs + 8001, nowMs, false, map[0 := nowMs, 1 := nowMs + 8001], 2)
    ensures IsRun(s4, Then())
    ensures var s := Final(s4, Then());
            && s.legs == map[1 := nowMs + 8001, 2 := nowMs + 16_002, 3 := nowMs + 18_002]
            && s.nowMs == nowMs + 18_002
  {
    var s5 := Next(s4, Advance(8001));
    var s6 := Next(s5, Tick);
    var s7 := Next(s6, Settle(0));
    assert s7.legs == map[1 := nowMs + 8001, 2 := nowMs + 16_002];
    var s8 := Next(s7, Advance(2000));
    var s9 := Next(s8, Tick);
    assert IsRun(s9, []) && Final(s9, []) == s9;
    hide IsRun, Final;
    FirstStep(s8, Tick, []);
    FirstStep(s7, Advance(2000), [Tick] + []);
    FirstStep(s6, Settle(0), [Advance(2000)] + ([Tick] + []));
    FirstStep(s5, Tick, [Settle(0)] + ([Advance(2000)] + ([Tick] + [])));
    FirstStep(s4, Advance(8001), [Tick] + ([Settle(0)] + ([Advance(2000)] + ([Tick] + []))));
  }
}
