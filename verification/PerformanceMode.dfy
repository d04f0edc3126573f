/**
  The optimistic change of the performance mode beside the slow poll: what the user is shown, the
  window in which polls may not overwrite it, and the rollback.
 */
module PerformanceMode {
  import opened Wrappers

  type Mode = string

  const WRITE_WINDOW_MS: nat := 8000
  const GRACE_MS: nat := 1500

  /** A call of setPerformanceMode between its invoke and its answer; applied is the mode that the
      machine took on meanwhile. */
  datatype Write = Write(requested: Mode, before: Mode, sinceMs: nat, applied: Option<Mode>)

  /** A slow poll leg; read is what it got from the machine, once it has asked. */
  datatype Leg = Leg(sinceMs: nat, read: Option<Mode>)

  datatype State = State(nowMs: nat, machine: Mode, shown: Mode, dirtyUntil: nat, write: Option<Write>,
                         legs: map<nat, Leg>)

  datatype Action =
    | Advance(ms: nat)
    | BeginWrite(mode: Mode)
    | Apply(mode: Mode)
    | Confirm
    | Fail
    | BeginLeg(leg: nat)
    | Read(leg: nat)
    | EndLeg(leg: nat, failed: bool)

  predicate Enabled(s: State, a: Action) {
    match a
    case Advance(_) => true
    case BeginWrite(_) => s.write.None?
    case Apply(_) => s.write.Some? && s.write.value.applied.None?
    case Confirm => s.write.Some? && s.write.value.applied.Some?
    case Fail => s.write.Some?
    case BeginLeg(leg) => leg !in s.legs
    case Read(leg) => leg in s.legs && s.legs[leg].read.None?
    case EndLeg(leg, failed) => leg in s.legs && (failed || s.legs[leg].read.Some?)
  }

  function Next(s: State, a: Action): State
    requires Enabled(s, a)
  {
    match a
    case Advance(ms) => s.(nowMs := s.nowMs + ms)
    case BeginWrite(mode) =>
      s.(write := Some(Write(mode, s.shown, s.nowMs, None)), shown := mode, dirtyUntil := s.nowMs + WRITE_WINDOW_MS)
    case Apply(mode) => s.(machine := mode, write := Some(s.write.value.(applied := Some(mode))))
    case Confirm => s.(write := None, shown := s.write.value.applied.value, dirtyUntil := s.nowMs + GRACE_MS)
    case Fail => s.(write := None, shown := s.write.value.before, dirtyUntil := 0)
    case BeginLeg(leg) => s.(legs := s.legs[leg := Leg(s.nowMs, None)])
    case Read(leg) => s.(legs := s.legs[leg := s.legs[leg].(read := Some(s.machine))])
    case EndLeg(leg, failed) =>
      var s' := s.(legs := s.legs - {leg});
      if !failed && s.nowMs >= s.dirtyUntil then s'.(shown := s.legs[leg].read.value) else s'
  }

  predicate IsRun(s: State, run: seq<Action>)
    decreases |run|
  {
    run == [] || (Enabled(s, run[0]) && IsRun(Next(s, run[0]), run[1..]))
  }

  function Final(s: State, run: seq<Action>): State
    requires IsRun(s, run)
    decreases |run|
  {
    if run == [] then s else Final(Next(s, run[0]), run[1..])
  }

  function Init(nowMs: nat, mode: Mode): State { State(nowMs, mode, mode, 0, None, map[]) }

  // ----- when the window is wide enough

  /** A write is answered within its window, and a leg settles within the grace period. */
  predicate InTime(s: State) {
    && (s.write.Some? ==> s.nowMs < s.write.value.sinceMs + 8000)
    && (forall leg :: leg in s.legs ==> s.nowMs < s.legs[leg].sinceMs + 1500)
  }

  /** A write that fails left the machine as it was, and did not begin in the grace period of the
      one before. */
  predicate FailsCleanly(s: State, a: Action, calm: bool) {
    a.Fail? && s.write.Some? ==> s.write.value.applied.None? && calm
  }

  /** Whether the last write began outside the window of the one before. */
  function Calm(s: State, a: Action, calm: bool): bool {
    if a.BeginWrite? then s.nowMs >= s.dirtyUntil else calm
  }

  predicate TimelyRun(s: State, run: seq<Action>, calm: bool)
    requires IsRun(s, run)
    decreases |run|
  {
    && InTime(s)
    && (run == []
        || (FailsCleanly(s, run[0], calm) && TimelyRun(Next(s, run[0]), run[1..], Calm(s, run[0], calm))))
  }

  /** A leg holds the machine's mode, or will be discarded. */
  predicate LegOk(leg: Leg, machine: Mode, until: nat) {
    leg.read.Some? ==> leg.read.value == machine || leg.sinceMs + GRACE_MS <= until
  }

  /** Until when outdated legs are kept out. */
  function Guard(s: State, calm: bool): nat {
    if s.write.None? then s.dirtyUntil
    else if s.write.value.applied.Some? then s.nowMs + GRACE_MS
    else if calm then 0
    else s.write.value.sinceMs + GRACE_MS
  }

  predicate LegsOk(s: State, calm: bool) {
    forall leg :: leg in s.legs ==> LegOk(s.legs[leg], s.machine, Guard(s, calm)) && s.legs[leg].sinceMs <= s.nowMs
  }

  predicate ShownOk(s: State) {
    match s.write
    case None => s.shown == s.machine && s.dirtyUntil <= s.nowMs + GRACE_MS
    case Some(w) =>
      && s.shown == w.requested && s.dirtyUntil == w.sinceMs + WRITE_WINDOW_MS && w.sinceMs <= s.nowMs
      && s.machine == (if w.applied.Some? then w.applied.value else w.before)
  }

  predicate Inv(s: State, calm: bool) { LegsOk(s, calm) && ShownOk(s) }

  lemma StepKeeps(s: State, a: Action, calm: bool)
    ensures Inv(s, calm) && Enabled(s, a) && InTime(s) && FailsCleanly(s, a, calm) ==> Inv(Next(s, a), Calm(s, a, calm))
  {
  }

  lemma {:induction false} RunKeeps(s: State, run: seq<Action>, calm: bool) returns (calm': bool)
    requires Inv(s, calm) && IsRun(s, run) && TimelyRun(s, run, calm)
    ensures Inv(Final(s, run), calm')
    decreases |run|
  {
    hide Inv, Enabled, Next, InTime, FailsCleanly;
    if run == [] {
      calm' := calm;
    } else {
      StepKeeps(s, run[0], calm);
      calm' := RunKeeps(Next(s, run[0]), run[1..], Calm(s, run[0], calm));
    }
  }

  /** Then the user is always shown the requested mode while a write is under way, and the mode the
      machine is in at all other times, whatever the polls read and when. */
  lemma ShownIsRight(nowMs: nat, mode: Mode, run: seq<Action>)
    requires IsRun(Init(nowMs, mode), run) && TimelyRun(Init(nowMs, mode), run, true)
    ensures var s := Final(Init(nowMs, mode), run);
            s.shown == if s.write.Some? then s.write.value.requested else s.machine
  {
    var calm' := RunKeeps(Init(nowMs, mode), run, true);
  }

  // ----- and that no less will do

  lemma {:induction false} FirstStep(s: State, a: Action, rest: seq<Action>)
    requires Enabled(s, a) && IsRun(Next(s, a), rest)
    ensures IsRun(s, [a] + rest) && Final(s, [a] + rest) == Final(Next(s, a), rest)
  {
    hide Enabled, Next;
    assert ([a] + rest)[1..] == rest;
  }

  /** A leg asks the machine, and then a write is confirmed while the leg is still running. */
  function WriteBesideLeg(leg: nat, mode: Mode, rest: seq<Action>): seq<Action> {
    [BeginLeg(leg)] + ([Read(leg)] + ([BeginWrite(mode)] + ([Apply(mode)] + ([Confirm] + rest))))
  }

  function Confirmed(s: State, leg: nat, mode: Mode): State {
    s.(machine := mode, shown := mode, dirtyUntil := s.nowMs + GRACE_MS,
       legs := s.legs[leg := Leg(s.nowMs, Some(s.machine))])
  }

  lemma ConfirmedBesideLeg(s: State, leg: nat, mode: Mode, rest: seq<Action>)
    requires s.write.None? && leg !in s.legs && IsRun(Confirmed(s, leg, mode), rest)
    ensures IsRun(s, WriteBesideLeg(leg, mode, rest))
    ensures Final(s, WriteBesideLeg(leg, mode, rest)) == Final(Confirmed(s, leg, mode), rest)
  {
    var s1 := Next(s, BeginLeg(leg));
    var s2 := Next(s1, Read(leg));
    var s3 := Next(s2, BeginWrite(mode));
    var s4 := Next(s3, Apply(mode));
    assert Next(s4, Confirm) == Confirmed(s, leg, mode);
    hide IsRun, Final, Confirmed;
    FirstStep(s4, Confirm, rest);
    FirstStep(s3, Apply(mode), [Confirm] + rest);
    FirstStep(s2, BeginWrite(mode), [Apply(mode)] + ([Confirm] + rest));
    FirstStep(s1, Read(leg), [BeginWrite(mode)] + ([Apply(mode)] + ([Confirm] + rest)));
    FirstStep(s, BeginLeg(leg), [Read(leg)] + ([BeginWrite(mode)] + ([Apply(mode)] + ([Confirm] + rest))));
  }

  /** A leg that takes exactly the grace period brings back the mode it read before the write. */
  lemma SlowLegBringsBack(s: State, leg: nat, mode: Mode)
    requires s.write.None? && leg !in s.legs
    ensures var run := WriteBesideLeg(leg, mode, [Advance(1500)] + ([EndLeg(leg, false)] + []));
            IsRun(s, run) && Final(s, run).machine == mode && Final(s, run).shown == s.machine
  {
    var s5 := Confirmed(s, leg, mode);
    var s6 := Next(s5, Advance(1500));
    var s7 := Next(s6, EndLeg(leg, false));
    assert IsRun(s7, []) && Final(s7, []) == s7;
    hide IsRun, Final, WriteBesideLeg;
    FirstStep(s6, EndLeg(leg, false), []);
    FirstStep(s5, Advance(1500), [EndLeg(leg, false)] + []);
    ConfirmedBesideLeg(s, leg, mode, [Advance(1500)] + ([EndLeg(leg, false)] + []));
  }

  /** So does any leg, at once, when a second write fails in the grace period of the first: the
      rollback also ends the first one's window. */
  lemma FailureEndsTheGrace(s: State, leg: nat, mode: Mode, other: Mode)
    requires s.write.None? && leg !in s.legs
    ensures var run := WriteBesideLeg(leg, mode, [BeginWrite(other)] + ([Fail] + ([EndLeg(leg, false)] + [])));
            && IsRun(s, run) && Final(s, run).machine == mode && Final(s, run).shown == s.machine
            && Final(s, run).nowMs == s.nowMs
  {
    var s5 := Confirmed(s, leg, mode);
    var s6 := Next(s5, BeginWrite(other));
    var s7 := Next(s6, Fail);
    var s8 := Next(s7, EndLeg(leg, false));
    assert IsRun(s8, []) && Final(s8, []) == s8;
    hide IsRun, Final, WriteBesideLeg;
    FirstStep(s7, EndLeg(leg, false), []);
    FirstStep(s6, Fail, [EndLeg(leg, false)] + []);
    FirstStep(s5, BeginWrite(other), [Fail] + ([EndLeg(leg, false)] + []));
    ConfirmedBesideLeg(s, leg, mode, [BeginWrite(other)] + ([Fail] + ([EndLeg(leg, false)] + [])));
  }

  /** And a poll may overwrite the choice of a write that is under way from the moment its window
      ends. */
  lemma WindowEnds(s: State, leg: nat, mode: Mode)
    requires s.write.None? && leg !in s.legs
    ensures var run := [BeginWrite(mode)] + ([Advance(8000)] + ([BeginLeg(leg)] + ([Read(leg)]
                       + ([EndLeg(leg, false)] + []))));
            IsRun(s, run) && Final(s, run).write.Some? && Final(s, run).shown == s.machine
  {
    var s1 := Next(s, BeginWrite(mode));
    var s2 := Next(s1, Advance(8000));
    var s3 := Next(s2, BeginLeg(leg));
    var s4 := Next(s3, Read(leg));
    var s5 := Next(s4, EndLeg(leg, false));
    assert IsRun(s5, []) && Final(s5, []) == s5;
    hide IsRun, Final;
    FirstStep(s4, EndLeg(leg, false), []);
    FirstStep(s3, Read(leg), [EndLeg(leg, false)] + []);
    FirstStep(s2, BeginLeg(leg), [Read(leg)] + ([EndLeg(leg, false)] + []));
    FirstStep(s1, Advance(8000), [BeginLeg(leg)] + ([Read(leg)] + ([EndLeg(leg, false)] + [])));
    FirstStep(s, BeginWrite(mode), [Advance(8000)] + ([BeginLeg(leg)] + ([Read(leg)]
                                   + ([EndLeg(leg, false)] + []))));
  }
}
