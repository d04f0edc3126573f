/**
  The Scancode Map value: which of the requested key mappings are kept, how they are written as
  bytes, and what the two ways of reading such a value make of them.
 */
module ScancodeMap {
  import opened Wrappers

  type Byte = b: nat | b < 256

  /** A value of the request's JSON: an unsigned integer, a list, or something else. */
  datatype Json = Number(value: nat) | Array(items: seq<Json>) | Other

  /** Target low and high byte, source low and high byte. */
  datatype Mapping = Mapping(targetLo: Byte, targetHi: Byte, sourceLo: Byte, sourceHi: Byte)

  const MAX_MAPPINGS: nat := 8
  const COPILOT_TO_CTRL: Mapping := Mapping(0x1D, 0xE0, 0x6E, 0xE0)
  const TERMINATOR: Mapping := Mapping(0, 0, 0, 0)

  // ----- what is kept

  /** The last eight bits of an integer, zero for anything else. */
  function ByteOf(v: Json): Byte { if v.Number? then v.value % 256 else 0 }

  function MappingOf(item: Json): Option<Mapping> {
    if item.Array? && |item.items| == 4 then
      Some(Mapping(ByteOf(item.items[0]), ByteOf(item.items[1]), ByteOf(item.items[2]), ByteOf(item.items[3])))
    else None
  }

  predicate SourceIsCopilot(m: Mapping) {
    (m.sourceLo == 0x6E && (m.sourceHi == 0x00 || m.sourceHi == 0xE0)) || (m.sourceLo == 0x86 && m.sourceHi == 0x00)
  }

  predicate TargetKnown(m: Mapping) {
    (m.targetLo, m.targetHi) in {(0x1D, 0x00), (0x1D, 0xE0), (0x38, 0x00), (0x38, 0xE0), (0x36, 0xE0), (0x2A, 0x00)}
  }

  predicate Allowed(m: Mapping) { SourceIsCopilot(m) && TargetKnown(m) }

  /** All acceptable mappings of a list, in its order. */
  function Acceptable(items: seq<Json>): seq<Mapping> {
    if items == [] then []
    else
      var m := MappingOf(items[|items| - 1]);
      Acceptable(items[..|items| - 1]) + if m.Some? && Allowed(m.value) then [m.value] else []
  }

  function FirstEight(ms: seq<Mapping>): seq<Mapping> {
    if |ms| <= MAX_MAPPINGS then ms else ms[..MAX_MAPPINGS]
  }

  /** The mappings of a request: the first eight acceptable ones, or one when it names none. */
  function Kept(mappings: Option<Json>): seq<Mapping> {
    if mappings.None? then [COPILOT_TO_CTRL]
    else if mappings.value.Array? then FirstEight(Acceptable(mappings.value.items))
    else []
  }

  method BuildMappings(mappings: Option<Json>) returns (kept: seq<Mapping>)
    ensures kept == Kept(mappings)
  {
    if mappings.None? {
      return [COPILOT_TO_CTRL];
    }
    kept := [];
    if mappings.value.Array? {
      var items := mappings.value.items;
      for k := 0 to |items|
        invariant kept == FirstEight(Acceptable(items[..k]))
      {
        assert items[..k + 1][..k] == items[..k];
        if items[k].Array? && |items[k].items| == 4 {
          var entry := items[k].items;
          var e: seq<Byte> := [0, 0, 0, 0];
          for i := 0 to 4
            invariant |e| == 4 && forall j :: 0 <= j < i ==> e[j] == ByteOf(entry[j])
          {
            e := e[i := if entry[i].Number? then entry[i].value % 256 else 0];
          }
          var m := Mapping(e[0], e[1], e[2], e[3]);
          if Allowed(m) && |kept| < MAX_MAPPINGS {
            kept := kept + [m];
          }
        }
      }
      assert items[..|items|] == items;
    }
  }

  lemma {:induction false} AcceptableAllowed(items: seq<Json>)
    ensures forall i :: 0 <= i < |Acceptable(items)| ==> Allowed(Acceptable(items)[i])
  {
    if items != [] {
      AcceptableAllowed(items[..|items| - 1]);
    }
  }

  /** Whatever is requested, at most eight mappings are kept, each from the Copilot key to a
      known modifier, and none looks like the terminator. */
  lemma KeptAreAllowed(mappings: Option<Json>)
    ensures |Kept(mappings)| <= MAX_MAPPINGS
    ensures forall i :: 0 <= i < |Kept(mappings)| ==> Allowed(Kept(mappings)[i]) && Kept(mappings)[i] != TERMINATOR
  {
    if mappings.Some? && mappings.value.Array? {
      AcceptableAllowed(mappings.value.items);
    }
  }

  // ----- what is kept, in terms of the request

  /** The item asks for the mapping m: four numbers, of which the last eight bits count, and anything but
      an unsigned integer counts as zero; target first, low byte first. */
  predicate AsksFor(item: Json, m: Mapping) {
    && item.Array? && |item.items| == 4
    && m.targetLo == (if item.items[0].Number? then item.items[0].value % 0x100 else 0)
    && m.targetHi == (if item.items[1].Number? then item.items[1].value % 0x100 else 0)
    && m.sourceLo == (if item.items[2].Number? then item.items[2].value % 0x100 else 0)
    && m.sourceHi == (if item.items[3].Number? then item.items[3].value % 0x100 else 0)
  }

  /** The mapping goes from the Copilot key to Ctrl, Alt or Shift. */
  predicate FromCopilot(m: Mapping) {
    && [m.sourceLo, m.sourceHi] in [[0x6E, 0x00], [0x6E, 0xE0], [0x86, 0x00]]
    && [m.targetLo, m.targetHi] in [[0x1D, 0x00], [0x1D, 0xE0], [0x38, 0x00], [0x38, 0xE0], [0x36, 0xE0], [0x2A, 0x00]]
  }

  predicate Accepted(item: Json, m: Mapping) { AsksFor(item, m) && FromCopilot(m) }

  lemma AcceptedIs(item: Json, m: Mapping)
    ensures Accepted(item, m) <==> MappingOf(item) == Some(m) && Allowed(m)
  {
  }

  /** The k-th mapping is what the item at[k] asks for, in the order of the list, and no acceptable item
      before the end is left out. */
  ghost predicate KeptAt(items: seq<Json>, ms: seq<Mapping>, at: seq<nat>, end: nat)
    requires end <= |items|
  {
    && |at| == |ms|
    && (forall k :: 0 <= k < |at| ==> at[k] < end && Accepted(items[at[k]], ms[k]))
    && (forall k, l :: 0 <= k < l < |at| ==> at[k] < at[l])
    && forall i, m :: 0 <= i < end && Accepted(items[i], m) ==> i in at
  }

  lemma {:induction false} AcceptableAt(items: seq<Json>, end: nat) returns (at: seq<nat>)
    requires end <= |items|
    ensures KeptAt(items, Acceptable(items[..end]), at, end)
  {
    if end == 0 {
      at := [];
    } else {
      var before := AcceptableAt(items, end - 1);
      assert items[..end][..end - 1] == items[..end - 1] && items[..end][end - 1] == items[end - 1];
      var m, ms := MappingOf(items[end - 1]), Acceptable(items[..end - 1]);
      if m.Some? { AcceptedIs(items[end - 1], m.value); }
      hide MappingOf, Allowed, Accepted, KeptAt, Acceptable;
      if m.Some? && Allowed(m.value) {
        at := before + [end - 1];
        OneMoreKept(items, ms, before, end - 1, m.value);
      } else {
        at := before;
        NoneAccepted(items[end - 1]);
        NoMoreKept(items, ms, before, end - 1);
      }
      AcceptableStep(items[..end]);
    }
  }

  lemma NoneAccepted(item: Json)
    requires MappingOf(item).None? || !Allowed(MappingOf(item).value)
    ensures forall m :: !Accepted(item, m)
  {
  }

  lemma AcceptableStep(items: seq<Json>)
    requires items != []
    ensures var m, front := MappingOf(items[|items| - 1]), Acceptable(items[..|items| - 1]);
            Acceptable(items) == if m.Some? && Allowed(m.value) then front + [m.value] else front
  {
  }

  lemma OneMoreKept(items: seq<Json>, ms: seq<Mapping>, at: seq<nat>, end: nat, m: Mapping)
    requires end < |items| && KeptAt(items, ms, at, end) && Accepted(items[end], m)
    ensures KeptAt(items, ms + [m], at + [end], end + 1)
  {
    hide Accepted;
    assert forall i :: i in at ==> i in at + [end];
    assert end in at + [end];
  }

  lemma NoMoreKept(items: seq<Json>, ms: seq<Mapping>, at: seq<nat>, end: nat)
    requires end < |items| && KeptAt(items, ms, at, end) && forall m :: !Accepted(items[end], m)
    ensures KeptAt(items, ms, at, end + 1)
  {
    hide Accepted;
  }

  /** A request that gives a list keeps the first acceptable items up to the eighth, in their order; one that
      gives none keeps the mapping from the Copilot key to the right Ctrl key; one that gives anything else
      keeps nothing. */
  lemma KeptAreFirst(mappings: Option<Json>) returns (at: seq<nat>, end: nat)
    ensures mappings.None? ==> Kept(mappings) == [Mapping(0x1D, 0xE0, 0x6E, 0xE0)]
    ensures mappings.Some? && !mappings.value.Array? ==> Kept(mappings) == []
    ensures mappings.Some? && mappings.value.Array?
            ==> && end <= |mappings.value.items| && KeptAt(mappings.value.items, Kept(mappings), at, end)
                && |Kept(mappings)| <= 8 && (|Kept(mappings)| < 8 ==> end == |mappings.value.items|)
  {
    at, end := [], 0;
    if mappings.Some? && mappings.value.Array? {
      var items := mappings.value.items;
      end := |items|;
      assert items[..end] == items;
      at := AcceptableAt(items, end);
      if |at| > 8 {
        end := at[7] + 1;
        FirstOnes(items, Acceptable(items), at, 8);
        at := at[..8];
      }
    }
  }

  lemma FirstOnes(items: seq<Json>, ms: seq<Mapping>, at: seq<nat>, n: nat)
    requires KeptAt(items, ms, at, |items|) && 0 < n < |at|
    ensures KeptAt(items, ms[..n], at[..n], at[n - 1] + 1)
  {
    hide Accepted;
    forall i, m | 0 <= i < at[n - 1] + 1 && Accepted(items[i], m) ensures i in at[..n] {
      var k :| 0 <= k < |at| && at[k] == i;
      assert at[..n][k] == i;
    }
  }

  // ----- the bytes

  function Bytes(m: Mapping): seq<Byte> { [m.targetLo, m.targetHi, m.sourceLo, m.sourceHi] }

  function LittleEndian(n: nat): seq<Byte>
    requires n < 0x1_0000_0000
  {
    [n % 256, n / 0x100 % 256, n / 0x1_0000 % 256, n / 0x100_0000]
  }

  function FromLittleEndian(b0: nat, b1: nat, b2: nat, b3: nat): nat {
    b0 + 0x100 * b1 + 0x1_0000 * b2 + 0x100_0000 * b3
  }

  function Concat(ms: seq<Mapping>): (bs: seq<Byte>)
    ensures |bs| == 4 * |ms|
  {
    if ms == [] then [] else Bytes(ms[0]) + Concat(ms[1..])
  }

  function Encode(ms: seq<Mapping>): seq<Byte>
    requires |ms| < 0x1_0000_0000
  {
    LittleEndian(0) + LittleEndian(0) + LittleEndian(|ms|) + Concat(ms) + Bytes(TERMINATOR)
  }

  method BuildBinary(ms: seq<Mapping>) returns (binary: seq<Byte>)
    requires |ms| < 0x1_0000_0000
    ensures binary == Encode(ms) && |binary| == 16 + 4 * |ms|
  {
    binary := LittleEndian(0);
    binary := binary + LittleEndian(0);
    binary := binary + LittleEndian(|ms|);
    ghost var header := binary;
    assert ms[..0] == [];
    for i := 0 to |ms|
      invariant binary == header + Concat(ms[..i])
    {
      ConcatOneMore(ms[..i], ms[i]);
      assert ms[..i + 1] == ms[..i] + [ms[i]];
      binary := binary + Bytes(ms[i]);
    }
    assert ms[..|ms|] == ms;
    binary := binary + [0, 0, 0, 0];
  }

  lemma {:induction false} ConcatOneMore(ms: seq<Mapping>, m: Mapping)
    ensures Concat(ms + [m]) == Concat(ms) + Bytes(m)
  {
    if ms == [] {
      assert ([] + [m])[1..] == [];
    } else {
      ConcatOneMore(ms[1..], m);
      assert (ms + [m])[1..] == ms[1..] + [m];
    }
  }

  lemma {:induction false} ConcatAt(ms: seq<Mapping>, k: nat, tail: seq<Byte>)
    requires k < |ms|
    ensures var bs := Concat(ms) + tail;
            bs[4 * k..4 * k + 4] == [ms[k].targetLo, ms[k].targetHi, ms[k].sourceLo, ms[k].sourceHi]
  {
    var bs := Concat(ms) + tail;
    assert bs == Bytes(ms[0]) + (Concat(ms[1..]) + tail);
    if k > 0 {
      ConcatAt(ms[1..], k - 1, tail);
      assert bs[4..] == Concat(ms[1..]) + tail;
      assert bs[4 * k..4 * k + 4] == bs[4..][4 * (k - 1)..4 * (k - 1) + 4];
    } else {
      assert bs[..4] == Bytes(ms[0]);
    }
  }

  lemma HeaderIs(n: nat)
    requires n <= 8
    ensures LittleEndian(0) + LittleEndian(0) + LittleEndian(n) == [0, 0, 0, 0, 0, 0, 0, 0, n, 0, 0, 0]
  {
  }

  /** The bytes of a request: eight zeros, the number of mappings in the first of four bytes, each mapping
      with its target before its source and its low bytes before its high ones, and four zeros. */
  lemma BytesOfRequest(mappings: Option<Json>, k: nat)
    ensures |Kept(mappings)| <= 8
    ensures var ms, bs := Kept(mappings), Encode(Kept(mappings));
            && |bs| == 16 + 4 * |ms| && bs[..8] == [0, 0, 0, 0, 0, 0, 0, 0] && bs[8..12] == [|ms|, 0, 0, 0]
            && bs[|bs| - 4..] == [0, 0, 0, 0]
            && (k < |ms| ==> bs[12 + 4 * k..16 + 4 * k]
                             == [ms[k].targetLo, ms[k].targetHi, ms[k].sourceLo, ms[k].sourceHi])
  {
    KeptAreAllowed(mappings);
    var ms := Kept(mappings);
    var bs, body := Encode(ms), Concat(ms) + Bytes(TERMINATOR);
    var header: seq<Byte> := [0, 0, 0, 0, 0, 0, 0, 0, |ms|, 0, 0, 0];
    HeaderIs(|ms|);
    assert Bytes(TERMINATOR) == [0, 0, 0, 0];
    hide Kept, Concat, LittleEndian;
    assert bs == header + body;
    hide Encode;
    assert bs[12..] == body && bs[..12] == header && header[..8] == [0, 0, 0, 0, 0, 0, 0, 0];
    if k < |ms| {
      ConcatAt(ms, k, Bytes(TERMINATOR));
      assert bs[12 + 4 * k..16 + 4 * k] == bs[12..][4 * k..4 * k + 4];
    }
  }

  // ----- reading it back

  function MappingAt(bs: seq<Byte>): Mapping
    requires |bs| >= 4
  {
    Mapping(bs[0], bs[1], bs[2], bs[3])
  }

  function ReadCounted(bs: seq<Byte>, count: nat): Option<seq<Mapping>> {
    if count == 0 then Some([])
    else if |bs| < 4 then None
    else
      var rest := ReadCounted(bs[4..], count - 1);
      if rest.None? then None else Some([MappingAt(bs)] + rest.value)
  }

  /** Reads as many mappings as the header says. */
  function DecodeByCount(bs: seq<Byte>): Option<seq<Mapping>> {
    if |bs| < 12 then None
    else ReadCounted(bs[12..], FromLittleEndian(bs[8], bs[9], bs[10], bs[11]))
  }

  function ReadTerminated(bs: seq<Byte>): Option<seq<Mapping>> {
    if |bs| < 4 then None
    else if MappingAt(bs) == TERMINATOR then Some([])
    else
      var rest := ReadTerminated(bs[4..]);
      if rest.None? then None else Some([MappingAt(bs)] + rest.value)
  }

  /** Reads mappings up to the all-zero one. */
  function DecodeToTerminator(bs: seq<Byte>): Option<seq<Mapping>> {
    if |bs| < 12 then None else ReadTerminated(bs[12..])
  }

  lemma FirstBytes(m: Mapping, rest: seq<Byte>)
    ensures MappingAt(Bytes(m) + rest) == m && (Bytes(m) + rest)[4..] == rest
  {
  }

  lemma {:induction false} CountedRoundTrip(ms: seq<Mapping>, tail: seq<Byte>)
    ensures ReadCounted(Concat(ms) + tail, |ms|) == Some(ms)
  {
    if ms != [] {
      assert Concat(ms) + tail == Bytes(ms[0]) + (Concat(ms[1..]) + tail);
      FirstBytes(ms[0], Concat(ms[1..]) + tail);
      CountedRoundTrip(ms[1..], tail);
      assert [ms[0]] + ms[1..] == ms;
    }
  }

  /** Reading to the terminator gives what was written exactly when no mapping looks like it. */
  lemma {:induction false} TerminatedRoundTrip(ms: seq<Mapping>)
    ensures ReadTerminated(Concat(ms) + Bytes(TERMINATOR)) == Some(ms) <==> TERMINATOR !in ms
    ensures ReadTerminated(Concat(ms) + Bytes(TERMINATOR)).Some?
  {
    if ms == [] {
      assert Concat(ms) + Bytes(TERMINATOR) == Bytes(TERMINATOR);
    } else {
      assert Concat(ms) + Bytes(TERMINATOR) == Bytes(ms[0]) + (Concat(ms[1..]) + Bytes(TERMINATOR));
      FirstBytes(ms[0], Concat(ms[1..]) + Bytes(TERMINATOR));
      TerminatedRoundTrip(ms[1..]);
      assert [ms[0]] + ms[1..] == ms;
      var rest := ReadTerminated(Concat(ms[1..]) + Bytes(TERMINATOR));
      assert ([ms[0]] + rest.value)[1..] == rest.value;
      hide ReadTerminated;
    }
  }

  lemma LittleEndianRoundTrip(n: nat)
    requires n < 0x1_0000_0000
    ensures var b := LittleEndian(n); FromLittleEndian(b[0], b[1], b[2], b[3]) == n
  {
    assert n / 0x1_0000 == n / 0x100 / 0x100 && n / 0x100_0000 == n / 0x1_0000 / 0x100;
  }

  /** Whatever the mappings, the count gives them back; the terminator does exactly when none of
      them is all zero. */
  lemma EncodedMappingsReadBack(ms: seq<Mapping>)
    requires |ms| < 0x1_0000_0000
    ensures |Encode(ms)| == 16 + 4 * |ms|
    ensures DecodeByCount(Encode(ms)) == Some(ms)
    ensures DecodeToTerminator(Encode(ms)) == Some(ms) <==> TERMINATOR !in ms
  {
    var bs := Encode(ms);
    var body := Concat(ms) + Bytes(TERMINATOR);
    assert bs[12..] == body;
    assert forall i :: 0 <= i < 4 ==> bs[8 + i] == LittleEndian(|ms|)[i];
    LittleEndianRoundTrip(|ms|);
    CountedRoundTrip(ms, Bytes(TERMINATOR));
    TerminatedRoundTrip(ms);
    hide LittleEndian, Concat, ReadCounted, ReadTerminated;
  }

  /** What the helper writes for a request is read back as the kept mappings by either reader. */
  lemma KeptMappingsReadBack(mappings: Option<Json>)
    ensures |Kept(mappings)| <= MAX_MAPPINGS && |Encode(Kept(mappings))| <= 48
    ensures DecodeByCount(Encode(Kept(mappings))) == Some(Kept(mappings))
    ensures DecodeToTerminator(Encode(Kept(mappings))) == Some(Kept(mappings))
  {
    KeptAreAllowed(mappings);
    EncodedMappingsReadBack(Kept(mappings));
    hide Encode, Kept, DecodeByCount, DecodeToTerminator, Allowed;
  }
}
