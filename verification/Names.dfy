/**
  The names that tie the two sides of the protocol together: request ids, the file names built
  from them, and the version that a payload archive's name carries.
 */
module Names {
  import opened Wrappers

  const U64: nat := 0x1_0000_0000_0000_0000

  // ----- hexadecimal numbers

  const HEX: string := "0123456789abcdef"

  predicate IsHex(c: char) { '0' <= c <= '9' || 'a' <= c <= 'f' }

  function HexValue(c: char): nat {
    if '0' <= c <= '9' then c as nat - '0' as nat
    else if 'a' <= c <= 'f' then 10 + (c as nat - 'a' as nat)
    else 0
  }

  /** Lower-case hexadecimal, padded with zeros to a least width. */
  function Hex(n: nat, width: nat): string
    decreases n + width
  {
    if n < 16 && width <= 1 then [HEX[n]]
    else Hex(n / 16, if width == 0 then 0 else width - 1) + [HEX[n % 16]]
  }

  function Parse(s: string): nat {
    if s == [] then 0 else 16 * Parse(s[..|s| - 1]) + HexValue(s[|s| - 1])
  }

  lemma HexDigit(d: nat)
    ensures d < 16 ==> IsHex(HEX[d]) && HexValue(HEX[d]) == d
  {
  }

  lemma {:induction false} HexRoundTrip(n: nat, width: nat)
    ensures Parse(Hex(n, width)) == n && |Hex(n, width)| >= 1
    ensures forall i :: 0 <= i < |Hex(n, width)| ==> IsHex(Hex(n, width)[i])
    decreases n + width
  {
    HexDigit(n % 16);
    if n >= 16 || width > 1 {
      var front := Hex(n / 16, if width == 0 then 0 else width - 1);
      HexRoundTrip(n / 16, if width == 0 then 0 else width - 1);
      assert (front + [HEX[n % 16]])[..|front|] == front;
    } else {
      assert n % 16 == n;
      assert Parse([]) == 0;
      assert [HEX[n]][..0] == [];
    }
  }

  /** The padding is exactly to the width: a longer number starts with no zero. */
  lemma {:induction false} HexWidth(n: nat, width: nat)
    ensures |Hex(n, width)| >= width
    ensures |Hex(n, width)| > width && |Hex(n, width)| > 1 ==> Hex(n, width)[0] != '0'
    decreases n + width
  {
    if n >= 16 || width > 1 {
      var front := Hex(n / 16, if width == 0 then 0 else width - 1);
      HexWidth(n / 16, if width == 0 then 0 else width - 1);
      HexRoundTrip(n / 16, if width == 0 then 0 else width - 1);
      if |front| == 1 {
        assert front[..0] == [] && Parse(front) == HexValue(front[0]);
      }
    }
  }

  // ----- request ids

  function RequestId(pid: nat, nowMs: nat, seqNo: nat): string {
    Hex(pid, 8) + "-" + (Hex(nowMs, 16) + "-" + Hex(seqNo, 8))
  }

  /** A number that fits its width has exactly that many digits. */
  lemma {:induction false} HexFits(n: nat, width: nat)
    requires 1 <= width && n < Power16(width)
    ensures |Hex(n, width)| == width
    decreases width
  {
    if width > 1 { HexFits(n / 16, width - 1); }
  }

  function Power16(k: nat): nat { if k == 0 then 1 else 16 * Power16(k - 1) }

  lemma Powers()
    ensures Power16(8) == 0x1_0000_0000 && Power16(16) == 0x1_0000_0000_0000_0000
  {
    assert Power16(4) == 0x1_0000;
    assert Power16(8) == 0x1_0000_0000;
    assert Power16(12) == 0x1_0000_0000_0000;
  }

  /** A hexadecimal digit is its place in the sixteen digits. */
  lemma DigitsAre(d: nat)
    requires d < 16
    ensures HexValue("0123456789abcdef"[d]) == d
  {
  }

  /** An id of three numbers of 32, 64 and 32 bits: eight, sixteen and eight digits with dashes between, from
      which the numbers are read back. */
  lemma RequestIdParts(pid: nat, nowMs: nat, seqNo: nat)
    requires pid < 0x1_0000_0000 && nowMs < 0x1_0000_0000_0000_0000 && seqNo < 0x1_0000_0000
    ensures var id := RequestId(pid, nowMs, seqNo);
            && |id| == 34 && id[8] == '-' && id[25] == '-'
            && Parse(id[..8]) == pid && Parse(id[9..25]) == nowMs && Parse(id[26..]) == seqNo
            && forall i :: 0 <= i < 34 && i != 8 && i != 25 ==> id[i] in "0123456789abcdef"
  {
    Powers();
    HexFits(pid, 8);
    HexFits(nowMs, 16);
    HexFits(seqNo, 8);
    HexRoundTrip(pid, 8);
    HexRoundTrip(nowMs, 16);
    HexRoundTrip(seqNo, 8);
    var a, b, c := Hex(pid, 8), Hex(nowMs, 16), Hex(seqNo, 8);
    hide Hex, Parse, Power16, IsHex;
    ThreeParts(a, b, c);
  }

  lemma ThreeParts(a: string, b: string, c: string)
    requires |a| == 8 && |b| == 16 && |c| == 8
    requires forall i :: 0 <= i < 8 ==> IsHex(a[i]) && IsHex(c[i])
    requires forall i :: 0 <= i < 16 ==> IsHex(b[i])
    ensures var id := a + "-" + (b + "-" + c);
            && |id| == 34 && id[8] == '-' && id[25] == '-' && id[..8] == a && id[9..25] == b && id[26..] == c
            && forall i :: 0 <= i < 34 && i != 8 && i != 25 ==> id[i] in "0123456789abcdef"
  {
    hide IsHex;
    var id := a + "-" + (b + "-" + c);
    forall i | 0 <= i < 34 && i != 8 && i != 25 ensures id[i] in "0123456789abcdef" {
      assert id[i] == if i < 8 then a[i] else if i < 25 then b[i - 9] else c[i - 26];
      HexChar(id[i]);
    }
  }

  lemma HexChar(c: char)
    ensures IsHex(c) <==> c in "0123456789abcdef"
  {
  }

  predicate NoDash(s: string) { forall i :: 0 <= i < |s| ==> s[i] != '-' }

  lemma HexNoDash(n: nat, width: nat)
    ensures NoDash(Hex(n, width))
  {
    HexRoundTrip(n, width);
  }

  lemma SplitAtDash(a: string, b: string, a': string, b': string)
    requires NoDash(a) && NoDash(a') && a + "-" + b == a' + "-" + b'
    ensures a == a' && b == b'
  {
    var s := a + "-" + b;
    assert s[|a|] == '-' && s[|a'|] == '-';
    assert forall i :: 0 <= i < |a| ==> s[i] == a[i];
    assert forall i :: 0 <= i < |a'| ==> s[i] == a'[i];
    assert |a| == |a'|;
    assert a == s[..|a|] && a' == s[..|a'|];
    assert b == s[|a| + 1..] && b' == s[|a'| + 1..];
  }

  /** A request id determines the process, the time and the counter it was made from. */
  lemma RequestIdInjective(pid: nat, nowMs: nat, seqNo: nat, pid': nat, nowMs': nat, seqNo': nat)
    ensures RequestId(pid, nowMs, seqNo) == RequestId(pid', nowMs', seqNo')
            <==> pid == pid' && nowMs == nowMs' && seqNo == seqNo'
  {
    if RequestId(pid, nowMs, seqNo) == RequestId(pid', nowMs', seqNo') {
      HexNoDash(pid, 8);
      HexNoDash(pid', 8);
      HexNoDash(nowMs, 16);
      HexNoDash(nowMs', 16);
      hide Hex, NoDash;
      SplitAtDash(Hex(pid, 8), Hex(nowMs, 16) + "-" + Hex(seqNo, 8), Hex(pid', 8),
                  Hex(nowMs', 16) + "-" + Hex(seqNo', 8));
      SplitAtDash(Hex(nowMs, 16), Hex(seqNo, 8), Hex(nowMs', 16), Hex(seqNo', 8));
      HexRoundTrip(pid, 8);
      HexRoundTrip(pid', 8);
      HexRoundTrip(nowMs, 16);
      HexRoundTrip(nowMs', 16);
      HexRoundTrip(seqNo, 8);
      HexRoundTrip(seqNo', 8);
    }
  }

  /** The ids of one process differ pairwise, whatever its clock reads, until the counter has
      gone round once. */
  lemma RequestIdsDistinct(pid: nat, start: nat, clock: seq<nat>, i: nat, j: nat)
    requires i < j < |clock| <= U64
    ensures RequestId(pid, clock[i], (start + i) % U64) != RequestId(pid, clock[j], (start + j) % U64)
  {
    RequestIdInjective(pid, clock[i], (start + i) % U64, pid, clock[j], (start + j) % U64);
    DistinctModulo(start + i, start + j);
    hide RequestId;
  }

  /** The ids that a process makes of its first clock readings, counting from 1. */
  function IdsOf(pid: nat, clock: seq<nat>): set<string> {
    if clock == [] then {}
    else IdsOf(pid, clock[..|clock| - 1]) + {RequestId(pid, clock[|clock| - 1], |clock| % U64)}
  }

  /** The next id is none of the first m. */
  lemma {:induction false} NotYetMade(pid: nat, clock: seq<nat>, m: nat, nowMs: nat)
    requires m <= |clock| < U64
    ensures RequestId(pid, nowMs, (1 + |clock|) % U64) !in IdsOf(pid, clock[..m])
  {
    hide RequestId;
    if m > 0 {
      assert clock[..m][..m - 1] == clock[..m - 1];
      NotYetMade(pid, clock, m - 1, nowMs);
      RequestIdsDistinct(pid, 1, clock + [nowMs], m - 1, |clock|);
    }
  }

  /** The counter of one process, an atomic u64 that wraps around, and the clock at each id so far. */
  class RequestIds {
    const pid: nat
    var next: nat
    ghost var clock: seq<nat>

    ghost predicate Valid()
      reads this
    {
      next == (1 + |clock|) % U64
    }

    /** The ids made so far. */
    ghost function Issued(): set<string>
      reads this
    {
      IdsOf(pid, clock)
    }

    constructor (pid: nat)
      ensures this.pid == pid && next == 1 && Valid() && Issued() == {}
    {
      this.pid := pid;
      next := 1;
      clock := [];
    }

    /** Until the counter has gone round once, no id is made twice. */
    method Make(nowMs: nat) returns (id: string)
      requires Valid()
      modifies this
      ensures Valid() && next == (old(next) + 1) % U64 && id == RequestId(pid, nowMs, old(next))
      ensures clock == old(clock) + [nowMs] && Issued() == old(Issued()) + {id}
      ensures |old(clock)| < U64 ==> id !in old(Issued())
    {
      hide RequestId;
      assert clock[..|clock|] == clock;
      if |clock| < U64 { NotYetMade(pid, clock, |clock|, nowMs); }
      assert (clock + [nowMs])[..|clock|] == clock;
      NextModulo(1 + |clock|);
      var seqNo := next;
      next := (next + 1) % U64;
      id := RequestId(pid, nowMs, seqNo);
      clock := clock + [nowMs];
    }
  }

  lemma NextModulo(a: nat)
    ensures (a % U64 + 1) % U64 == (a + 1) % U64
  {
  }

  lemma DistinctModulo(a: nat, b: nat)
    requires a < b < a + U64
    ensures a % U64 != b % U64
  {
    assert a == U64 * (a / U64) + a % U64 && b == U64 * (b / U64) + b % U64;
    assert b / U64 == a / U64 || b / U64 == a / U64 + 1;
  }

  // ----- file names

  const CMD_PREFIX: string := "elev_cmd_"
  const RESULT_PREFIX: string := "elev_result_"
  const JSON: string := ".json"

  function CmdFileName(id: string): string { CMD_PREFIX + id + JSON }

  function CmdTempName(id: string): string { CMD_PREFIX + id + ".tmp" }

  function ResultFileName(id: string): string { RESULT_PREFIX + id + JSON }

  function ResultTempName(id: string): string { RESULT_PREFIX + id + JSON + ".tmp" }

  predicate StartsWith(s: string, p: string) { |p| <= |s| && s[..|p|] == p }

  predicate EndsWith(s: string, p: string) { |p| <= |s| && s[|s| - |p|..] == p }

  /** The request id in a directory entry's name, if it is that of a command file. */
  function IdOfCmdFile(name: string): Option<string> {
    if !StartsWith(name, CMD_PREFIX) || !EndsWith(name, JSON) then None
    else
      MarkersDoNotOverlap(name);
      Some(name[|CMD_PREFIX|..|name| - |JSON|])
  }

  /** The slice that takes the id out of a name is always in bounds. */
  lemma MarkersDoNotOverlap(name: string)
    requires StartsWith(name, CMD_PREFIX) && EndsWith(name, JSON)
    ensures |CMD_PREFIX| <= |name| - |JSON|
  {
    assert forall i :: 0 <= i < 9 && i < |name| ==> name[..9][i] == name[i];
    assert forall i :: 0 <= i < 9 ==> CMD_PREFIX[i] != '.';
    assert name[|name| - 5] == '.';
  }

  /** Parsing recovers the id, and nothing but the command file of an id is ever selected. */
  lemma CmdFileRoundTrip(name: string, id: string)
    ensures IdOfCmdFile(name) == Some(id) <==> name == CmdFileName(id)
  {
    if name == CmdFileName(id) {
      assert name[..9] == CMD_PREFIX && name[|name| - 5..] == JSON && name[9..|name| - 5] == id;
    }
    if StartsWith(name, CMD_PREFIX) && EndsWith(name, JSON) {
      MarkersDoNotOverlap(name);
      assert name == name[..9] + name[9..|name| - 5] + name[|name| - 5..];
    }
  }

  lemma OtherNamesNotSelected(id: string)
    ensures IdOfCmdFile(CmdTempName(id)) == None
    ensures IdOfCmdFile(ResultFileName(id)) == None
    ensures IdOfCmdFile(ResultTempName(id)) == None
  {
    EndsLike(CmdTempName(id), JSON);
    StartsLike(ResultFileName(id), CMD_PREFIX, 5);
    StartsLike(ResultTempName(id), CMD_PREFIX, 5);
    hide StartsWith, EndsWith;
  }

  lemma StartsLike(s: string, p: string, i: nat)
    ensures i < |p| && StartsWith(s, p) ==> i < |s| && s[i] == p[i]
  {
  }

  lemma EndsLike(s: string, p: string)
    ensures p != [] && EndsWith(s, p) ==> s != [] && s[|s| - 1] == p[|p| - 1]
  {
  }

  /** Two requests never share a file, and no two kinds of file share a name. */
  lemma NamesApart(id: string, id': string)
    ensures CmdFileName(id) == CmdFileName(id') <==> id == id'
    ensures ResultFileName(id) == ResultFileName(id') <==> id == id'
    ensures ResultTempName(id) == ResultTempName(id') <==> id == id'
    ensures CmdFileName(id) != ResultFileName(id') && CmdFileName(id) != ResultTempName(id')
    ensures ResultFileName(id) != ResultTempName(id')
  {
    CmdFileRoundTrip(CmdFileName(id), id);
    CmdFileRoundTrip(CmdFileName(id), id');
    OtherNamesNotSelected(id');
    ResultNames(id, id');
    hide *;
  }

  lemma ResultNames(id: string, id': string)
    ensures ResultFileName(id) == ResultFileName(id') <==> id == id'
    ensures ResultTempName(id) == ResultTempName(id') <==> id == id'
    ensures ResultFileName(id) != ResultTempName(id')
  {
    BetweenMarkers(RESULT_PREFIX, id, JSON);
    BetweenMarkers(RESULT_PREFIX, id', JSON);
    BetweenMarkers(RESULT_PREFIX, id, JSON + ".tmp");
    BetweenMarkers(RESULT_PREFIX, id', JSON + ".tmp");
    var r, t := ResultFileName(id), ResultTempName(id');
    assert r[|r| - 1] == 'n' && t[|t| - 1] == 'p';
    assert ResultTempName(id) == RESULT_PREFIX + id + (JSON + ".tmp");
    assert ResultTempName(id') == RESULT_PREFIX + id' + (JSON + ".tmp");
  }

  lemma BetweenMarkers(prefix: string, id: string, suffix: string)
    ensures var name := prefix + id + suffix; name[|prefix|..|name| - |suffix|] == id
  {
  }

  // ----- payload archive names

  function LowerChar(c: char): char { if 'A' <= c <= 'Z' then (c as int + 32) as char else c }

  function Lower(s: string): (r: string)
    ensures |r| == |s| && forall i :: 0 <= i < |s| ==> r[i] == LowerChar(s[i])
  {
    if s == [] then [] else Lower(s[..|s| - 1]) + [LowerChar(s[|s| - 1])]
  }

  /** The letters of the alphabet become small, and nothing else changes. */
  lemma LowerLetters(c: char, k: nat)
    requires k < 26
    ensures LowerChar("ABCDEFGHIJKLMNOPQRSTUVWXYZ"[k]) == "abcdefghijklmnopqrstuvwxyz"[k]
    ensures c !in "ABCDEFGHIJKLMNOPQRSTUVWXYZ" ==> LowerChar(c) == c
  {
    if 'A' <= c <= 'Z' {
      assert c == "ABCDEFGHIJKLMNOPQRSTUVWXYZ"[c as int - 'A' as int];
    }
  }

  function StripPrefix(s: string, p: string): Option<string> {
    if StartsWith(s, p) then Some(s[|p|..]) else None
  }

  function StripSuffix(s: string, p: string): Option<string> {
    if EndsWith(s, p) then Some(s[..|s| - |p|]) else None
  }

  function Strip(s: string, prefix: string, suffix: string): Option<string> {
    var rest := StripPrefix(s, prefix);
    if rest.None? then None else StripSuffix(rest.value, suffix)
  }

  const LOWER_PREFIX: string := "micontrol_"
  const TITLE_PREFIX: string := "MiControl_"
  const PAYLOAD_SUFFIX: string := "_payload.zip"

  predicate IsVersion(v: string) { v != [] && '_' !in v }

  function PayloadVersion(name: string): Option<string> {
    var version := Strip(Lower(name), LOWER_PREFIX, PAYLOAD_SUFFIX);
    if version.None? || !IsVersion(version.value) then None
    else
      var title := Strip(name, TITLE_PREFIX, PAYLOAD_SUFFIX);
      if title.Some? && IsVersion(title.value) then title else version
  }

  lemma StripIs(s: string, prefix: string, suffix: string, v: string)
    ensures Strip(s, prefix, suffix) == Some(v) <==> s == prefix + v + suffix
  {
    if s == prefix + v + suffix {
      assert s[..|prefix|] == prefix && s[|prefix|..] == v + suffix;
      assert (v + suffix)[|v|..] == suffix && (v + suffix)[..|v|] == v;
    }
    if Strip(s, prefix, suffix) == Some(v) {
      assert s == prefix + s[|prefix|..];
    }
  }

  lemma LowerConcat(a: string, b: string)
    ensures Lower(a + b) == Lower(a) + Lower(b)
  {
  }

  lemma LowerVersion(v: string)
    ensures IsVersion(Lower(v)) <==> IsVersion(v)
  {
    var l := Lower(v);
    if '_' in l {
      var i :| 0 <= i < |l| && l[i] == '_';
      assert v[i] == '_';
    }
    if '_' in v {
      var i :| 0 <= i < |v| && v[i] == '_';
      assert l[i] == '_';
    }
  }

  lemma MarkersLower()
    ensures Lower(TITLE_PREFIX) == LOWER_PREFIX && Lower(PAYLOAD_SUFFIX) == PAYLOAD_SUFFIX
  {
    assert |TITLE_PREFIX| == 10 && |PAYLOAD_SUFFIX| == 12;
  }

  /** The canonical name of every version gives that version back, in its own spelling. */
  lemma PayloadVersionRoundTrip(v: string)
    requires v != [] && '_' !in v
    ensures PayloadVersion("MiControl_" + v + "_payload.zip") == Some(v)
  {
    var name := TITLE_PREFIX + v + PAYLOAD_SUFFIX;
    LowerConcat(TITLE_PREFIX + v, PAYLOAD_SUFFIX);
    LowerConcat(TITLE_PREFIX, v);
    MarkersLower();
    LowerVersion(v);
    hide Lower, Strip;
    StripIs(Lower(name), LOWER_PREFIX, PAYLOAD_SUFFIX, Lower(v));
    StripIs(name, TITLE_PREFIX, PAYLOAD_SUFFIX, v);
  }

  /** Exactly the names that spell prefix, version and suffix up to letter case are accepted; the
      version is echoed as spelled when the markers are, and in lower case otherwise. */
  lemma PayloadVersionExact(name: string, v: string)
    ensures PayloadVersion(name) == Some(v)
            <==> v != [] && '_' !in v
                 && (name == "MiControl_" + v + "_payload.zip"
                     || (Lower(name) == "micontrol_" + v + "_payload.zip"
                         && !exists w :: name == "MiControl_" + w + "_payload.zip"))
  {
    var low := Strip(Lower(name), LOWER_PREFIX, PAYLOAD_SUFFIX);
    var title := Strip(name, TITLE_PREFIX, PAYLOAD_SUFFIX);
    if low.Some? { StripIs(Lower(name), LOWER_PREFIX, PAYLOAD_SUFFIX, low.value); }
    StripIs(Lower(name), LOWER_PREFIX, PAYLOAD_SUFFIX, v);
    StripIs(name, TITLE_PREFIX, PAYLOAD_SUFFIX, v);
    if title.Some? {
      StripIs(name, TITLE_PREFIX, PAYLOAD_SUFFIX, title.value);
      TitleIsLower(name, title.value);
    } else {
      forall w ensures name != TITLE_PREFIX + w + PAYLOAD_SUFFIX {
        StripIs(name, TITLE_PREFIX, PAYLOAD_SUFFIX, w);
      }
    }
    hide Strip, Lower;
    if title.Some? { LowerVersion(title.value); }
  }

  lemma TitleIsLower(name: string, w: string)
    requires name == TITLE_PREFIX + w + PAYLOAD_SUFFIX
    ensures Strip(Lower(name), LOWER_PREFIX, PAYLOAD_SUFFIX) == Some(Lower(w))
  {
    LowerConcat(TITLE_PREFIX + w, PAYLOAD_SUFFIX);
    LowerConcat(TITLE_PREFIX, w);
    MarkersLower();
    StripIs(Lower(name), LOWER_PREFIX, PAYLOAD_SUFFIX, Lower(w));
  }
}
