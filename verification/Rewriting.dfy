/**
  The reference meaning of the three redaction passes: a left-to-right rewrite that
  copies one character, or replaces the match that starts here by a mark.
 */
module Rewriting {
  import opened Strings

  const REDACTED := "<redacted>"
  const PATH_MARK := "[REDACTED_PATH]"
  const IP_MARK := "[REDACTED_IP]"
  const UNC_MARK := "\\\\[REDACTED_PATH]"

  predicate IsDrive(d: char) { 'A' <= d <= 'Z' }

  type Drive = d: char | IsDrive(d) witness 'A'

  /** `X:\Users\` */
  function UsersPrefix(d: Drive): (r: string)
    ensures |r| == 9
  {
    [d] + ":\\Users\\"
  }

  datatype Rule = UserName(drive: Drive) | Unc | Ipv6

  predicate IsHexDigit(c: char) {
    '0' <= c <= '9' || 'a' <= c <= 'f' || 'A' <= c <= 'F'
  }

  predicate IsHexColon(c: char) { IsHexDigit(c) || c == ':' }

  /** Length of the longest prefix of hex digits and colons. */
  function RunLen(s: string): (r: nat)
    ensures r <= |s|
    ensures forall i :: 0 <= i < r ==> IsHexColon(s[i])
    ensures r < |s| ==> !IsHexColon(s[r])
  {
    if s == [] || !IsHexColon(s[0]) then 0 else 1 + RunLen(s[1..])
  }

  function Colons(s: string): nat {
    if s == [] then 0 else (if s[0] == ':' then 1 else 0) + Colons(s[1..])
  }

  /** How much of s a UNC match that starts here takes: `\\server\share`, or `\\server`
      when no further backslash follows the share, or everything without a second one. */
  function UncLen(s: string): (r: nat)
    requires "\\\\" <= s
    ensures 2 <= r <= |s|
  {
    var after := s[2..];
    var server := SegLen(after);
    if server == |after| then |s|
    else
      var afterServer := after[server + 1..];
      var share := SegLen(afterServer);
      if share < |afterServer| then 2 + server + 1 + share else 2 + server
  }

  /** Length of the match that starts at the head of s; 0 when there is none. */
  function MatchLen(rule: Rule, s: string): (r: nat)
    ensures r <= |s|
  {
    match rule
    case UserName(d) =>
      if UsersPrefix(d) <= s then 9 + SegLen(s[9..]) else 0
    case Unc =>
      if "\\\\" <= s then UncLen(s) else 0
    case Ipv6 =>
      var n := RunLen(s);
      if s != [] && IsHexDigit(s[0]) && Colons(s[..n]) >= 2 && n > 4 then n else 0
  }

  function Mark(rule: Rule): string {
    match rule
    case UserName(d) => UsersPrefix(d) + REDACTED
    case Unc => UNC_MARK
    case Ipv6 => IP_MARK
  }

  /** How much of the input one step of the rewrite takes, and what it puts out for it. */
  function Step(rule: Rule, s: string): (r: nat)
    requires s != []
    ensures 1 <= r <= |s|
  {
    if MatchLen(rule, s) == 0 then 1 else MatchLen(rule, s)
  }

  function Emit(rule: Rule, s: string): string
    requires s != []
  {
    if MatchLen(rule, s) == 0 then [s[0]] else Mark(rule)
  }

  function Rewrite(rule: Rule, s: string): string
    decreases |s|
  {
    if s == [] then [] else Emit(rule, s) + Rewrite(rule, s[Step(rule, s)..])
  }

  lemma Unfold(rule: Rule, s: string)
    ensures s != [] ==> Rewrite(rule, s) == Emit(rule, s) + Rewrite(rule, s[Step(rule, s)..])
  {
  }

  lemma UnfoldCopy(rule: Rule, s: string)
    ensures s != [] && MatchLen(rule, s) == 0 ==> Rewrite(rule, s) == [s[0]] + Rewrite(rule, s[1..])
  {
  }

  // ----- where a suffix of the output comes from

  /** Every suffix of the output is the rewrite of an input suffix (j == 0),
      or starts strictly inside a mark (j > 0). */
  lemma {:induction false} Origin(rule: Rule, s: string, i: nat) returns (k: nat, j: nat)
    requires i <= |Rewrite(rule, s)|
    ensures k <= |s|
    ensures j == 0 ==> Rewrite(rule, s)[i..] == Rewrite(rule, s[k..])
    ensures j > 0 ==> j < |Mark(rule)| && MatchLen(rule, s[k..]) > 0
                      && Rewrite(rule, s)[i..] == Mark(rule)[j..] + Rewrite(rule, s[k + MatchLen(rule, s[k..])..])
    decreases |s|
  {
    hide MatchLen, Mark, Rewrite, Emit, Step;
    if i == 0 {
      k, j := 0, 0;
      assert s[0..] == s;
    } else {
      OriginInside(rule, s, i);
      var step, head := Step(rule, s), Emit(rule, s);
      if i < |head| {
        k, j := 0, i;
      } else {
        OriginFurther(rule, s, i);
        k, j := Origin(rule, s[step..], i - |head|);
        DropTwice(s, step, k);
        if j > 0 {
          DropTwice(s, step, k + MatchLen(rule, s[step..][k..]));
        }
        k := step + k;
      }
    }
  }

  lemma OriginInside(rule: Rule, s: string, i: nat)
    requires 0 < i <= |Rewrite(rule, s)|
    ensures s != []
    ensures i < |Emit(rule, s)| ==>
      s[0..] == s && MatchLen(rule, s) > 0 && Emit(rule, s) == Mark(rule)
      && Rewrite(rule, s)[i..] == Mark(rule)[i..] + Rewrite(rule, s[MatchLen(rule, s)..])
  {
    Unfold(rule, s);
    if i < |Emit(rule, s)| {
      hide MatchLen, Mark, Rewrite;
      DropInFirst(Mark(rule), Rewrite(rule, s[Step(rule, s)..]), i);
    }
  }

  lemma OriginFurther(rule: Rule, s: string, i: nat)
    requires s != [] && |Emit(rule, s)| <= i <= |Rewrite(rule, s)|
    ensures i - |Emit(rule, s)| <= |Rewrite(rule, s[Step(rule, s)..])|
    ensures Rewrite(rule, s)[i..] == Rewrite(rule, s[Step(rule, s)..])[i - |Emit(rule, s)|..]
  {
    Unfold(rule, s);
    hide MatchLen, Mark, Rewrite, Emit, Step;
    DropInSecond(Emit(rule, s), Rewrite(rule, s[Step(rule, s)..]), i);
  }

  /** An output that starts with w was copied from the input up to the first match. */
  lemma {:induction false} CopyUntil(rule: Rule, s: string, w: string) returns (j: nat)
    requires w <= Rewrite(rule, s)
    ensures j <= |w| && j <= |s| && s[..j] == w[..j]
    ensures Rewrite(rule, s) == w[..j] + Rewrite(rule, s[j..])
    ensures forall i :: 0 <= i < j ==> MatchLen(rule, s[i..]) == 0
    ensures j < |w| ==> j < |s| && MatchLen(rule, s[j..]) > 0
    decreases |w|
  {
    hide MatchLen, Mark;
    assert s[0..] == s;
    if w == [] || MatchLen(rule, s) > 0 {
      j := 0;
    } else {
      assert w[1..] <= Rewrite(rule, s[1..]) && w[0] == s[0];
      j := CopyUntil(rule, s[1..], w[1..]);
      CopyOneMore(rule, s, w, j);
      j := j + 1;
    }
  }

  lemma CopyOneMore(rule: Rule, s: string, w: string, j: nat)
    requires s != [] && w != [] && w[0] == s[0] && MatchLen(rule, s) == 0
    requires j <= |w[1..]| && j <= |s[1..]| && s[1..][..j] == w[1..][..j]
    requires Rewrite(rule, s[1..]) == w[1..][..j] + Rewrite(rule, s[1..][j..])
    requires forall i :: 0 <= i < j ==> MatchLen(rule, s[1..][i..]) == 0
    ensures s[..j + 1] == w[..j + 1] && s[1..][j..] == s[j + 1..]
    ensures Rewrite(rule, s) == w[..j + 1] + Rewrite(rule, s[j + 1..])
    ensures forall i :: 0 <= i < j + 1 ==> MatchLen(rule, s[i..]) == 0
  {
    UnfoldCopy(rule, s);
    hide *;
    TakeOneMore(s, j);
    TakeOneMore(w, j);
    DropTwice(s, 1, j);
    Associate([s[0]], w[1..][..j], Rewrite(rule, s[j + 1..]));
    forall i | 0 <= i < j + 1 ensures MatchLen(rule, s[i..]) == 0 {
      if i > 0 { DropTwice(s, 1, i - 1); } else { DropNone(s); }
    }
  }

  /** Text in which no match starts is copied. */
  lemma {:induction false} CopyForward(rule: Rule, w: string, q: string)
    requires forall i :: 0 <= i < |w| ==> MatchLen(rule, w[i..] + q) == 0
    ensures Rewrite(rule, w + q) == w + Rewrite(rule, q)
  {
    hide MatchLen, Mark, Rewrite;
    if w == [] {
      assert w + q == q;
    } else {
      assert w[0..] == w;
      assert (w + q)[1..] == w[1..] + q;
      forall i | 0 <= i < |w[1..]| ensures MatchLen(rule, w[1..][i..] + q) == 0 {
        assert w[1..][i..] == w[i + 1..];
      }
      CopyForward(rule, w[1..], q);
      Unfold(rule, w + q);
      assert w + Rewrite(rule, q) == [w[0]] + (w[1..] + Rewrite(rule, q));
    }
  }

  /** Rewriting brings in no character that is neither in the input nor in the mark. */
  lemma {:induction false} NoNewCharacters(rule: Rule, s: string, c: char)
    requires c !in s && c !in Mark(rule)
    ensures c !in Rewrite(rule, s)
    decreases |s|
  {
    if s != [] {
      var n := MatchLen(rule, s);
      NoNewCharacters(rule, s[if n == 0 then 1 else n..], c);
    }
  }
}
