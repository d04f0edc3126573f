/**
  What the redactor promises about its output, and that each pass establishes its own
  promise and keeps those of the passes before it.
 */
module Guarantees {
  import opened Strings
  import opened Rewriting

  // ----- the three promises

  predicate Marked(s: string) {
    REDACTED <= s && (|s| == 10 || s[10] == '\\')
  }

  /** Every `X:\Users\` is followed by `<redacted>` and then a backslash or the end. */
  ghost predicate UserGuarded(d: Drive, s: string) {
    forall i :: At(s, i, UsersPrefix(d)) ==> Marked(s[i + 9..])
  }

  /** Every double backslash is followed by the path marker. */
  ghost predicate UncGuarded(s: string) {
    forall i :: At(s, i, "\\\\") ==> PATH_MARK <= s[i + 2..]
  }

  /** s[i..j] is a stretch of hex digits and colons that the IPv6 heuristic takes for an address. */
  predicate Window(s: string, i: int, j: int) {
    0 <= i < j <= |s| && j - i > 4 && IsHexDigit(s[i])
    && (forall m :: i <= m < j ==> IsHexColon(s[m])) && Colons(s[i..j]) >= 2
  }

  ghost predicate Ipv6Free(s: string) {
    forall i, j :: !Window(s, i, j)
  }

  // ----- the third promise in plain characters

  /** s[i..j] is a stretch of more than four characters, all hex digits or colons, that begins with a digit
      and has colons at two places. */
  ghost predicate Stretch(s: string, i: int, j: int) {
    && 0 <= i && i + 4 < j <= |s| && s[i] in "0123456789abcdefABCDEF"
    && (forall m :: i <= m < j ==> s[m] in "0123456789abcdefABCDEF:")
    && exists a, b :: i <= a < b < j && s[a] == ':' && s[b] == ':'
  }

  ghost predicate NoStretch(s: string) {
    forall i, j :: !Stretch(s, i, j)
  }

  lemma HexChars(c: char)
    ensures IsHexDigit(c) <==> c in "0123456789abcdefABCDEF"
    ensures IsHexColon(c) <==> c in "0123456789abcdefABCDEF:"
  {
  }

  lemma {:induction false} ColonPlaces(t: string)
    ensures Colons(t) >= 1 <==> ':' in t
    ensures Colons(t) >= 2 <==> exists a, b :: 0 <= a < b < |t| && t[a] == ':' && t[b] == ':'
  {
    if t != [] {
      ColonPlaces(t[1..]);
      assert t == [t[0]] + t[1..];
      if a, b :| 0 <= a < b < |t| && t[a] == ':' && t[b] == ':' {
        assert t[1..][b - 1] == ':';
        if a > 0 { assert t[1..][a - 1] == ':'; }
      }
      if a, b :| 0 <= a < b < |t[1..]| && t[1..][a] == ':' && t[1..][b] == ':' {
        assert t[a + 1] == ':' && t[b + 1] == ':';
      }
      if t[0] == ':' && ':' in t[1..] {
        var b :| 0 <= b < |t[1..]| && t[1..][b] == ':';
        assert t[b + 1] == ':';
      }
    }
  }

  lemma TwoColons(s: string, i: nat, j: nat)
    requires i <= j <= |s|
    ensures Colons(s[i..j]) >= 2 <==> exists a, b :: i <= a < b < j && s[a] == ':' && s[b] == ':'
  {
    var t := s[i..j];
    ColonPlaces(t);
    if a, b :| 0 <= a < b < |t| && t[a] == ':' && t[b] == ':' {
      assert s[i + a] == ':' && s[i + b] == ':';
    }
    if a, b :| i <= a < b < j && s[a] == ':' && s[b] == ':' {
      assert t[a - i] == ':' && t[b - i] == ':';
    }
  }

  lemma WindowIsStretch(s: string, i: int, j: int)
    ensures Window(s, i, j) <==> Stretch(s, i, j)
  {
    if 0 <= i && i + 4 < j <= |s| {
      TwoColons(s, i, j);
      HexChars(s[i]);
      forall m | i <= m < j ensures IsHexColon(s[m]) <==> s[m] in "0123456789abcdefABCDEF:" { HexChars(s[m]); }
      hide IsHexDigit, IsHexColon, Colons;
    }
  }

  lemma FreeIsNoStretch(s: string)
    ensures Ipv6Free(s) <==> NoStretch(s)
  {
    hide Window, Stretch;
    forall i, j ensures Window(s, i, j) <==> Stretch(s, i, j) { WindowIsStretch(s, i, j); }
  }

  // ----- facts about the marks, character by character

  lemma PrefixChars(d: Drive, s: string)
    ensures UsersPrefix(d) <= s ==>
      |s| >= 9 && s[0] == d && s[1] == ':' && s[2] == '\\' && s[3] == 'U' && s[8] == '\\' && s[..9] == UsersPrefix(d)
  {
    var p := UsersPrefix(d);
    assert p <= s ==> s[0] == p[0] && s[1] == p[1] && s[2] == p[2] && s[3] == p[3] && s[8] == p[8];
  }

  lemma BackslashChars(s: string)
    ensures "\\\\" <= s <==> |s| >= 2 && s[0] == '\\' && s[1] == '\\'
  {
    assert "\\\\" <= s ==> s[0] == "\\\\"[0] && s[1] == "\\\\"[1];
  }

  /** Past its first character no mark holds a drive letter with a colon behind it. */
  lemma MarkChars(rule: Rule, j: nat)
    requires 0 < j < |Mark(rule)|
    ensures IsDrive(Mark(rule)[j]) ==> j + 1 < |Mark(rule)| && Mark(rule)[j + 1] != ':'
  {
  }

  lemma NotInMark(rule: Rule, d: Drive, j: nat, rest: string)
    requires 0 < j < |Mark(rule)|
    ensures !(UsersPrefix(d) <= Mark(rule)[j..] + rest)
  {
    var s := Mark(rule)[j..] + rest;
    MarkChars(rule, j);
    hide *;
    assert s[0] == Mark(rule)[j];
    assert j + 1 < |Mark(rule)| ==> s[1] == Mark(rule)[j + 1];
    PrefixChars(d, s);
  }

  lemma RedactedHasNoMatch(rule: Rule, i: nat, q: string)
    requires i < 10
    ensures MatchLen(rule, REDACTED[i..] + q) == 0
  {
    var s := REDACTED[i..] + q;
    assert s[0] == REDACTED[i];
    assert i <= 6 ==> s[6 - i] == REDACTED[6];
    assert i >= 6 ==> s[9 - i] == REDACTED[9];
    BackslashChars(s);
    if rule.UserName? { PrefixChars(rule.drive, s); }
  }

  lemma PathMarkHasNoAddress(i: nat, q: string)
    requires i < 15
    ensures MatchLen(Ipv6, PATH_MARK[i..] + q) == 0
  {
    var s := PATH_MARK[i..] + q;
    assert s[0] == PATH_MARK[i];
    assert i <= 6 ==> s[6 - i] == PATH_MARK[6];
    assert i <= 9 ==> s[9 - i] == PATH_MARK[9];
    assert s[14 - i] == PATH_MARK[14];
  }

  /** A backslash at the head stays at the head: copied, or as the start of a UNC mark. */
  lemma SeparatorKept(rule: Rule, q: string)
    requires q != [] && q[0] == '\\'
    ensures Rewrite(rule, q) != [] && Rewrite(rule, q)[0] == '\\'
  {
    if rule.UserName? { PrefixChars(rule.drive, q); }
    Unfold(rule, q);
    assert Emit(rule, q)[0] == '\\';
    hide *;
  }

  lemma MarkedKept(rule: Rule, q: string)
    requires Marked(q)
    ensures Marked(Rewrite(rule, q))
  {
    var q' := q[10..];
    assert q == REDACTED + q';
    forall i | 0 <= i < |REDACTED| ensures MatchLen(rule, REDACTED[i..] + q') == 0 {
      RedactedHasNoMatch(rule, i, q');
    }
    hide MatchLen, Mark, Rewrite;
    CopyForward(rule, REDACTED, q');
    if q' != [] {
      SeparatorKept(rule, q');
    } else {
      EmptyKept(rule);
    }
  }

  lemma EmptyKept(rule: Rule)
    ensures Rewrite(rule, []) == []
  {
  }

  lemma MarkedChars(s: string)
    ensures Marked(s) <==> |s| >= 10 && s[..10] == REDACTED && (|s| == 10 || s[10] == '\\')
    ensures Marked(s) ==> s[0] == '<'
  {
    assert Marked(s) ==> s[0] == s[..10][0] == REDACTED[0];
  }

  // ----- promise 1, user names

  /** Where a mark can begin inside the prefix of a user path: only a UNC mark, at its last backslash. */
  lemma MarkStart(rule: Rule, d: Drive, m: nat)
    requires m < 9 && UsersPrefix(d)[m] == Mark(rule)[0]
    requires m + 1 < 9 ==> UsersPrefix(d)[m + 1] == Mark(rule)[1]
    ensures (rule == UserName(d) && m == 0) || (rule == Unc && m == 8)
  {
  }

  lemma FirstMatchInPrefix(rule: Rule, d: Drive, t: string, m: nat)
    requires UsersPrefix(d) <= Rewrite(rule, t)
    requires m < 9 && m < |t| && MatchLen(rule, t[m..]) > 0
    requires Rewrite(rule, t) == UsersPrefix(d)[..m] + Rewrite(rule, t[m..])
    ensures (rule == UserName(d) && m == 0) || (rule == Unc && m == 8)
  {
    var p, out := UsersPrefix(d), Rewrite(rule, t);
    Unfold(rule, t[m..]);
    MarkLength(rule);
    hide MatchLen, Mark, Rewrite, UsersPrefix;
    assert out[m] == Mark(rule)[0] && out[m + 1] == Mark(rule)[1];
    assert p == out[..9];
    MarkStart(rule, d, m);
  }

  lemma MarkLength(rule: Rule)
    ensures |Mark(rule)| >= 13
  {
  }

  lemma GuardedPrefix(d: Drive, s: string, k: nat)
    requires UserGuarded(d, s) && k + 9 <= |s| && s[k..][..8] == UsersPrefix(d)[..8]
    ensures !("\\\\" <= s[k + 8..])
  {
    BackslashChars(s[k + 8..]);
    MarkedChars(s[k + 9..]);
    assert s[k + 8] == '\\' ==> s[k..][..9] == s[k..][..8] + [s[k + 8]] == UsersPrefix(d);
    assert s[k..][..9] == UsersPrefix(d) ==> At(s, k, UsersPrefix(d));
  }

  /** A pass with another rule keeps the promise: the occurrence was there before, followed
      by the same marked text, which the pass copies. */
  lemma UserPreservedAt(rule: Rule, d: Drive, s: string, i: nat)
    requires rule != UserName(d) && UserGuarded(d, s) && At(Rewrite(rule, s), i, UsersPrefix(d))
    ensures Marked(Rewrite(rule, s)[i + 9..])
  {
    var p := UsersPrefix(d);
    hide MatchLen, Mark, Rewrite, UsersPrefix, Marked;
    var k, j := Origin(rule, s, i);
    if j > 0 {
      NotInMark(rule, d, j, Rewrite(rule, s[k + MatchLen(rule, s[k..])..]));
    } else {
      var m := CopyUntil(rule, s[k..], p);
      if m < 9 {
        FirstMatchInPrefix(rule, d, s[k..], m);
        UncMatchChars(s[k..][8..]);
        DropTwice(s, k, 8);
        GuardedPrefix(d, s, k);
      } else {
        DropTwice(s, k, 9);
        CopiedMarked(rule, d, s, k);
        assert Rewrite(rule, s)[i..] == p + Rewrite(rule, s[k + 9..]);
        DropTwice(Rewrite(rule, s), i, 9);
      }
    }
  }

  lemma UncMatchChars(t: string)
    ensures MatchLen(Unc, t) > 0 <==> "\\\\" <= t
  {
  }

  lemma CopiedMarked(rule: Rule, d: Drive, s: string, k: nat)
    requires UserGuarded(d, s) && k + 9 <= |s| && s[k..][..9] == UsersPrefix(d)
    ensures Marked(Rewrite(rule, s[k + 9..]))
  {
    assert At(s, k, UsersPrefix(d));
    MarkedKept(rule, s[k + 9..]);
  }

  lemma UserPreserved(rule: Rule, d: Drive, s: string)
    requires rule != UserName(d) && UserGuarded(d, s)
    ensures UserGuarded(d, Rewrite(rule, s))
  {
    forall i | At(Rewrite(rule, s), i, UsersPrefix(d)) ensures Marked(Rewrite(rule, s)[i + 9..]) {
      UserPreservedAt(rule, d, s, i);
    }
  }

  lemma UserMarkMarked(d: Drive, t: string)
    requires UsersPrefix(d) <= t
    ensures Rewrite(UserName(d), t) == UsersPrefix(d) + Rewrite(UserName(d), t)[9..]
    ensures Marked(Rewrite(UserName(d), t)[9..])
  {
    var rule := UserName(d);
    var n := MatchLen(rule, t);
    assert n >= 9 && Mark(rule) == UsersPrefix(d) + REDACTED;
    assert n < |t| ==> t[n] == '\\' by {
      if n < |t| {
        assert t[9..][n - 9] == t[n];
      }
    }
    hide MatchLen, Mark, UsersPrefix;
    Unfold(rule, t);
    if n < |t| {
      SeparatorKept(rule, t[n..]);
    } else {
      EmptyKept(rule);
    }
    hide Rewrite, Emit;
    assert Rewrite(rule, t)[9..] == REDACTED + Rewrite(rule, t[n..]);
  }

  lemma UserEstablishedAt(d: Drive, s: string, i: nat)
    requires At(Rewrite(UserName(d), s), i, UsersPrefix(d))
    ensures Marked(Rewrite(UserName(d), s)[i + 9..])
  {
    var rule := UserName(d);
    hide MatchLen, Mark, Rewrite, UsersPrefix, Marked;
    var k, j := Origin(rule, s, i);
    if j > 0 {
      NotInMark(rule, d, j, Rewrite(rule, s[k + MatchLen(rule, s[k..])..]));
    } else {
      var t := s[k..];
      var m := CopyUntil(rule, t, UsersPrefix(d));
      if m < 9 {
        FirstMatchInPrefix(rule, d, t, m);
        DropNone(t);
        UserMatchChars(d, t);
        UserMarkMarked(d, t);
        DropTwice(Rewrite(rule, s), i, 9);
      } else {
        DropNone(t);
        UserMatchChars(d, t);
      }
    }
  }

  lemma UserMatchChars(d: Drive, t: string)
    ensures MatchLen(UserName(d), t) > 0 <==> UsersPrefix(d) <= t
    ensures MatchLen(UserName(d), t) > 0 <==> |t| >= 9 && t[..9] == UsersPrefix(d)
  {
  }

  lemma UserEstablished(d: Drive, s: string)
    ensures UserGuarded(d, Rewrite(UserName(d), s))
  {
    forall i | At(Rewrite(UserName(d), s), i, UsersPrefix(d))
      ensures Marked(Rewrite(UserName(d), s)[i + 9..])
    {
      UserEstablishedAt(d, s, i);
    }
  }

  /** The promise is exactly being a fixed point of the rewrite, so rewriting is idempotent. */
  lemma UserFixedPoint(d: Drive, s: string)
    ensures UserGuarded(d, s) <==> Rewrite(UserName(d), s) == s
  {
    if UserGuarded(d, s) {
      GuardedUnchanged(d, s);
    } else {
      UserEstablished(d, s);
    }
  }

  lemma {:induction false} GuardedUnchanged(d: Drive, s: string)
    requires UserGuarded(d, s)
    ensures Rewrite(UserName(d), s) == s
    decreases |s|
  {
    var rule := UserName(d);
    if s != [] {
      GuardedStep(d, s);
      hide MatchLen, Mark, Rewrite, UsersPrefix, Marked, Emit;
      GuardedSuffix(d, s, Step(rule, s));
      GuardedUnchanged(d, s[Step(rule, s)..]);
      Unfold(rule, s);
    }
  }

  lemma GuardedStep(d: Drive, s: string)
    requires s != [] && UserGuarded(d, s)
    ensures s == Emit(UserName(d), s) + s[Step(UserName(d), s)..]
  {
    if UsersPrefix(d) <= s {
      DropNone(s);
      assert At(s, 0, UsersPrefix(d));
      MarkedSegment(s[9..]);
    }
  }

  lemma MarkedSegment(s: string)
    requires Marked(s)
    ensures SegLen(s) == 10
  {
    forall i | 0 <= i < 10 ensures s[i] != '\\' {
      assert s[i] == s[..10][i] == REDACTED[i];
    }
    SegLenIs(s, 10);
  }

  lemma GuardedSuffix(d: Drive, s: string, k: nat)
    requires k <= |s| && UserGuarded(d, s)
    ensures UserGuarded(d, s[k..])
  {
    hide Marked, UsersPrefix;
    forall i | At(s[k..], i, UsersPrefix(d)) ensures Marked(s[k..][i + 9..]) {
      DropTwice(s, k, i);
      assert At(s, k + i, UsersPrefix(d));
      DropTwice(s, k, i + 9);
    }
  }

  // ----- promise 2, UNC paths

  lemma UncMarkChars(j: nat)
    ensures 0 < j < 17 && UNC_MARK[j] == '\\' ==> j == 1 && UNC_MARK[j + 1] != '\\'
  {
  }

  lemma NotInUncMark(j: nat, rest: string)
    requires 0 < j < 17
    ensures !("\\\\" <= UNC_MARK[j..] + rest)
  {
    var s := UNC_MARK[j..] + rest;
    UncMarkChars(j);
    BackslashChars(s);
    hide *;
    assert s[0] == UNC_MARK[j];
    assert j + 1 < 17 ==> s[1] == UNC_MARK[j + 1];
  }

  lemma UncMarkFirst(t: string)
    requires "\\\\" <= t
    ensures Rewrite(Unc, t) == UNC_MARK + Rewrite(Unc, t)[17..]
    ensures PATH_MARK <= Rewrite(Unc, t)[2..]
  {
    var rest := Rewrite(Unc, t[Step(Unc, t)..]);
    Unfold(Unc, t);
    assert UNC_MARK[2..] == PATH_MARK;
    hide Rewrite, MatchLen;
    DropInFirst(UNC_MARK, rest, 2);
    DropInFirst(UNC_MARK, rest, 17);
  }

  /** An output that starts with a backslash starts with the input's own. */
  lemma BackslashHead(rule: Rule, t: string)
    requires rule != Ipv6 ==> rule == Unc
    requires Rewrite(rule, t) != [] && Rewrite(rule, t)[0] == '\\'
    ensures t != [] && t[0] == '\\'
    ensures rule == Ipv6 ==> Rewrite(rule, t) == ['\\'] + Rewrite(rule, t[1..])
  {
    Unfold(rule, t);
    UncMatchChars(t);
    BackslashChars(t);
    assert Emit(rule, t)[0] == '\\';
  }

  lemma UncHead(t: string)
    requires "\\\\" <= Rewrite(Unc, t)
    ensures "\\\\" <= t
  {
    BackslashChars(Rewrite(Unc, t));
    BackslashHead(Unc, t);
    UncMatchChars(t);
    BackslashChars(t);
    if MatchLen(Unc, t) == 0 {
      UnfoldCopy(Unc, t);
      assert Rewrite(Unc, t)[1] == Rewrite(Unc, t[1..])[0];
      BackslashHead(Unc, t[1..]);
    }
  }

  lemma UncEstablishedAt(s: string, i: nat)
    requires At(Rewrite(Unc, s), i, "\\\\")
    ensures PATH_MARK <= Rewrite(Unc, s)[i + 2..]
  {
    hide MatchLen, Rewrite;
    var k, j := Origin(Unc, s, i);
    if j > 0 {
      NotInUncMark(j, Rewrite(Unc, s[k + MatchLen(Unc, s[k..])..]));
    } else {
      UncHead(s[k..]);
      UncMarkFirst(s[k..]);
      DropTwice(Rewrite(Unc, s), i, 2);
    }
  }

  lemma UncEstablished(s: string)
    ensures UncGuarded(Rewrite(Unc, s))
  {
    forall i | At(Rewrite(Unc, s), i, "\\\\") ensures PATH_MARK <= Rewrite(Unc, s)[i + 2..] {
      UncEstablishedAt(s, i);
    }
  }

  lemma PathMarkKept(q: string)
    requires PATH_MARK <= q
    ensures PATH_MARK <= Rewrite(Ipv6, q)
  {
    var q' := q[15..];
    assert q == PATH_MARK + q';
    forall i | 0 <= i < |PATH_MARK| ensures MatchLen(Ipv6, PATH_MARK[i..] + q') == 0 {
      PathMarkHasNoAddress(i, q');
    }
    hide MatchLen, Mark, Rewrite;
    CopyForward(Ipv6, PATH_MARK, q');
  }

  lemma NoBackslashInIpMark(j: nat, rest: string)
    requires j < 13
    ensures !("\\\\" <= IP_MARK[j..] + rest)
  {
    assert (IP_MARK[j..] + rest)[0] == IP_MARK[j];
    BackslashChars(IP_MARK[j..] + rest);
  }

  lemma Ipv6Copies(t: string)
    requires "\\\\" <= Rewrite(Ipv6, t)
    ensures "\\\\" <= t && Rewrite(Ipv6, t) == "\\\\" + Rewrite(Ipv6, t[2..])
  {
    hide MatchLen, Rewrite;
    BackslashChars(Rewrite(Ipv6, t));
    BackslashHead(Ipv6, t);
    assert Rewrite(Ipv6, t)[1] == Rewrite(Ipv6, t[1..])[0];
    BackslashHead(Ipv6, t[1..]);
    BackslashChars(t);
    DropTwice(t, 1, 1);
  }

  lemma UncPreservedAt(s: string, i: nat)
    requires UncGuarded(s) && At(Rewrite(Ipv6, s), i, "\\\\")
    ensures PATH_MARK <= Rewrite(Ipv6, s)[i + 2..]
  {
    hide MatchLen, Rewrite;
    var k, j := Origin(Ipv6, s, i);
    if j > 0 {
      NoBackslashInIpMark(j, Rewrite(Ipv6, s[k + MatchLen(Ipv6, s[k..])..]));
    } else {
      Ipv6Copies(s[k..]);
      assert At(s, k, "\\\\");
      DropTwice(s, k, 2);
      PathMarkKept(s[k + 2..]);
      DropTwice(Rewrite(Ipv6, s), i, 2);
    }
  }

  lemma UncPreserved(s: string)
    requires UncGuarded(s)
    ensures UncGuarded(Rewrite(Ipv6, s))
  {
    forall i | At(Rewrite(Ipv6, s), i, "\\\\") ensures PATH_MARK <= Rewrite(Ipv6, s)[i + 2..] {
      UncPreservedAt(s, i);
    }
  }

  lemma StepStops(s: string, i: nat)
    requires 0 < i < |s| && s[i] == '\\'
    ensures Step(Ipv6, s) <= i
  {
  }

  /** A backslash is part of no address run, so the address pass comes to it and copies it. */
  lemma {:induction false} BackslashReached(s: string, i: nat) returns (k: nat)
    requires i < |s| && s[i] == '\\'
    ensures k <= |Rewrite(Ipv6, s)| && Rewrite(Ipv6, s)[k..] == Rewrite(Ipv6, s[i..])
    decreases |s|
  {
    if i == 0 {
      k := 0;
      DropNone(s);
      DropNone(Rewrite(Ipv6, s));
    } else {
      StepStops(s, i);
      Unfold(Ipv6, s);
      hide *;
      var step := Step(Ipv6, s);
      var k' := BackslashReached(s[step..], i - step);
      DropTwice(s, step, i - step);
      k := |Emit(Ipv6, s)| + k';
      OriginFurther(Ipv6, s, k);
    }
  }

  lemma SeparatorCopied(t: string)
    requires t != [] && t[0] == '\\'
    ensures Rewrite(Ipv6, t) == ['\\'] + Rewrite(Ipv6, t[1..])
  {
    UnfoldCopy(Ipv6, t);
  }

  lemma PairReached(s: string, i: int) returns (k: nat)
    requires At(s, i, "\\\\")
    ensures At(Rewrite(Ipv6, s), k, "\\\\") && i + 2 <= |s| && Rewrite(Ipv6, s)[k + 2..] == Rewrite(Ipv6, s[i + 2..])
  {
    var t := s[i..];
    BackslashChars(t);
    hide *;
    k := BackslashReached(s, i);
    SeparatorCopied(t);
    SeparatorCopied(t[1..]);
    DropTwice(t, 1, 1);
    DropTwice(s, i, 2);
    TwoThen(Rewrite(Ipv6, s[i + 2..]));
    PairWithTail(Rewrite(Ipv6, s), k, Rewrite(Ipv6, s[i + 2..]));
  }

  lemma TwoThen(rest: string)
    ensures ['\\'] + (['\\'] + rest) == ['\\', '\\'] + rest
  {
  }

  lemma PairWithTail(out: string, k: nat, rest: string)
    requires k <= |out| && out[k..] == ['\\', '\\'] + rest
    ensures At(out, k, "\\\\") && k + 2 <= |out| && out[k + 2..] == rest
  {
    BackslashChars(out[k..]);
    DropTwice(out, k, 2);
  }

  lemma AddressHead(t: string)
    requires MatchLen(Ipv6, t) > 0
    ensures Rewrite(Ipv6, t) == IP_MARK + Rewrite(Ipv6, t[MatchLen(Ipv6, t)..])
  {
    Unfold(Ipv6, t);
  }

  lemma NoPathInAddress(j: nat, rest: string)
    requires j < 15
    ensures !(PATH_MARK <= PATH_MARK[..j] + (IP_MARK + rest))
  {
    var out := PATH_MARK[..j] + (IP_MARK + rest);
    assert out[j] == IP_MARK[0] && (j == 0 ==> out[10] == IP_MARK[10]);
    PrefixIndex(out, PATH_MARK, j);
    PrefixIndex(out, PATH_MARK, 10);
  }

  /** The marker in the output was there before, for no address mark can begin it. */
  lemma PathMarkWasThere(t: string)
    requires PATH_MARK <= Rewrite(Ipv6, t)
    ensures PATH_MARK <= t
  {
    hide MatchLen, Rewrite;
    var j := CopyUntil(Ipv6, t, PATH_MARK);
    if j < 15 {
      AddressHead(t[j..]);
      NoPathInAddress(j, Rewrite(Ipv6, t[j..][MatchLen(Ipv6, t[j..])..]));
    } else {
      assert PATH_MARK[..15] == PATH_MARK;
    }
  }

  /** The address pass repairs no bare double backslash either. */
  lemma AddressesDecideNothing(s: string)
    ensures UncGuarded(Rewrite(Ipv6, s)) <==> UncGuarded(s)
  {
    if UncGuarded(s) { UncPreserved(s); }
    if UncGuarded(Rewrite(Ipv6, s)) {
      forall i | At(s, i, "\\\\") ensures PATH_MARK <= s[i + 2..] {
        hide Rewrite;
        var k := PairReached(s, i);
        PathMarkWasThere(s[i + 2..]);
      }
    }
  }
}
