/** `redact_ipv6`: a rescanning loop, equal to one split into maximal runs. */
module Ipv6Redaction {
  import opened Strings
  import opened Rewriting
  import opened Guarantees

  // ----- the reference: split into maximal runs

  function LeadingColons(run: string): (r: nat)
    ensures r <= |run|
  {
    if run == [] || run[0] != ':' then 0 else 1 + LeadingColons(run[1..])
  }

  /** One maximal run of hex digits and colons: the part from its first hex digit on becomes
      the mark when it has at least two colons and more than four characters. */
  function RedactRun(run: string): string {
    var k := LeadingColons(run);
    if Colons(run[k..]) >= 2 && |run| - k > 4 then run[..k] + IP_MARK else run
  }

  function RedactRuns(s: string): string
    decreases |s|
  {
    if s == [] then []
    else if IsHexColon(s[0]) then RedactRun(s[..RunLen(s)]) + RedactRuns(s[RunLen(s)..])
    else [s[0]] + RedactRuns(s[1..])
  }

  lemma {:induction false} RunLenIs(s: string, n: nat)
    requires n <= |s| && (forall i :: 0 <= i < n ==> IsHexColon(s[i])) && (n == |s| || !IsHexColon(s[n]))
    ensures RunLen(s) == n
  {
    if n > 0 {
      RunLenIs(s[1..], n - 1);
    }
  }

  lemma {:induction false} ColonsAppend(a: string, b: string)
    ensures Colons(a + b) == Colons(a) + Colons(b)
  {
    if a == [] {
      assert a + b == b;
    } else {
      ColonsAppend(a[1..], b);
      assert (a + b)[1..] == a[1..] + b;
    }
  }

  /** A run whose head does not match has no match further on: fewer colons and fewer characters. */
  lemma RunTail(run: string)
    requires run != [] && (run[0] == ':' || Colons(run) < 2 || |run| <= 4)
    ensures RedactRun(run) == [run[0]] + RedactRun(run[1..])
  {
    if run[0] == ':' {
      LeadingColonKept(run);
    } else {
      SmallRunKept(run);
    }
  }

  lemma LeadingColonKept(run: string)
    requires run != [] && run[0] == ':'
    ensures RedactRun(run) == [':'] + RedactRun(run[1..])
  {
    var k := LeadingColons(run[1..]);
    assert LeadingColons(run) == k + 1;
    hide Colons, LeadingColons;
    DropTwice(run, 1, k);
    TakeOneMore(run, k);
    Associate([':'], run[1..][..k], IP_MARK);
    assert run == [':'] + run[1..];
  }

  lemma SmallRunKept(run: string)
    requires run != [] && run[0] != ':' && (Colons(run) < 2 || |run| <= 4)
    ensures RedactRun(run) == [run[0]] + RedactRun(run[1..])
  {
    hide *;
    SmallKept(run);
    FewerColons(run);
    SmallKept(run[1..]);
    assert run == [run[0]] + run[1..];
  }

  lemma FewerColons(run: string)
    ensures run != [] && run[0] != ':' ==> Colons(run[1..]) == Colons(run)
  {
  }

  lemma SmallKept(run: string)
    requires Colons(run) < 2 || |run| <= 4
    ensures RedactRun(run) == run
  {
    ColonsSplit(run, LeadingColons(run));
    hide Colons, LeadingColons;
  }

  lemma ColonsSplit(s: string, k: nat)
    requires k <= |s|
    ensures Colons(s) == Colons(s[..k]) + Colons(s[k..])
  {
    assert s == s[..k] + s[k..];
    ColonsAppend(s[..k], s[k..]);
  }

  lemma RunHead(run: string)
    requires run != [] && run[0] != ':' && Colons(run) >= 2 && |run| > 4
    ensures RedactRun(run) == IP_MARK
  {
    DropNone(run);
    assert run[..0] == [];
  }

  lemma ShorterRun(s: string)
    requires s != [] && IsHexColon(s[0])
    ensures RunLen(s[1..]) == RunLen(s) - 1
    ensures s[..RunLen(s)] != [] && s[..RunLen(s)][0] == s[0]
    ensures s[..RunLen(s)][1..] == s[1..][..RunLen(s[1..])]
    ensures s[1..][RunLen(s[1..])..] == s[RunLen(s)..]
  {
  }

  lemma {:induction false} RunIsRewritten(s: string)
    ensures Rewrite(Ipv6, s) == RedactRun(s[..RunLen(s)]) + Rewrite(Ipv6, s[RunLen(s)..])
    decreases |s|
  {
    var n := RunLen(s);
    if n == 0 {
      assert s[..0] == [] && RedactRun([]) == [];
      DropNone(s);
    } else if MatchLen(Ipv6, s) > 0 {
      Unfold(Ipv6, s);
      RunHead(s[..n]);
    } else {
      RunIsRewritten(s[1..]);
      UnfoldCopy(Ipv6, s);
      ShorterRun(s);
      NoMatchRun(s);
      hide *;
      RunTail(s[..n]);
      Associate([s[0]], RedactRun(s[..n][1..]), Rewrite(Ipv6, s[n..]));
    }
  }

  lemma NoMatchRun(s: string)
    ensures s != [] && IsHexColon(s[0]) && MatchLen(Ipv6, s) == 0 ==> s[..RunLen(s)] != []
    ensures s != [] && IsHexColon(s[0]) && MatchLen(Ipv6, s) == 0
            ==> s[0] == ':' || Colons(s[..RunLen(s)]) < 2 || |s[..RunLen(s)]| <= 4
  {
  }

  /** The scanner that starts afresh at every character does what one split into runs does. */
  lemma {:induction false} ScanIsRunSplit(s: string)
    ensures Rewrite(Ipv6, s) == RedactRuns(s)
    decreases |s|
  {
    if s != [] {
      if IsHexColon(s[0]) {
        RunIsRewritten(s);
        ScanIsRunSplit(s[RunLen(s)..]);
      } else {
        UnfoldCopy(Ipv6, s);
        ScanIsRunSplit(s[1..]);
      }
    }
  }

  // ----- promise 3

  lemma MarkHasNoWindow(j: nat, rest: string, n: int)
    requires j < 13
    ensures !Window(IP_MARK[j..] + rest, 0, n)
  {
    var t := IP_MARK[j..] + rest;
    assert t[0] == IP_MARK[j];
    assert j <= 6 ==> t[6 - j] == IP_MARK[6];
    assert 6 < j <= 9 ==> t[9 - j] == IP_MARK[9];
    assert t[12 - j] == IP_MARK[12];
  }

  lemma WindowMatches(t: string, n: int)
    requires Window(t, 0, n)
    ensures MatchLen(Ipv6, t) >= n > 0
  {
    var r := RunLen(t);
    RunCovers(t, n);
    assert t[..r] == t[0..n] + t[n..r];
    ColonsAppend(t[0..n], t[n..r]);
  }

  lemma {:induction false} RunCovers(t: string, n: nat)
    requires n <= |t| && forall m :: 0 <= m < n ==> IsHexColon(t[m])
    ensures RunLen(t) >= n
  {
    if n > 0 {
      RunCovers(t[1..], n - 1);
    }
  }

  lemma MatchIsWindow(t: string)
    requires MatchLen(Ipv6, t) > 0
    ensures Window(t, 0, MatchLen(Ipv6, t))
  {
    var n := RunLen(t);
    assert MatchLen(Ipv6, t) == n;
    assert t[0..n] == t[..n];
  }

  lemma WindowShift(s: string, i: nat, j: int)
    requires i <= |s|
    ensures Window(s, i, j) <==> Window(s[i..], 0, j - i)
  {
    if 0 <= i < j <= |s| {
      assert s[i..][0..j - i] == s[i..j];
      assert forall m :: i <= m < j ==> s[m] == s[i..][m - i];
      assert forall m :: 0 <= m < j - i ==> s[i..][m] == s[i + m];
    }
  }

  lemma MarkAt(t: string, m: nat, copied: string)
    requires m <= |t| && m == |copied| && Rewrite(Ipv6, t) == copied + Rewrite(Ipv6, t[m..])
    ensures m < |t| && MatchLen(Ipv6, t[m..]) > 0 ==> m < |Rewrite(Ipv6, t)| && Rewrite(Ipv6, t)[m] == '['
  {
    if m < |t| && MatchLen(Ipv6, t[m..]) > 0 {
      Unfold(Ipv6, t[m..]);
      assert Rewrite(Ipv6, t[m..])[0] == '[';
    }
  }

  /** A stretch of hex digits and colons at the head of the output was copied whole. */
  lemma WindowWasThere(t: string, n: int)
    requires Window(Rewrite(Ipv6, t), 0, n)
    ensures MatchLen(Ipv6, t) == 0 && Window(t, 0, n)
  {
    var out := Rewrite(Ipv6, t);
    hide MatchLen, Rewrite, Colons;
    var m := CopyUntil(Ipv6, t, out[0..n]);
    MarkAt(t, m, out[0..n][..m]);
    DropNone(t);
    assert m == n;
    assert t[0..n] == out[0..n];
    assert forall i :: 0 <= i < n ==> t[i] == t[0..n][i] == out[0..n][i] == out[i];
  }

  lemma Ipv6Established(s: string)
    ensures Ipv6Free(Rewrite(Ipv6, s))
  {
    var out := Rewrite(Ipv6, s);
    hide MatchLen, Rewrite, Window;
    forall i, n ensures !Window(out, i, n) {
      NoWindowAt(s, i, n);
    }
  }

  lemma NoWindowAt(s: string, i: int, n: int)
    ensures !Window(Rewrite(Ipv6, s), i, n)
  {
    var out := Rewrite(Ipv6, s);
    WindowInside(out, i, n);
    hide Rewrite, MatchLen, Window;
    if Window(out, i, n) {
      WindowShift(out, i, n);
      var k, j := Origin(Ipv6, s, i);
      if j > 0 {
        MarkHasNoWindow(j, Rewrite(Ipv6, s[k + MatchLen(Ipv6, s[k..])..]), n - i);
      } else {
        WindowWasThere(s[k..], n - i);
        WindowMatches(s[k..], n - i);
      }
    }
  }

  lemma WindowInside(s: string, i: int, n: int)
    ensures Window(s, i, n) ==> 0 <= i <= |s|
  {
  }

  /** The promise is exactly being a fixed point of the pass, so the pass is idempotent. */
  lemma Ipv6FixedPoint(s: string)
    ensures Ipv6Free(s) <==> Rewrite(Ipv6, s) == s
  {
    Ipv6Established(s);
    if Ipv6Free(s) {
      hide Rewrite, Window;
      forall i | 0 <= i < |s| ensures MatchLen(Ipv6, s[i..] + []) == 0 {
        assert s[i..] + [] == s[i..];
        WindowShift(s, i, i + MatchLen(Ipv6, s[i..]));
        if MatchLen(Ipv6, s[i..]) > 0 {
          MatchIsWindow(s[i..]);
        }
      }
      CopyForward(Ipv6, s, []);
      EmptyKept(Ipv6);
      assert s + [] == s;
    }
  }

  /** In plain characters: no stretch that counts as an address remains, and a text without one is kept. */
  lemma AddressesRedacted(s: string)
    ensures NoStretch(Rewrite(Ipv6, s))
    ensures Rewrite(Ipv6, s) == s <==> NoStretch(s)
  {
    Ipv6Established(s);
    Ipv6FixedPoint(s);
    FreeIsNoStretch(s);
    FreeIsNoStretch(Rewrite(Ipv6, s));
    hide Rewrite, Ipv6Free, NoStretch;
  }

  // ----- what becomes of an address and of the text around it

  lemma {:induction false} RunEndsIn(x: string, t: string)
    requires x != [] && !IsHexColon(x[|x| - 1])
    ensures RunLen(x + t) == RunLen(x) < |x|
  {
    var n := RunLen(x);
    assert n < |x|;
    assert forall i :: 0 <= i <= n ==> (x + t)[i] == x[i];
    RunLenIs(x + t, n);
  }

  lemma MatchEndsIn(x: string, t: string)
    requires x != [] && !IsHexColon(x[|x| - 1])
    ensures MatchLen(Ipv6, x + t) == MatchLen(Ipv6, x) < |x|
  {
    RunEndsIn(x, t);
    assert (x + t)[..RunLen(x)] == x[..RunLen(x)];
    hide Colons;
  }

  /** Text that ends in no address character is rewritten by itself. */
  lemma {:induction false} RewriteApart(x: string, t: string)
    requires x == [] || !IsHexColon(x[|x| - 1])
    ensures Rewrite(Ipv6, x + t) == Rewrite(Ipv6, x) + Rewrite(Ipv6, t)
    decreases |x|
  {
    if x == [] {
      EmptyKept(Ipv6);
      assert x + t == t && [] + Rewrite(Ipv6, t) == Rewrite(Ipv6, t);
    } else {
      MatchEndsIn(x, t);
      var n := Step(Ipv6, x);
      assert (x + t)[n..] == x[n..] + t && (x + t)[0] == x[0];
      Unfold(Ipv6, x);
      Unfold(Ipv6, x + t);
      assert Emit(Ipv6, x + t) == Emit(Ipv6, x) && Step(Ipv6, x + t) == n;
      hide MatchLen, Rewrite, Emit, Step;
      RewriteApart(x[n..], t);
      Associate(Emit(Ipv6, x), Rewrite(Ipv6, x[n..]), Rewrite(Ipv6, t));
    }
  }

  lemma ColonsCopied(lead: string, t: string)
    requires forall i :: 0 <= i < |lead| ==> lead[i] == ':'
    ensures Rewrite(Ipv6, lead + t) == lead + Rewrite(Ipv6, t)
  {
    forall i | 0 <= i < |lead| ensures MatchLen(Ipv6, lead[i..] + t) == 0 {
      NoMatchHere(lead[i..] + t, 0);
      DropNone(lead[i..] + t);
    }
    CopyForward(Ipv6, lead, t);
  }

  lemma AddressMatches(address: string, after: string)
    requires Stretch(address, 0, |address|)
    requires after != [] ==> after[0] !in "0123456789abcdefABCDEF:"
    ensures MatchLen(Ipv6, address + after) == |address|
  {
    var s := address + after;
    WindowIsStretch(address, 0, |address|);
    if after != [] { HexChars(after[0]); }
    assert address[0..|address|] == address == s[..|address|];
    hide Stretch;
    RunLenIs(s, |address|);
  }

  /** A stretch that no further address character follows, and none but colons go before, is replaced as a
      whole by the mark; the colons are kept, and the text on either side is rewritten by itself. */
  lemma AddressIsReplaced(before: string, lead: string, address: string, after: string)
    requires before != [] ==> before[|before| - 1] !in "0123456789abcdefABCDEF:"
    requires forall i :: 0 <= i < |lead| ==> lead[i] == ':'
    requires Stretch(address, 0, |address|)
    requires after != [] ==> after[0] !in "0123456789abcdefABCDEF:"
    ensures Rewrite(Ipv6, before + (lead + (address + after)))
            == Rewrite(Ipv6, before) + (lead + ("[REDACTED_IP]" + Rewrite(Ipv6, after)))
  {
    if before != [] { HexChars(before[|before| - 1]); }
    AddressMatches(address, after);
    assert (address + after)[|address|..] == after;
    AddressHead(address + after);
    assert IP_MARK == "[REDACTED_IP]";
    hide MatchLen, Rewrite, Stretch;
    RewriteApart(before, lead + (address + after));
    ColonsCopied(lead, address + after);
  }

  // ----- the loop

  lemma MatchHere(s: string, i: nat, j: nat)
    requires i <= j <= |s| && (forall m :: i <= m < j ==> IsHexColon(s[m])) && (j == |s| || !IsHexColon(s[j]))
    requires i < |s| && IsHexDigit(s[i])
    ensures MatchLen(Ipv6, s[i..]) == if Colons(s[i..j]) >= 2 && j > i + 4 then j - i else 0
  {
    RunLenIs(s[i..], j - i);
    assert s[i..][..j - i] == s[i..j];
  }

  lemma ScanStep(s: string, i: nat, result: string)
    requires i < |s|
    ensures var n := MatchLen(Ipv6, s[i..]);
            result + Rewrite(Ipv6, s[i..])
            == if n == 0 then result + [s[i]] + Rewrite(Ipv6, s[i + 1..])
               else result + IP_MARK + Rewrite(Ipv6, s[i + n..])
  {
    var n := MatchLen(Ipv6, s[i..]);
    Unfold(Ipv6, s[i..]);
    DropTwice(s, i, if n == 0 then 1 else n);
    var tail := Rewrite(Ipv6, s[i + (if n == 0 then 1 else n)..]);
    hide *;
    Associate(result, [s[i]], tail);
    Associate(result, IP_MARK, tail);
  }

  method RedactIpv6(s: string) returns (result: string)
    ensures result == RedactRuns(s) == Rewrite(Ipv6, s)
    ensures Ipv6Free(result) && NoStretch(result)
    ensures result == s <==> NoStretch(s)
  {
    AddressesRedacted(s);
    hide MatchLen, Rewrite, RedactRuns, Colons, Window, Stretch, NoStretch;
    result := "";
    var i := 0;
    DropNone(s);
    while i < |s|
      invariant 0 <= i <= |s|
      invariant result + Rewrite(Ipv6, s[i..]) == Rewrite(Ipv6, s)
    {
      ScanStep(s, i, result);
      if IsHexDigit(s[i]) {
        var j := i;
        var colonCount := 0;
        NoColons(s, i);
        while j < |s| && (IsHexDigit(s[j]) || s[j] == ':')
          invariant i <= j <= |s|
          invariant forall m :: i <= m < j ==> IsHexColon(s[m])
          invariant colonCount == Colons(s[i..j])
        {
          OneMoreColon(s, i, j);
          if s[j] == ':' {
            colonCount := colonCount + 1;
          }
          j := j + 1;
        }
        MatchHere(s, i, j);
        if colonCount >= 2 && j > i + 4 {
          result := result + IP_MARK;
          i := j;
          continue;
        }
      } else {
        NoMatchHere(s, i);
      }
      result := result + [s[i]];
      i := i + 1;
    }
    EmptyKept(Ipv6);
    assert s[i..] == [] && result + [] == result;
    ScanIsRunSplit(s);
    Ipv6Established(s);
  }

  lemma NoColons(s: string, i: nat)
    ensures i <= |s| ==> Colons(s[i..i]) == 0
  {
  }

  lemma OneMoreColon(s: string, i: nat, j: nat)
    requires i <= j < |s|
    ensures Colons(s[i..j + 1]) == Colons(s[i..j]) + if s[j] == ':' then 1 else 0
  {
    assert s[i..j + 1] == s[i..j] + [s[j]];
    ColonsAppend(s[i..j], [s[j]]);
  }

  lemma NoMatchHere(s: string, i: nat)
    ensures i < |s| && !IsHexDigit(s[i]) ==> MatchLen(Ipv6, s[i..]) == 0
  {
  }
}
