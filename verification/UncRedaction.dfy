/**
  `redact_unc_path`. As with user names, each round rewrites the FIRST occurrence of the text
  it found. The pass is the plain rewrite exactly when no match, unless it is the mark itself,
  occurs in the text rewritten before it; whether the promise survives a match that does is
  decided for all inputs but those in which such a match ends in the separator of an empty share
  and no separator and path marker follow it.
 */
module UncRedaction {
  import opened Strings
  import opened Rewriting
  import opened Guarantees
  import opened FirstOccurrence

  /** The text of every match after the first one satisfies ok. */
  ghost predicate LaterMatches(s: string, seen: bool, ok: string -> bool)
    decreases |s|
  {
    if s == [] then true
    else if "\\\\" <= s then
      (seen ==> ok(s[..UncLen(s)])) && LaterMatches(s[UncLen(s)..], true, ok)
    else LaterMatches(s[1..], seen, ok)
  }

  /** A match that cannot be found inside an earlier mark, or is the mark itself. */
  predicate Safe(u: string) { u == UNC_MARK || !(u <= UNC_MARK || UNC_MARK <= u) }

  predicate Short(u: string) { u < UNC_MARK }

  predicate NotShort(u: string) { !Short(u) }

  predicate Extends(u: string) { UNC_MARK < u }

  /** Not a server that begins with the mark, followed by an empty share. */
  predicate Closed(u: string) { !(Extends(u) && u[|u| - 1] == '\\') }

  /** No match after the first one is a proper prefix of the mark. */
  ghost predicate NoShortMatch(s: string) { LaterMatches(s, false, NotShort) }

  ghost predicate NoEmptyShare(s: string) { LaterMatches(s, false, Closed) }

  /** A match at the head of q begins with two backslashes and is rewritten to the mark. */
  lemma UncMatchIs(q: string)
    requires "\\\\" <= q
    ensures MatchLen(Unc, q) == UncLen(q) >= 2
    ensures "\\\\" <= q[..UncLen(q)] && q[..UncLen(q)][0] == '\\' && q[..UncLen(q)][1] == '\\'
    ensures Rewrite(Unc, q) == UNC_MARK + Rewrite(Unc, q[UncLen(q)..])
  {
    Unfold(Unc, q);
    BackslashChars(q);
    BackslashChars(q[..UncLen(q)]);
  }

  // ----- where the loop is the plain rewrite

  /** Two backslashes within a match begin it, or follow its first one. */
  predicate OnePair(u: string) {
    forall j :: 1 <= j < |u| - 1 && u[j] == '\\' && u[j + 1] == '\\' ==> j == 1
  }

  lemma MatchHasOnePair(q: string)
    requires "\\\\" <= q
    ensures OnePair(q[..UncLen(q)])
  {
    var u, after := q[..UncLen(q)], q[2..];
    var server := SegLen(after);
    assert forall i :: 0 <= i < server ==> after[..server][i] == after[i] == q[2 + i] != '\\';
    if server < |after| {
      var rest := after[server + 1..];
      var share := SegLen(rest);
      assert forall i :: 0 <= i < share ==> rest[..share][i] == rest[i] == q[3 + server + i] != '\\';
    }
    hide SegLen;
  }

  /** No copied character joins a backslash before it to one behind it. */
  predicate Apart(g: string, q: string) {
    g != [] && g[|g| - 1] == '\\' && q != [] ==> q[0] != '\\'
  }

  /** The characters of a hit at h, and of the plain rewrite, from h on. */
  function HitChar(p: string, u: string, h: nat, i: nat): char
    requires |u| >= 2 && h <= i < |p| + 17
  {
    if i < h + 17 then UNC_MARK[i - h] else (p + u)[i - 17 + |u|]
  }

  function PlainChar(g: string, i: nat): char
    requires i < |g| + 17
  {
    if i < |g| then g[i] else UNC_MARK[i - |g|]
  }

  lemma HitIndex(p: string, u: string, h: nat, i: nat)
    requires h == Find(p + u, u) && h <= i < |p| + 17 && |u| >= 2
    ensures |Hit(Unc, p, u)| == |p| + 17 && Hit(Unc, p, u)[i] == HitChar(p, u, h, i)
  {
    var h' := UncHit(p, u);
    hide Hit, Find;
  }

  lemma PlainIndex(g: string, i: nat)
    ensures i < |g| + 17 ==> |g + UNC_MARK| == |g| + 17 && (g + UNC_MARK)[i] == PlainChar(g, i)
  {
  }

  lemma OccurrenceIndex(r: string, h: nat, u: string, k: nat)
    requires At(r, h, u) && k < |u|
    ensures h + k < |r| && r[h + k] == u[k]
  {
    assert r[h..][k] == u[k];
  }

  /** A hit before the match never ends in the mark that the plain rewrite puts there. */
  lemma EarlierHitDiffers(p: string, u: string, g: string) returns (i: nat)
    requires |u| >= 2 && u[0] == '\\' && u[1] == '\\' && OnePair(u) && u != UNC_MARK
    requires Find(p + u, u) < |p| == |g| && g[|g| - 1] != '\\'
    ensures i < |Hit(Unc, p, u)| == |g + UNC_MARK| && Hit(Unc, p, u)[i] != (g + UNC_MARK)[i]
  {
    var h := UncHit(p, u);
    i := DifferingIndex(p, u, h);
    hide Hit, Find, DifferingIndex, OnePair, HitChar, PlainChar;
    if |p| - h < 17 {
      NearDiffers(p, u, h, g);
    } else if |u| <= 17 {
      ShortDiffers(p, u, h, g);
    } else {
      OccurrenceIndex(p + u, h, u, 17);
      LongDiffers(p, u, h, g);
    }
    hide At;
    HitIndex(p, u, h, i);
    PlainIndex(g, i);
  }

  ghost predicate DiffersAt(p: string, u: string, h: nat, g: string, i: nat) {
    |u| >= 2 && h <= i < |p| + 17 && |g| == |p| && HitChar(p, u, h, i) != PlainChar(g, i)
  }

  lemma NearDiffers(p: string, u: string, h: nat, g: string)
    ensures h < |p| < h + 17 && |u| >= 2 && u != UNC_MARK && |g| == |p|
            ==> DiffersAt(p, u, h, g, DifferingIndex(p, u, h))
  {
  }

  lemma ShortDiffers(p: string, u: string, h: nat, g: string)
    ensures h + 17 <= |p| == |g| && 2 <= |u| <= 17 && u[0] == '\\' && u[1] == '\\' && u != UNC_MARK
            ==> DiffersAt(p, u, h, g, DifferingIndex(p, u, h))
  {
  }

  lemma LongDiffers(p: string, u: string, h: nat, g: string)
    requires h + 17 <= |p| == |g| && |u| > 17 && u[0] == '\\' && u[1] == '\\' && OnePair(u)
    requires g[|g| - 1] != '\\' && (p + u)[h + 17] == u[17]
    ensures DiffersAt(p, u, h, g, DifferingIndex(p, u, h))
  {
    assert UNC_MARK[16] == ']';
  }

  /** Where: at the first or second place of the mark, or where the match puts a backslash. */
  function DifferingIndex(p: string, u: string, h: nat): nat
    requires h < |p| && |u| >= 2 && u != UNC_MARK
  {
    var start, n := |p|, |u|;
    if start - h < 17 then (if start - h == 1 then start + 1 else start)
    else if n < 17 then (if n == 16 then start + 2 else start + 17 - n)
    else if n == 17 then start + Difference(u, UNC_MARK)
    else if u[n - 17] != '\\' then start
    else if u[n - 16] != '\\' then start + 1
    else if start == h + 17 then start + 16
    else start - 1
  }

  function Difference(a: string, b: string): (i: nat)
    requires |a| == |b| && a != b
    ensures i < |a| && a[i] != b[i]
    decreases a
  {
    if a[0] != b[0] then 0
    else
      assert a == [a[0]] + a[1..] && b == [b[0]] + b[1..];
      1 + Difference(a[1..], b[1..])
  }

  lemma AppendedAlike(p: string, g: string, more: string)
    ensures |p| == |g| && p + more == g + more ==> p == g
  {
    assert (p + more)[..|p|] == p && (g + more)[..|g|] == g;
  }

  /** One round from any searched text p, where the plain rewrite has g. */
  lemma RoundExactly(p: string, g: string, u: string)
    requires |u| >= 2 && u[0] == '\\' && u[1] == '\\' && OnePair(u)
    requires |p| == |g| && (g != [] ==> g[|g| - 1] != '\\')
    ensures Hit(Unc, p, u) == g + UNC_MARK <==> p == g && (u == UNC_MARK || Find(g + u, u) == |g|)
  {
    var h := HitIs(Unc, p, u);
    assert Mark(Unc) == UNC_MARK;
    hide Find, Hit, OnePair, At, Mark;
    if u == UNC_MARK || h == |p| {
      HitHere(Unc, p, u);
      AppendedAlike(p, g, UNC_MARK);
    } else {
      var i := EarlierHitDiffers(p, u, g);
    }
  }

  /** The loop from any searched text p comes to what the plain rewrite makes of g and q exactly
      when p is g and no match is disturbed. */
  lemma {:induction false} LoopedExactly(p: string, g: string, q: string)
    requires |p| == |g| && Apart(g, q)
    ensures Looped(Unc, p, q) == g + Rewrite(Unc, q) <==> p == g && Undisturbed(Unc, g, q)
    decreases |q|
  {
    hide Rewrite, MatchLen, Hit, Find;
    if q == [] {
      EmptyKept(Unc);
      assert g + [] == g;
    } else {
      UncMatchChars(q);
      BackslashChars(q);
      if "\\\\" <= q {
        var u, z := q[..UncLen(q)], q[UncLen(q)..];
        UncMatchIs(q);
        MatchHasOnePair(q);
        RoundExactly(p, g, u);
        var h := HitIs(Unc, p, u);
        assert (g + UNC_MARK)[|g| + 16] == ']';
        LoopedExactly(Hit(Unc, p, u), g + UNC_MARK, z);
        Associate(g, UNC_MARK, Rewrite(Unc, z));
      } else {
        UnfoldCopy(Unc, q);
        assert (p + [q[0]])[..|p|] == p && (g + [q[0]])[..|g|] == g;
        LoopedExactly(p + [q[0]], g + [q[0]], q[1..]);
        Associate(g, [q[0]], Rewrite(Unc, q[1..]));
      }
    }
  }

  // ----- where the promise survives

  ghost predicate HasPair(p: string) { exists i :: At(p, i, "\\\\") }

  lemma MarkText()
    ensures UNC_MARK == "\\\\" + PATH_MARK
  {
  }

  /** A pair in text that keeps the promise begins a whole mark, which holds no other pair. */
  lemma GuardedPair(p: string, i: nat)
    requires UncGuarded(p) && At(p, i, "\\\\")
    ensures i + 17 <= |p| && At(p, i, UNC_MARK) && p[i..i + 17] == UNC_MARK
  {
    AtInside(p, i, "\\\\");
    HeadTail(p[i..], "\\\\");
    DropTwice(p, i, 2);
    MarkText();
    HeadTail(p[i + 2..], PATH_MARK);
    Associate("\\\\", PATH_MARK, p[i + 2..][15..]);
    TakeDropped(p, i, 17);
  }

  lemma PairHere(p: string, i: nat)
    ensures At(p, i, "\\\\") <==> i + 2 <= |p| && p[i] == '\\' && p[i + 1] == '\\'
  {
    if i <= |p| { BackslashChars(p[i..]); }
  }

  lemma GuardHere(p: string, i: nat)
    requires i + 2 <= |p|
    ensures PATH_MARK <= p[i + 2..] <==> i + 17 <= |p| && p[i + 2..i + 17] == PATH_MARK
  {
    if i + 17 <= |p| { TakeDropped(p, i + 2, 15); }
  }

  lemma PairsOfConcat(a: string, b: string)
    requires Apart(a, b)
    ensures forall i: nat :: At(a + b, i, "\\\\") <==> At(a, i, "\\\\") || (i >= |a| && At(b, i - |a|, "\\\\"))
  {
    forall i: nat ensures At(a + b, i, "\\\\") <==> At(a, i, "\\\\") || (i >= |a| && At(b, i - |a|, "\\\\")) {
      PairHere(a + b, i);
      PairHere(a, i);
      if i >= |a| { PairHere(b, i - |a|); }
      hide At;
    }
  }

  /** Text behind that starts no pair at the seam adds its own pairs only. */
  lemma GuardedConcat(a: string, b: string)
    requires UncGuarded(a) && UncGuarded(b) && Apart(a, b)
    ensures UncGuarded(a + b) && (HasPair(a + b) <==> HasPair(a) || HasPair(b))
  {
    PairsOfConcat(a, b);
    PairsOfBoth(a, b);
    AtIsNatural(a + b);
    hide At, Apart, HasPair;
    forall i | At(a + b, i, "\\\\") ensures PATH_MARK <= (a + b)[i + 2..] {
      PairHere(a + b, i);
      if At(a, i, "\\\\") {
        PairHere(a, i);
        DropInFirst(a, b, i + 2);
      } else {
        DropInSecond(a, b, i + 2);
      }
    }
  }

  lemma PairsOfBoth(a: string, b: string)
    requires forall i: nat :: At(a + b, i, "\\\\") <==> At(a, i, "\\\\") || (i >= |a| && At(b, i - |a|, "\\\\"))
    ensures HasPair(a + b) <==> HasPair(a) || HasPair(b)
  {
    hide At;
    AtIsNatural(a + b);
    AtIsNatural(a);
    AtIsNatural(b);
    if HasPair(b) {
      var i: nat :| At(b, i, "\\\\");
      assert At(a + b, |a| + i, "\\\\");
    }
  }

  lemma AtIsNatural(s: string)
    ensures forall i :: At(s, i, "\\\\") ==> i >= 0
  {
  }

  lemma MarkGuarded()
    ensures UncGuarded(UNC_MARK) && HasPair(UNC_MARK)
  {
    PairHere(UNC_MARK, 0);
    forall i | At(UNC_MARK, i, "\\\\") ensures PATH_MARK <= UNC_MARK[i + 2..] {
      PairHere(UNC_MARK, i);
      if i > 0 { UncMarkChars(i); }
    }
  }

  lemma NoPairGuarded(s: string)
    ensures (forall i :: !At(s, i, "\\\\")) ==> UncGuarded(s) && !HasPair(s)
  {
  }

  /** The front of text that keeps the promise keeps it up to the next pair. */
  lemma GuardedFront(p: string, h: nat)
    requires UncGuarded(p) && At(p, h, "\\\\")
    ensures UncGuarded(p[..h]) && h <= |p| && (h == 0 || p[h - 1] != '\\')
  {
    PairHere(p, h);
    if h > 0 {
      PairHere(p, h - 1);
      PairsFarApart(p, h - 1, h);
    }
    forall i | At(p[..h], i, "\\\\") ensures PATH_MARK <= p[..h][i + 2..] {
      PairHere(p[..h], i);
      PairHere(p, i);
      GuardedPair(p, i);
      GuardHere(p[..h], i);
      GuardHere(p, i);
      PairsFarApart(p, i, h);
      assert p[..h][i + 2..i + 17] == p[i + 2..i + 17];
    }
  }

  lemma PairsFarApart(p: string, i: nat, h: nat)
    requires UncGuarded(p) && At(p, h, "\\\\") && i < h
    ensures At(p, i, "\\\\") ==> i + 17 <= h
  {
    PairHere(p, h);
    if At(p, i, "\\\\") {
      GuardedPair(p, i);
      var w := p[i..i + 17];
      assert forall k :: 0 <= k < 17 ==> w[k] == p[i + k];
      hide UncGuarded, At;
      if h < i + 17 {
        UncMarkChars(h - i);
      }
    }
  }

  /** The back of such text, from a place where no mark is cut. */
  lemma GuardedBack(p: string, k: nat)
    requires UncGuarded(p) && k <= |p|
    ensures UncGuarded(p[k..])
  {
    forall i | At(p[k..], i, "\\\\") ensures PATH_MARK <= p[k..][i + 2..] {
      DropTwice(p, k, i);
      assert At(p, k + i, "\\\\");
      PairHere(p[k..], i);
      DropTwice(p, k, i + 2);
    }
  }

  // One round.

  lemma BothPrefixes(t: string, u: string, w: string)
    requires u <= t && w <= t
    ensures u <= w || w <= u
  {
    assert |u| <= |w| ==> u == t[..|u|] == w[..|u|];
    assert |w| <= |u| ==> w == t[..|w|] == u[..|w|];
  }

  /** A hit before the match lies at a mark, so the match begins it or is begun by it. */
  lemma EarlyHit(p: string, u: string)
    requires UncGuarded(p) && Apart(p, u) && "\\\\" <= u
    ensures var h := Find(p + u, u);
            0 <= h <= |p| && At(p + u, h, u)
            && (h < |p| ==> At(p, h, "\\\\") && (Short(u) || Extends(u) || u == UNC_MARK))
  {
    var h := HitIs(Unc, p, u);
    hide Find, Hit, UncGuarded;
    if h < |p| {
      PairInFront(p, u, h);
      GuardedPair(p, h);
      MarkInFront(p, u, h);
    }
  }

  lemma PairInFront(p: string, u: string, h: nat)
    requires At(p + u, h, u) && h < |p| && "\\\\" <= u && Apart(p, u)
    ensures At(p, h, "\\\\")
  {
    BackslashChars(u);
    OccurrenceIndex(p + u, h, u, 0);
    OccurrenceIndex(p + u, h, u, 1);
    hide At;
    PairHere(p, h);
  }

  lemma MarkInFront(p: string, u: string, h: nat)
    requires At(p + u, h, u) && At(p, h, UNC_MARK)
    ensures Short(u) || Extends(u) || u == UNC_MARK
  {
    assert (p + u)[h..] == p[h..] + u;
    BothPrefixes((p + u)[h..], u, UNC_MARK);
  }

  lemma OverlapIndex(p: string, u: string, h: nat, k: nat)
    requires h <= |p| && At(p + u, h, u) && k < |u|
    ensures |p| - h + k < |u| ==> u[|p| - h + k] == u[k]
  {
    if |p| - h + k < |u| { OccurrenceIndex(p + u, h, u, |p| - h + k); }
  }

  /** Such a hit, when the match does not end in a backslash or is short, does not reach it. */
  lemma HitInFront(p: string, u: string)
    requires UncGuarded(p) && Apart(p, u) && "\\\\" <= u && OnePair(u) && Find(p + u, u) < |p|
    requires Short(u) || (Extends(u) && Closed(u))
    ensures var h := Find(p + u, u);
            && 0 <= h && h + |u| <= |p| && At(p, h, "\\\\")
            && Hit(Unc, p, u) == p[..h] + UNC_MARK + p[h + |u|..] + u
  {
    hide Find, Hit, UncGuarded, At, OnePair, Closed, Apart, Short, Extends;
    EarlyHit(p, u);
    var h := UncHit(p, u);
    GuardedPair(p, h);
    DoesNotReach(p, u, h);
    Assemble(p, u, UNC_MARK, h, |u|);
  }

  lemma UncHit(p: string, u: string) returns (h: nat)
    ensures h == Find(p + u, u) <= |p| && At(p + u, h, u) && h + |u| <= |p + u|
    ensures Hit(Unc, p, u) == (p + u)[..h] + UNC_MARK + (p + u)[h + |u|..]
  {
    h := HitIs(Unc, p, u);
    hide Hit, Find;
  }

  lemma DoesNotReach(p: string, u: string, h: nat)
    requires At(p + u, h, u) && h + 17 <= |p| && "\\\\" <= u && OnePair(u)
    requires Short(u) || (Extends(u) && Closed(u))
    ensures h + |u| <= |p|
  {
    BackslashChars(u);
    OverlapIndex(p, u, h, 0);
    OverlapIndex(p, u, h, 1);
    assert UNC_MARK < u ==> u[2] == UNC_MARK[2] == '[';
    hide At;
  }

  lemma ExtensionGuarded(u: string)
    requires Extends(u) && OnePair(u)
    ensures UncGuarded(u) && HasPair(u)
  {
    assert u[2] == UNC_MARK[2] == '[';
    assert u[..17] == UNC_MARK;
    forall i | At(u, i, "\\\\") ensures PATH_MARK <= u[i + 2..] {
      PairHere(u, i);
      GuardHere(u, i);
      assert u[2..17] == UNC_MARK[2..];
    }
    PairHere(u, 0);
    assert u[0] == UNC_MARK[0] && u[1] == UNC_MARK[1];
  }

  /** A disturbed match that does not end in a backslash costs the text but not the promise. */
  lemma ExtensionRound(p: string, u: string)
    requires UncGuarded(p) && Apart(p, u) && "\\\\" <= u && OnePair(u) && Find(p + u, u) < |p|
    requires Extends(u) && Closed(u)
    ensures UncGuarded(Hit(Unc, p, u)) && HasPair(Hit(Unc, p, u))
  {
    hide Hit, Find, OnePair, UncGuarded, HasPair, At, Apart, Closed, Extends;
    HitInFront(p, u);
    ExtensionGuarded(u);
    var h := Find(p + u, u);
    BackslashChars(u);
    MarkBetween(p, h, |u|, u);
  }

  lemma MarkBetween(p: string, h: nat, n: nat, u: string)
    requires UncGuarded(p) && At(p, h, "\\\\") && h + n <= |p| && Apart(p, u)
    requires UncGuarded(u) && HasPair(u) && u != [] && u[0] == '\\'
    ensures UncGuarded(p[..h] + UNC_MARK + p[h + n..] + u) && HasPair(p[..h] + UNC_MARK + p[h + n..] + u)
  {
    hide UncGuarded, HasPair, At;
    GuardedFront(p, h);
    GuardedBack(p, h + n);
    MarkGuarded();
    var front, back := p[..h] + UNC_MARK, p[h + n..];
    assert front[|front| - 1] == UNC_MARK[16] == ']';
    assert (front + back)[|front + back| - 1] == if back == [] then ']' else p[|p| - 1];
    GuardedConcat(p[..h], UNC_MARK);
    GuardedConcat(front, back);
    GuardedConcat(front + back, u);
  }

  lemma UndisturbedRound(p: string, u: string, z: string)
    requires UncGuarded(p) && Apart(p, UNC_MARK) && (u == UNC_MARK || Find(p + u, u) == |p|)
    ensures var hit := Hit(Unc, p, u); UncGuarded(hit) && HasPair(hit) && Apart(hit, z)
  {
    hide UncGuarded, Hit, Find, HasPair;
    HitHere(Unc, p, u);
    MarkBehind(p);
  }

  lemma DisturbedRound(p: string, u: string, z: string)
    requires UncGuarded(p) && Apart(p, u) && "\\\\" <= u && OnePair(u) && Find(p + u, u) < |p|
    requires Extends(u) && Closed(u)
    ensures var hit := Hit(Unc, p, u); UncGuarded(hit) && HasPair(hit) && Apart(hit, z)
  {
    hide UncGuarded, Hit, Find, HasPair, OnePair, At, Extends;
    ExtensionRound(p, u);
    HitInFront(p, u);
  }

  lemma RoundGuarded(p: string, q: string)
    requires UncGuarded(p) && "\\\\" <= q && Apart(p, q)
    requires HasPair(p) ==> Closed(q[..UncLen(q)]) && !Short(q[..UncLen(q)])
    ensures var hit := Hit(Unc, p, q[..UncLen(q)]);
            UncGuarded(hit) && HasPair(hit) && Apart(hit, q[UncLen(q)..])
  {
    var u, z := q[..UncLen(q)], q[UncLen(q)..];
    UncMatchIs(q);
    MatchHasOnePair(q);
    ApartSame(p, q, u);
    EarlyHit(p, u);
    hide UncGuarded, Hit, Find, At, UncLen, OnePair, Short, Extends, Apart, Closed;
    if u == UNC_MARK || Find(p + u, u) == |p| {
      UndisturbedRound(p, u, z);
    } else {
      assert HasPair(p);
      DisturbedRound(p, u, z);
    }
  }

  lemma ApartSame(p: string, q: string, u: string)
    requires Apart(p, q) && "\\\\" <= q && "\\\\" <= u
    ensures Apart(p, u) && Apart(p, UNC_MARK)
  {
    BackslashChars(q);
    BackslashChars(u);
  }

  lemma MarkBehind(p: string)
    requires UncGuarded(p) && Apart(p, UNC_MARK)
    ensures UncGuarded(p + UNC_MARK) && HasPair(p + UNC_MARK) && (p + UNC_MARK)[|p| + 16] == ']'
  {
    MarkGuarded();
    hide UncGuarded, HasPair;
    GuardedConcat(p, UNC_MARK);
  }

  // A match that is a proper prefix of the mark.

  lemma NoThirdBackslash(q: string, n: nat)
    requires n <= |q| && q[..n] < UNC_MARK
    ensures forall i :: 2 <= i < n ==> q[i] != '\\'
  {
    var u := q[..n];
    assert forall i :: 2 <= i < 17 ==> UNC_MARK[i] != '\\';
    assert forall i :: 0 <= i < n ==> q[i] == u[i] == UNC_MARK[i];
  }

  lemma OneBackslash(tail: string)
    requires SegLen(tail) == |tail|
    ensures forall i :: !At(['\\'] + tail, i, "\\\\")
  {
    var z := ['\\'] + tail;
    assert tail[..|tail|] == tail;
    forall i ensures !At(z, i, "\\\\") {
      if 0 <= i <= |z| {
        BackslashChars(z[i..]);
        assert i + 1 < |z| ==> z[i..][1] == z[i + 1] == tail[i];
      }
    }
  }

  /** A short match takes no share: it is the last one. */
  lemma ShortMatchIsLast(q: string)
    requires "\\\\" <= q && Short(q[..UncLen(q)])
    ensures q[UncLen(q)..] == [] || q[UncLen(q)..][0] == '\\'
    ensures forall i :: !At(q[UncLen(q)..], i, "\\\\")
  {
    var server := SegLen(q[2..]);
    NoThirdBackslash(q, UncLen(q));
    if server < |q[2..]| {
      assert q[2 + server] == q[2..][server] == '\\';
      ServerOnly(q, server);
      var tail := q[2..][server + 1..];
      assert q[2 + server..] == ['\\'] + tail;
      hide UncLen, SegLen;
      OneBackslash(tail);
    }
  }

  lemma ServerOnly(q: string, server: nat)
    requires "\\\\" <= q && server == SegLen(q[2..]) < |q[2..]| && UncLen(q) <= 2 + server
    ensures UncLen(q) == 2 + server && SegLen(q[2..][server + 1..]) == |q[2..][server + 1..]|
  {
    hide SegLen;
  }

  lemma LeftoverBreaks(p: string, u: string, z: string)
    requires "\\\\" <= u && Short(u) && (z == [] || z[0] == '\\')
    ensures !UncGuarded(p + u + z)
  {
    var s, c := p + u + z, |p|;
    BackslashChars(u);
    PairHere(s, c);
    assert s[c + 2..] == u[2..] + z;
    PrefixIndex(u[2..] + z, PATH_MARK, |u| - 2);
    assert z != [] ==> (u[2..] + z)[|u| - 2] == '\\';
    assert PATH_MARK[|u| - 2] != '\\';
  }

  /** It is found in an earlier mark and left behind. */
  lemma ShortLeftBehind(p: string, u: string) returns (front: string)
    requires UncGuarded(p) && HasPair(p) && Apart(p, u) && OnePair(u) && "\\\\" <= u && Short(u)
    ensures Hit(Unc, p, u) == front + u
  {
    AtIsNatural(p);
    var i: nat :| At(p, i, "\\\\");
    GuardedPair(p, i);
    PrefixFound(p, u, i);
    hide UncGuarded, HasPair, Apart, OnePair, Short, Hit, Find, At;
    HitInFront(p, u);
    var h := Find(p + u, u);
    front := p[..h] + UNC_MARK + p[h + |u|..];
  }

  lemma ShortRoundBreaks(p: string, q: string)
    requires UncGuarded(p) && HasPair(p) && "\\\\" <= q && Apart(p, q) && Short(q[..UncLen(q)])
    ensures !UncGuarded(Looped(Unc, p, q))
  {
    hide UncLen, Hit, Looped, MatchLen, UncGuarded, HasPair, OnePair, Short, Apart;
    var u, z := q[..UncLen(q)], q[UncLen(q)..];
    UncMatchIs(q);
    MatchHasOnePair(q);
    ShortMatchIsLast(q);
    ApartSame(p, q, u);
    var front := ShortLeftBehind(p, u);
    LoopedMatch(Unc, p, q);
    NoMatchAhead(z);
    LoopedEnd(Unc, Hit(Unc, p, u), z);
    LeftoverBreaks(front, u, z);
  }

  lemma PrefixFound(p: string, u: string, i: nat)
    requires At(p, i, UNC_MARK) && Short(u)
    ensures Find(p + u, u) <= i < |p|
  {
    assert (p + u)[i..] == p[i..] + u;
    assert At(p + u, i, u);
  }

  lemma NoMatchAhead(z: string)
    requires forall i :: !At(z, i, "\\\\")
    ensures forall i :: 0 <= i < |z| ==> MatchLen(Unc, z[i..]) == 0
  {
    forall i | 0 <= i < |z| ensures MatchLen(Unc, z[i..]) == 0 {
      UncMatchChars(z[i..]);
      assert !At(z, i, "\\\\");
    }
  }

  lemma RewriteNone(z: string)
    requires forall i :: !At(z, i, "\\\\")
    ensures Rewrite(Unc, z) == z
  {
    NoMatchAhead(z);
    hide Rewrite, MatchLen;
    forall i | 0 <= i < |z| ensures MatchLen(Unc, z[i..] + []) == 0 {
      assert z[i..] + [] == z[i..];
    }
    CopyForward(Unc, z, []);
    EmptyKept(Unc);
    assert z + [] == z;
  }

  lemma CopyGuarded(p: string, q: string)
    requires UncGuarded(p) && q != [] && Apart(p, q) && !("\\\\" <= q)
    ensures UncGuarded(p + [q[0]]) && (HasPair(p + [q[0]]) <==> HasPair(p)) && Apart(p + [q[0]], q[1..])
  {
    var c := [q[0]];
    forall i ensures !At(c, i, "\\\\") {
      if 0 <= i { PairHere(c, i); }
    }
    NoPairGuarded(c);
    BackslashChars(q);
    hide UncGuarded, HasPair;
    GuardedConcat(p, c);
  }

  /** The promise is kept exactly when no later match is a proper prefix of the mark. */
  lemma {:induction false} PromiseExactly(p: string, q: string)
    requires UncGuarded(p) && Apart(p, q) && LaterMatches(q, HasPair(p), Closed)
    ensures UncGuarded(Looped(Unc, p, q)) <==> LaterMatches(q, HasPair(p), NotShort)
    decreases |q|
  {
    hide UncGuarded, HasPair, Hit, MatchLen, Apart, Closed, Short;
    if q != [] {
      UncMatchChars(q);
      if "\\\\" <= q {
        var u, z := q[..UncLen(q)], q[UncLen(q)..];
        UncMatchIs(q);
        if HasPair(p) && !NotShort(u) {
          ShortRoundBreaks(p, q);
        } else {
          RoundGuarded(p, q);
          PromiseExactly(Hit(Unc, p, u), z);
        }
      } else {
        CopyGuarded(p, q);
        PromiseExactly(p + [q[0]], q[1..]);
      }
    }
  }

  /** A text whose later matches are all safe is rewritten undisturbed. */
  lemma {:induction false} SafeIsUndisturbed(p: string, q: string)
    requires UncGuarded(p) && Apart(p, q) && LaterMatches(q, HasPair(p), Safe)
    ensures Undisturbed(Unc, p, q)
    decreases |q|
  {
    hide UncGuarded, HasPair, Hit, MatchLen, Apart, Find;
    if q != [] {
      UncMatchChars(q);
      if "\\\\" <= q {
        var u, z := q[..UncLen(q)], q[UncLen(q)..];
        UncMatchIs(q);
        ApartSame(p, q, u);
        EarlyHit(p, u);
        hide UncLen;
        if Find(p + u, u) < |p| { assert HasPair(p) by { PairSomewhere(p, Find(p + u, u)); } }
        UndisturbedRound(p, UNC_MARK, z);
        HitHere(Unc, p, UNC_MARK);
        SafeIsUndisturbed(p + UNC_MARK, z);
      } else {
        CopyGuarded(p, q);
        SafeIsUndisturbed(p + [q[0]], q[1..]);
      }
    }
  }

  // ----- matches that end in an empty share

  const SEPARATED_MARK: string := ['\\'] + PATH_MARK

  /** A round that rewrites the place it found. */
  predicate Undisplaced(p: string, u: string) { u == UNC_MARK || Find(p + u, u) == |p| }

  /** Not a displaced server that begins with the mark, followed by an empty share, unless a separator
      and the path marker follow that. */
  predicate NotLoose(p: string, u: string, z: string) {
    Undisplaced(p, u) || !Extends(u) || Closed(u) || SEPARATED_MARK <= z
  }

  /** Neither that nor a displaced proper prefix of the mark. */
  predicate Harmless(p: string, u: string, z: string) {
    NotLoose(p, u, z) && (Undisplaced(p, u) || !Short(u))
  }

  /** Every round of the loop, with the searched text p, the match and what follows it. */
  predicate Rounds(p: string, q: string, ok: (string, string, string) -> bool)
    decreases |q|
  {
    if q == [] then true
    else if MatchLen(Unc, q) == 0 then Rounds(p + [q[0]], q[1..], ok)
    else
      var u, z := q[..MatchLen(Unc, q)], q[MatchLen(Unc, q)..];
      ok(p, u, z) && Rounds(Hit(Unc, p, u), z, ok)
  }

  /** Such a match without its last backslash: it holds no pair but its first two characters. */
  predicate Whole(v: string) {
    && |v| >= 17 && UNC_MARK <= v && v[|v| - 1] != '\\'
    && forall i :: 1 <= i < |v| - 1 ==> v[i] != '\\' || v[i + 1] != '\\'
  }

  predicate Lengthens(u: string, v: string) { u == v + ['\\'] }

  lemma Shortened(u: string) returns (v: string)
    requires Extends(u) && !Closed(u) && OnePair(u)
    ensures Lengthens(u, v) && Whole(v)
  {
    v := u[..|u| - 1];
    PrefixIndex(u, UNC_MARK, 2);
    assert v[..17] == u[..17] == UNC_MARK;
    hide Extends, Closed;
    assert forall i :: 0 <= i < |v| ==> v[i] == u[i];
  }

  lemma WholeGuarded(v: string)
    requires Whole(v)
    ensures UncGuarded(v) && HasPair(v) && |v| >= 17 && v[0] == '\\' && v[|v| - 1] != '\\'
  {
    PrefixIndex(v, UNC_MARK, 0);
    if v == UNC_MARK { MarkGuarded(); } else { ExtensionGuarded(v); }
    hide UncGuarded, HasPair;
  }

  lemma SeparatedMark(v: string)
    ensures v + ['\\'] + SEPARATED_MARK == v + UNC_MARK
  {
  }

  /** The hit of a disturbed one reaches at most the match's first backslash. */
  lemma ReachesOne(p: string, u: string, h: nat)
    requires At(p + u, h, u) && h + 17 <= |p| && "\\\\" <= u && OnePair(u)
    ensures h + |u| <= |p| + 1
  {
    BackslashChars(u);
    OverlapIndex(p, u, h, 0);
    OverlapIndex(p, u, h, 1);
    hide At;
  }

  /** Followed by a separator and the path marker, it leaves a whole mark behind. */
  lemma EmptyShareRound(p: string, u: string)
    requires UncGuarded(p) && Apart(p, u) && "\\\\" <= u && OnePair(u) && Find(p + u, u) < |p|
    requires Extends(u) && !Closed(u)
    ensures UncGuarded(Hit(Unc, p, u) + SEPARATED_MARK)
  {
    var v := Shortened(u);
    var h := EarlyHitReach(p, u);
    hide *;
    if h + |u| <= |p| {
      BehindMatch(p, u, v, h);
    } else {
      OverMatch(p, u, v, h);
    }
  }

  lemma EarlyHitReach(p: string, u: string) returns (h: nat)
    requires UncGuarded(p) && Apart(p, u) && "\\\\" <= u && OnePair(u) && Find(p + u, u) < |p|
    ensures At(p, h, "\\\\") && h + |u| <= |p| + 1 && h + |u| <= |p + u|
    ensures Hit(Unc, p, u) == (p + u)[..h] + UNC_MARK + (p + u)[h + |u|..]
  {
    EarlyHit(p, u);
    h := UncHit(p, u);
    hide Hit, Find, OnePair, UncGuarded, At;
    GuardedPair(p, h);
    ReachesOne(p, u, h);
  }

  lemma BehindMatch(p: string, u: string, v: string, h: nat)
    requires UncGuarded(p) && Apart(p, u) && At(p, h, "\\\\") && h + |u| <= |p| && Lengthens(u, v) && Whole(v)
    requires Hit(Unc, p, u) == (p + u)[..h] + UNC_MARK + (p + u)[h + |u|..]
    ensures UncGuarded(Hit(Unc, p, u) + SEPARATED_MARK)
  {
    WholeGuarded(v);
    ApartStart(p, u, v);
    hide *;
    var front := FrontBefore(p, u, v, h);
    WholeMarkBehind(front, v, u);
  }

  lemma FrontBefore(p: string, u: string, v: string, h: nat) returns (front: string)
    requires UncGuarded(p) && Apart(p, v) && At(p, h, "\\\\") && h + |u| <= |p|
    requires UncGuarded(v) && HasPair(v) && v != [] && v[0] == '\\'
    ensures UncGuarded(front + v) && (p + u)[..h] + UNC_MARK + (p + u)[h + |u|..] == front + u
  {
    hide *;
    MarkBetween(p, h, |u|, v);
    Assemble(p, u, UNC_MARK, h, |u|);
    front := p[..h] + UNC_MARK + p[h + |u|..];
  }

  lemma OverMatch(p: string, u: string, v: string, h: nat)
    requires UncGuarded(p) && At(p, h, "\\\\") && h + |u| == |p| + 1 && Lengthens(u, v) && Whole(v)
    requires Hit(Unc, p, u) == (p + u)[..h] + UNC_MARK + (p + u)[h + |u|..]
    ensures UncGuarded(Hit(Unc, p, u) + SEPARATED_MARK)
  {
    WholeGuarded(v);
    WithoutFirst(v, u);
    hide *;
    var front := FrontOver(p, u, v, h);
    WholeMarkBehind(front, v[1..], u[1..]);
  }

  lemma FrontOver(p: string, u: string, v: string, h: nat) returns (front: string)
    requires UncGuarded(p) && At(p, h, "\\\\") && u != [] && h + |u| == |p| + 1 && Whole(v)
    ensures UncGuarded(front + v[1..]) && (p + u)[..h] + UNC_MARK + (p + u)[h + |u|..] == front + u[1..]
  {
    MarkThenTail(p, h, v);
    hide *;
    OverText(p, u, h);
    front := p[..h] + UNC_MARK;
  }

  lemma OverText(p: string, u: string, h: nat)
    requires u != [] && h + |u| == |p| + 1
    ensures (p + u)[..h] == p[..h] && (p + u)[h + |u|..] == u[1..]
  {
  }

  lemma WithoutFirst(v: string, u: string)
    requires |v| >= 17 && Lengthens(u, v) && v[|v| - 1] != '\\'
    ensures u != [] && Lengthens(u[1..], v[1..]) && v[1..][|v[1..]| - 1] != '\\'
  {
  }

  lemma ApartStart(p: string, u: string, v: string)
    ensures Apart(p, u) && u != [] && v != [] && u[0] == v[0] ==> Apart(p, v)
  {
  }

  lemma WholeMarkBehind(a: string, v: string, u: string)
    requires UncGuarded(a + v) && v != [] && v[|v| - 1] != '\\' && Lengthens(u, v)
    ensures UncGuarded(a + u + SEPARATED_MARK)
  {
    assert (a + v)[|a + v| - 1] == v[|v| - 1];
    SeparatedMark(v);
    Associate(a, v, UNC_MARK);
    Associate(a, u, SEPARATED_MARK);
    hide *;
    MarkBehind(a + v);
  }

  /** The front of p up to its mark at h, the mark, and v without its first backslash. */
  lemma MarkThenTail(p: string, h: nat, v: string)
    requires UncGuarded(p) && At(p, h, "\\\\") && |v| >= 17
    requires forall i :: 1 <= i < |v| - 1 ==> v[i] != '\\' || v[i + 1] != '\\'
    ensures h <= |p| && UncGuarded(p[..h] + UNC_MARK + v[1..])
  {
    var tail := v[1..];
    forall i ensures !At(tail, i, "\\\\") {
      if 0 <= i { PairHere(tail, i); }
    }
    NoPairGuarded(tail);
    GuardedFront(p, h);
    MarkGuarded();
    hide UncGuarded, At;
    GuardedConcat(p[..h], UNC_MARK);
    var front := p[..h] + UNC_MARK;
    assert front[|front| - 1] == UNC_MARK[16] == ']';
    GuardedConcat(front, tail);
  }

  lemma NoMatchInSeparated(q: string)
    ensures forall i :: 0 <= i < 16 ==> MatchLen(Unc, SEPARATED_MARK[i..] + q) == 0
  {
    forall i | 0 <= i < 16 ensures MatchLen(Unc, SEPARATED_MARK[i..] + q) == 0 {
      var t := SEPARATED_MARK[i..] + q;
      assert t[0] == SEPARATED_MARK[i] && (i == 0 ==> t[1] == SEPARATED_MARK[1]);
      BackslashChars(t);
      UncMatchChars(t);
    }
  }

  lemma {:induction false} RoundsSkip(p: string, t: string, q: string, ok: (string, string, string) -> bool)
    requires forall i :: 0 <= i < |t| ==> MatchLen(Unc, t[i..] + q) == 0
    ensures Rounds(p, t + q, ok) == Rounds(p + t, q, ok)
    decreases t
  {
    hide MatchLen, Hit;
    if t == [] {
      assert t + q == q && p + t == p;
    } else {
      DropNone(t);
      assert (t + q)[1..] == t[1..] + q && (t + q)[0] == t[0];
      forall i | 0 <= i < |t[1..]| ensures MatchLen(Unc, t[1..][i..] + q) == 0 {
        DropTwice(t, 1, i);
      }
      RoundsSkip(p + [t[0]], t[1..], q, ok);
      assert p + [t[0]] + t[1..] == p + t;
    }
  }

  /** The marker behind an empty share is passed over. */
  lemma MarkerPassed(p: string, z: string) returns (rest: string)
    requires SEPARATED_MARK <= z
    ensures |rest| < |z| && Apart(p + SEPARATED_MARK, rest)
    ensures Looped(Unc, p, z) == Looped(Unc, p + SEPARATED_MARK, rest)
    ensures Rounds(p, z, NotLoose) == Rounds(p + SEPARATED_MARK, rest, NotLoose)
    ensures Rounds(p, z, Harmless) == Rounds(p + SEPARATED_MARK, rest, Harmless)
  {
    rest := z[16..];
    HeadTail(z, SEPARATED_MARK);
    NoMatchInSeparated(rest);
    EndsInMark(p, rest);
    hide *;
    RoundsSkip(p, SEPARATED_MARK, rest, NotLoose);
    RoundsSkip(p, SEPARATED_MARK, rest, Harmless);
    LoopedSkip(Unc, p, SEPARATED_MARK, rest);
  }

  /** Without loose rounds the promise is kept exactly when every round is harmless. */
  lemma {:induction false} HarmlessExactly(p: string, q: string)
    requires UncGuarded(p) && Apart(p, q) && Rounds(p, q, NotLoose)
    ensures UncGuarded(Looped(Unc, p, q)) <==> Rounds(p, q, Harmless)
    decreases |q|
  {
    hide UncGuarded, HasPair, Hit, MatchLen, Apart, Closed, Short, Extends, Find;
    if q != [] {
      UncMatchChars(q);
      if "\\\\" <= q {
        var u, z := q[..UncLen(q)], q[UncLen(q)..];
        UncMatchIs(q);
        MatchHasOnePair(q);
        ApartSame(p, q, u);
        EarlyHit(p, u);
        PairSomewhere(p, Find(p + u, u));
        hide OnePair, UncLen, At;
        if Undisplaced(p, u) {
          UndisturbedRound(p, u, z);
          HarmlessExactly(Hit(Unc, p, u), z);
        } else if Short(u) {
          ShortRoundBreaks(p, q);
        } else if Closed(u) {
          DisturbedRound(p, u, z);
          HarmlessExactly(Hit(Unc, p, u), z);
        } else {
          EmptyShareRound(p, u);
          var rest := MarkerPassed(Hit(Unc, p, u), z);
          HarmlessExactly(Hit(Unc, p, u) + SEPARATED_MARK, rest);
        }
      } else {
        CopyGuarded(p, q);
        HarmlessExactly(p + [q[0]], q[1..]);
      }
    }
  }

  lemma EndsInMark(a: string, rest: string)
    ensures Apart(a + SEPARATED_MARK, rest)
  {
    assert (a + SEPARATED_MARK)[|a| + 15] == SEPARATED_MARK[15] == ']';
  }

  lemma PairSomewhere(p: string, i: int)
    ensures At(p, i, "\\\\") ==> HasPair(p)
  {
  }

  // ----- the pass

  /** What the loop makes of a whole text. For every text it is the plain rewrite exactly when no
      match is disturbed, and then the promise holds. The promise holds exactly when every round is
      harmless, unless one is loose; and exactly when no later match is a proper prefix of the mark,
      unless one begins with the mark and ends in the separator of an empty share. */
  lemma LoopedOutcome(s: string)
    ensures Looped(Unc, [], s) == Rewrite(Unc, s) <==> Undisturbed(Unc, [], s)
    ensures Undisturbed(Unc, [], s) ==> UncGuarded(Looped(Unc, [], s))
    ensures NoEmptyShare(s) ==> (UncGuarded(Looped(Unc, [], s)) <==> NoShortMatch(s))
    ensures Rounds([], s, NotLoose) ==> (UncGuarded(Looped(Unc, [], s)) <==> Rounds([], s, Harmless))
    ensures LaterMatches(s, false, Safe) ==> Undisturbed(Unc, [], s)
  {
    assert forall i: nat :: !At([], i, "\\\\") by { forall i: nat ensures !At([], i, "\\\\") { PairHere([], i); } }
    AtIsNatural([]);
    NoPairGuarded([]);
    hide Looped, Undisturbed, UncGuarded, HasPair, Rewrite, LaterMatches, Rounds;
    LoopedExactly([], [], s);
    assert [] + Rewrite(Unc, s) == Rewrite(Unc, s);
    UncEstablished(s);
    if NoEmptyShare(s) { PromiseExactly([], s); }
    if Rounds([], s, NotLoose) { HarmlessExactly([], s); }
    if LaterMatches(s, false, Safe) { SafeIsUndisturbed([], s); }
  }

  lemma PairFound(r: string, offset: nat, rel: nat)
    requires offset <= |r| && rel == Find(r[offset..], "\\\\")
    ensures offset + rel + 2 <= |r| && At(r, offset + rel, "\\\\")
    ensures MatchLen(Unc, r[offset + rel..]) == UncLen(r[offset + rel..])
    ensures forall i :: offset <= i < offset + rel ==> MatchLen(Unc, r[i..]) == 0
  {
    hide Find, UncLen;
    AtFound(r, offset, rel, "\\\\");
    UncMatchIs(r[offset + rel..]);
    forall i | offset <= i < offset + rel ensures MatchLen(Unc, r[i..]) == 0 {
      DropTwice(r, offset, i - offset);
      UncMatchChars(r[i..]);
      assert !At(r[offset..], i - offset, "\\\\");
    }
  }

  lemma NothingFound(r: string, offset: nat, s: string)
    requires Searched(Unc, r, offset, s) && Find(r[offset..], "\\\\") < 0
    ensures r == Looped(Unc, [], s)
  {
    hide Find, MatchLen, Looped;
    forall i | offset <= i < |r| ensures MatchLen(Unc, r[i..]) == 0 {
      DropTwice(r, offset, i - offset);
      UncMatchChars(r[i..]);
      FindMeans(r[offset..], "\\\\");
      assert !At(r[offset..], i - offset, "\\\\");
    }
    SearchedAll(Unc, r, offset, s);
  }

  /** The source's three end cases compute UncLen. */
  lemma MatchEnd(r: string, start: nat, firstBs: int, secondBs: int)
    requires start + 2 <= |r| && At(r, start, "\\\\") && firstBs == Find(r[start + 2..], "\\")
    requires 0 <= firstBs < |r| - start - 2 ==> secondBs == Find(r[start + 2..][firstBs + 1..], "\\")
    ensures firstBs < |r| - start - 2
    ensures UncLen(r[start..])
            == if firstBs < 0 then |r| - start
               else if secondBs < 0 then 2 + firstBs else 2 + firstBs + 1 + secondBs
  {
    var after := r[start + 2..];
    DropTwice(r, start, 2);
    FindSeparator(after);
    if 0 <= firstBs {
      FindSeparator(after[firstBs + 1..]);
    }
  }

  lemma AfterServer(r: string, start: nat, firstBs: nat)
    requires start + 2 <= |r| && firstBs == Find(r[start + 2..], "\\")
    ensures firstBs < |r| - start - 2
  {
    FindSeparator(r[start + 2..]);
  }

  /** For every input the pass stays in bounds and ends, and its output is the loop's. */
  method RedactUncPath(s: string) returns (result: string)
    ensures result == Looped(Unc, [], s)
    ensures result == Rewrite(Unc, s) <==> Undisturbed(Unc, [], s)
    ensures Undisturbed(Unc, [], s) ==> UncGuarded(result)
    ensures NoEmptyShare(s) ==> (UncGuarded(result) <==> NoShortMatch(s))
    ensures Rounds([], s, NotLoose) ==> (UncGuarded(result) <==> Rounds([], s, Harmless))
  {
    hide Find, Rewrite, NoEmptyShare, NoShortMatch, UncGuarded, Undisturbed, Looped, ReplaceFirst, UncLen, At,
      Searched, MatchLen, Rounds;
    DropNone(s);
    SearchedFirst(Unc, s);
    if Find(s, "\\\\") < 0 {
      NothingFound(s, 0, s);
      LoopedOutcome(s);
      return s;
    }
    result := s;
    var searchFrom := 0;
    while true
      invariant 0 <= searchFrom <= |result|
      invariant Searched(Unc, result, searchFrom, s)
      decreases |result| - searchFrom
    {
      var rel := Find(result[searchFrom..], "\\\\");
      if rel < 0 {
        NothingFound(result, searchFrom, s);
        LoopedOutcome(s);
        break;
      }
      var start := searchFrom + rel;
      PairFound(result, searchFrom, rel);
      ghost var r, n := result, MatchLen(Unc, result[start..]);
      var after := result[start + 2..];
      var firstBs := Find(after, "\\");
      if firstBs >= 0 {
        AfterServer(result, start, firstBs);
        var afterServer := after[firstBs + 1..];
        var secondBs := Find(afterServer, "\\");
        MatchEnd(result, start, firstBs, secondBs);
        if secondBs >= 0 {
          var end := start + 2 + firstBs + 1 + secondBs;
          var uncPrefix := result[start..end];
          result := ReplaceFirst(result, uncPrefix, "\\\\[REDACTED_PATH]");
        } else {
          var end := start + 2 + firstBs;
          var uncPrefix := result[start..end];
          result := ReplaceFirst(result, uncPrefix, "\\\\[REDACTED_PATH]");
        }
      } else {
        MatchEnd(result, start, firstBs, 0);
        var uncPrefix := result[start..];
        assert uncPrefix == r[start..start + n];
        result := ReplaceFirst(result, uncPrefix, "\\\\[REDACTED_PATH]");
      }
      SearchedRound(Unc, r, searchFrom, start, n, result, s);
      searchFrom := start + |"\\\\[REDACTED_PATH]"|;
    }
  }

  // ----- inputs on which the promise fails, or holds by accident

  const FIRST_PATH: string := "\\\\a\\b"

  /** A first path, one more segment `c`, and m. */
  function Behind(m: string): string { FIRST_PATH + (['\\'] + (['c'] + m)) }

  lemma CopyStep(p: string, c: char, q: string, seen: bool, ok: string -> bool)
    requires c == '\\' ==> q == [] || q[0] != '\\'
    ensures Looped(Unc, p, [c] + q) == Looped(Unc, p + [c], q)
    ensures Undisturbed(Unc, p, [c] + q) == Undisturbed(Unc, p + [c], q)
    ensures LaterMatches([c] + q, seen, ok) == LaterMatches(q, seen, ok)
  {
    BackslashChars([c] + q);
    UncMatchChars([c] + q);
    assert ([c] + q)[1..] == q && ([c] + q)[0] == c;
    hide MatchLen, Hit, Find;
  }

  lemma MatchStep(p: string, u: string, z: string, seen: bool, ok: string -> bool)
    requires "\\\\" <= u + z && UncLen(u + z) == |u|
    ensures Looped(Unc, p, u + z) == Looped(Unc, Hit(Unc, p, u), z)
    ensures Undisturbed(Unc, p, u + z)
            == ((u == UNC_MARK || Find(p + u, u) == |p|) && Undisturbed(Unc, p + UNC_MARK, z))
    ensures LaterMatches(u + z, seen, ok) == ((seen ==> ok(u)) && LaterMatches(z, true, ok))
  {
    UncMatchIs(u + z);
    assert (u + z)[..|u|] == u && (u + z)[|u|..] == z;
    hide MatchLen, Hit, Find, UncLen;
  }

  lemma FirstPathMatch(q: string)
    ensures "\\\\" <= FIRST_PATH + (['\\'] + q) && UncLen(FIRST_PATH + (['\\'] + q)) == 5
  {
    var s := FIRST_PATH + (['\\'] + q);
    BackslashChars(s);
    assert s[2..] == "a\\b\\" + q;
    SegLenIs(s[2..], 1);
    assert s[2..][2..] == "b\\" + q;
    SegLenIs(s[2..][2..], 1);
  }

  lemma FirstHit()
    ensures Hit(Unc, [], FIRST_PATH) == UNC_MARK && Find([] + FIRST_PATH, FIRST_PATH) == 0
  {
    assert [] + FIRST_PATH == FIRST_PATH;
    DropNone(FIRST_PATH);
    assert At(FIRST_PATH, 0, FIRST_PATH);
    FindMeans(FIRST_PATH, FIRST_PATH);
    hide Find;
    HitHere(Unc, [], FIRST_PATH);
    assert [] + UNC_MARK == UNC_MARK;
  }

  /** Behind the first path, m is searched after the mark and the segment. */
  lemma BehindFirst(m: string, ok: string -> bool)
    ensures Looped(Unc, [], Behind(m)) == Looped(Unc, UNC_MARK + ['\\'] + ['c'], m)
    ensures Undisturbed(Unc, [], Behind(m)) == Undisturbed(Unc, UNC_MARK + ['\\'] + ['c'], m)
    ensures LaterMatches(Behind(m), false, ok) == LaterMatches(m, true, ok)
  {
    var q := ['c'] + m;
    FirstPathMatch(q);
    FirstHit();
    assert [] + UNC_MARK == UNC_MARK;
    hide Looped, Undisturbed, LaterMatches, UncLen, Hit, Find;
    MatchStep([], FIRST_PATH, ['\\'] + q, false, ok);
    CopyStep(UNC_MARK, '\\', q, true, ok);
    CopyStep(UNC_MARK + ['\\'], 'c', m, true, ok);
  }

  /** A later match that is a proper prefix of the mark is left as it is. */
  lemma ShortMatchLost(v: string)
    requires "\\\\" <= v && Short(v)
    ensures !UncGuarded(Looped(Unc, [], Behind(v)))
  {
    WholeMatch(v);
    hide Looped, Undisturbed, LaterMatches, UncLen, Hit, Find, UncGuarded, Behind;
    MatchStep([], v, [], true, Closed);
    MatchStep([], v, [], true, NotShort);
    NoMatchesLater(Closed);
    BehindFirst(v, Closed);
    BehindFirst(v, NotShort);
    LoopedOutcome(Behind(v));
  }

  lemma WholeMatch(v: string)
    requires "\\\\" <= v && Short(v)
    ensures v + [] == v && UncLen(v) == |v| && Closed(v)
  {
    NoThirdBackslash(v, |v|);
    assert v[..|v|] == v;
    SegLenIs(v[2..], |v| - 2);
  }

  lemma NoMatchesLater(ok: string -> bool)
    ensures LaterMatches([], true, ok)
  {
  }

  lemma {:induction false} NoneLater(z: string, ok: string -> bool)
    requires forall i :: !At(z, i, "\\\\")
    ensures LaterMatches(z, true, ok)
    decreases z
  {
    if z != [] {
      DropNone(z);
      assert !At(z, 0, "\\\\");
      forall i ensures !At(z[1..], i, "\\\\") {
        if 0 <= i <= |z[1..]| { DropTwice(z, 1, i); }
        assert !At(z, i + 1, "\\\\");
      }
      NoneLater(z[1..], ok);
    }
  }

  const EMPTY_SHARE: string := UNC_MARK + ['\\']

  lemma EmptyShareMatch(z: string)
    requires z != [] && z[0] == '\\'
    ensures "\\\\" <= EMPTY_SHARE + z && UncLen(EMPTY_SHARE + z) == |EMPTY_SHARE| == 18
  {
    var m := EMPTY_SHARE + z;
    BackslashChars(m);
    assert m[2..] == PATH_MARK + ['\\'] + z;
    SegLenIs(m[2..], 15);
    assert m[2..][16..] == z;
    SegLenIs(z, 0);
  }

  lemma EmptyShareHit()
    ensures var p := UNC_MARK + ['\\'] + ['c'];
            Find(p + EMPTY_SHARE, EMPTY_SHARE) == 0 && Hit(Unc, p, EMPTY_SHARE) == UNC_MARK + (['c'] + EMPTY_SHARE)
  {
    var p := UNC_MARK + ['\\'] + ['c'];
    var r := p + EMPTY_SHARE;
    assert r == EMPTY_SHARE + (['c'] + EMPTY_SHARE);
    DropNone(r);
    assert At(r, 0, EMPTY_SHARE);
    FindMeans(r, EMPTY_SHARE);
    var h := UncHit(p, EMPTY_SHARE);
    hide Find, Hit, At;
    assert r[18..] == ['c'] + EMPTY_SHARE && r[..0] == [];
    assert [] + UNC_MARK == UNC_MARK;
  }

  /** A later match that is the mark with an empty share is found in the first mark when a separator
      follows that one, too. */
  lemma EmptyShareDisturbed(z: string)
    requires z != [] && z[0] == '\\' && forall i :: !At(z, i, "\\\\")
    ensures var s := Behind(EMPTY_SHARE + z);
            && !Undisturbed(Unc, [], s) && NoShortMatch(s)
            && Looped(Unc, [], s) == UNC_MARK + (['c'] + EMPTY_SHARE) + z
  {
    var p := UNC_MARK + ['\\'] + ['c'];
    EmptyShareMatch(z);
    EmptyShareHit();
    EmptyShareIsLong();
    NoMatchAhead(z);
    NoneLater(z, NotShort);
    hide Looped, Undisturbed, LaterMatches, UncLen, Hit, Find, Behind, MatchLen, At, NotShort;
    BehindFirst(EMPTY_SHARE + z, NotShort);
    MatchStep(p, EMPTY_SHARE, z, true, NotShort);
    LoopedEnd(Unc, Hit(Unc, p, EMPTY_SHARE), z);
  }

  lemma EmptyShareIsLong()
    ensures NotShort(EMPTY_SHARE) && EMPTY_SHARE != UNC_MARK
  {
  }

  lemma NoPairIn(z: string)
    requires forall i :: 1 <= i < |z| ==> z[i] != '\\'
    ensures forall i :: !At(z, i, "\\\\")
  {
    forall i ensures !At(z, i, "\\\\") {
      if 0 <= i { PairHere(z, i); }
    }
  }

  /** Then the promise fails, although no match is a proper prefix of the mark ... */
  lemma EmptyShareLost()
    ensures var s := Behind(EMPTY_SHARE + "\\x"); NoShortMatch(s) && !UncGuarded(Looped(Unc, [], s))
  {
    var z := ['\\', 'x'];
    assert z == "\\x";
    NoPairIn(z);
    hide Looped, Undisturbed, LaterMatches, Behind, At, UncGuarded;
    EmptyShareDisturbed(z);
    BarePair(UNC_MARK, ['c']);
  }

  lemma BarePair(a: string, c: string)
    ensures !UncGuarded(a + (c + (a + ['\\'])) + ['\\', 'x'])
  {
    var p := a + (c + a);
    var r := a + (c + (a + ['\\'])) + ['\\', 'x'];
    assert r == p + ['\\', '\\', 'x'];
    PairHere(r, |p|);
    GuardHere(r, |p|);
  }

  /** ... or holds, although the output is not the plain rewrite. */
  lemma EmptyShareKept()
    ensures var s := Behind(EMPTY_SHARE + (['\\'] + PATH_MARK));
            Looped(Unc, [], s) != Rewrite(Unc, s) && UncGuarded(Looped(Unc, [], s))
  {
    var z := ['\\'] + PATH_MARK;
    NoPairIn(z);
    hide Looped, Undisturbed, LaterMatches, Behind, At, Rewrite, UncGuarded, HasPair;
    EmptyShareDisturbed(z);
    LoopedOutcome(Behind(EMPTY_SHARE + z));
    ThreeMarks();
  }

  lemma ThreeMarks()
    ensures UncGuarded(UNC_MARK + (['c'] + EMPTY_SHARE) + (['\\'] + PATH_MARK))
  {
    var b := ['c'] + UNC_MARK;
    assert UNC_MARK + (['c'] + EMPTY_SHARE) + (['\\'] + PATH_MARK) == UNC_MARK + b + UNC_MARK;
    NoPairIn(['c']);
    NoPairGuarded(['c']);
    MarkGuarded();
    hide UncGuarded, HasPair, At;
    MarkBehind(['c']);
    GuardedConcat(UNC_MARK, b);
    MarkBehind(UNC_MARK + b);
  }
}
