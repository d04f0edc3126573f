/**
  The loop that the user-name and the UNC pass share, as a function: each round finds the next
  match in the text not yet searched, but rewrites the FIRST occurrence of its text.
 */
module FirstOccurrence {
  import opened Strings
  import opened Rewriting

  /** What a round makes of the searched text p and the match u behind it. */
  function Hit(rule: Rule, p: string, u: string): string { ReplaceFirst(p + u, u, Mark(rule)) }

  /** The output of the loop when p is searched and q is not. */
  function Looped(rule: Rule, p: string, q: string): string
    decreases |q|
  {
    if q == [] then p
    else if MatchLen(rule, q) == 0 then Looped(rule, p + [q[0]], q[1..])
    else Looped(rule, Hit(rule, p, q[..MatchLen(rule, q)]), q[MatchLen(rule, q)..])
  }

  /** Every match is the mark itself, or does not occur in the text rewritten before it. */
  predicate Undisturbed(rule: Rule, p: string, q: string)
    decreases |q|
  {
    if q == [] then true
    else if MatchLen(rule, q) == 0 then Undisturbed(rule, p + [q[0]], q[1..])
    else
      var u := q[..MatchLen(rule, q)];
      (u == Mark(rule) || Find(p + u, u) == |p|) && Undisturbed(rule, p + Mark(rule), q[MatchLen(rule, q)..])
  }

  /** A hit lies at or before the match, so the searched text grows by a mark wherever it is. */
  lemma HitIs(rule: Rule, p: string, u: string) returns (h: nat)
    ensures h == Find(p + u, u) <= |p| && At(p + u, h, u) && h + |u| <= |p + u|
    ensures Hit(rule, p, u) == (p + u)[..h] + Mark(rule) + (p + u)[h + |u|..]
    ensures |Hit(rule, p, u)| == |p| + |Mark(rule)|
  {
    hide Mark, Find;
    assert (p + u)[|p|..] == u;
    assert At(p + u, |p|, u);
    h := Find(p + u, u);
    AtInside(p + u, h, u);
  }

  lemma HitHere(rule: Rule, p: string, u: string)
    requires u == Mark(rule) || Find(p + u, u) == |p|
    ensures Hit(rule, p, u) == p + Mark(rule)
  {
    hide Find, Mark;
    if u == Mark(rule) {
      ReplaceSame(p + u, u);
    } else {
      assert (p + u)[..|p|] == p && (p + u)[|p| + |u|..] == [];
      assert p + Mark(rule) + [] == p + Mark(rule);
    }
  }

  // ----- the loop in steps

  lemma LoopedMatch(rule: Rule, p: string, q: string)
    ensures MatchLen(rule, q) > 0
            ==> Looped(rule, p, q) == Looped(rule, Hit(rule, p, q[..MatchLen(rule, q)]), q[MatchLen(rule, q)..])
  {
  }

  /** Text in which no match starts is passed over. */
  lemma {:induction false} LoopedSkip(rule: Rule, p: string, t: string, q: string)
    requires forall i :: 0 <= i < |t| ==> MatchLen(rule, t[i..] + q) == 0
    ensures Looped(rule, p, t + q) == Looped(rule, p + t, q)
    decreases t
  {
    hide MatchLen, Hit;
    if t == [] {
      assert t + q == q && p + t == p;
    } else {
      assert t[0..] == t;
      assert (t + q)[1..] == t[1..] + q && (t + q)[0] == t[0];
      forall i | 0 <= i < |t[1..]| ensures MatchLen(rule, t[1..][i..] + q) == 0 {
        assert t[1..][i..] == t[i + 1..];
      }
      LoopedSkip(rule, p + [t[0]], t[1..], q);
      assert p + [t[0]] + t[1..] == p + t;
    }
  }

  lemma LoopedEnd(rule: Rule, p: string, q: string)
    requires forall i :: 0 <= i < |q| ==> MatchLen(rule, q[i..]) == 0
    ensures Looped(rule, p, q) == p + q
  {
    hide MatchLen;
    forall i | 0 <= i < |q| ensures MatchLen(rule, q[i..] + []) == 0 {
      assert q[i..] + [] == q[i..];
    }
    LoopedSkip(rule, p, q, []);
    assert q + [] == q;
  }

  // ----- the loop on one string with a search offset

  /** A round on the whole string is a round on its searched part. */
  lemma RoundParts(rule: Rule, p: string, u: string, z: string)
    ensures ReplaceFirst(p + u + z, u, Mark(rule)) == Hit(rule, p, u) + z
  {
    var h := HitIs(rule, p, u);
    FirstStays(p + u, z, u, Mark(rule), h);
    hide *;
  }

  lemma FirstStays(s: string, z: string, u: string, mark: string, h: nat)
    requires h == Find(s, u) && h + |u| <= |s|
    ensures ReplaceFirst(s + z, u, mark) == s[..h] + mark + s[h + |u|..] + z
  {
    hide Find, ReplaceFirst;
    SameFirst(s, z, u, h);
    ReplaceIs(s + z, u, mark, h);
    Assemble(s, z, mark, h, |u|);
  }

  lemma ReplaceIs(s: string, u: string, mark: string, h: nat)
    ensures h == Find(s, u) && h + |u| <= |s| ==> ReplaceFirst(s, u, mark) == s[..h] + mark + s[h + |u|..]
  {
  }

  lemma Assemble(s: string, z: string, mark: string, h: nat, n: nat)
    requires h + n <= |s|
    ensures (s + z)[..h] + mark + (s + z)[h + n..] == s[..h] + mark + s[h + n..] + z
  {
    assert (s + z)[..h] == s[..h];
    DropInFirst(s, z, h + n);
    Associate(s[..h] + mark, s[h + n..], z);
  }

  lemma SameFirst(head: string, z: string, u: string, h: nat)
    requires h == Find(head, u) && h + |u| <= |head|
    ensures Find(head + z, u) == h
  {
    hide Find;
    FindMeans(head, u);
    FindMeans(head + z, u);
    assert (head + z)[..|head|] == head[..|head|];
    AtCommon(head, head + z, |head|, h, u);
    var f := Find(head + z, u);
    if f + |u| <= |head| { AtCommon(head, head + z, |head|, f, u); }
  }

  lemma FindMeans(s: string, pat: string)
    ensures Find(s, pat) >= 0 ==> At(s, Find(s, pat), pat)
    ensures forall i :: At(s, i, pat) ==> 0 <= Find(s, pat) <= i
  {
  }

  /** One round of the loop on the whole string, from one offset to the next. */
  lemma LoopedRound(rule: Rule, r: string, offset: nat, start: nat, n: nat, hit: string)
    requires offset <= start && start + n <= |r| && n == MatchLen(rule, r[start..]) > 0
    requires forall i :: offset <= i < start ==> MatchLen(rule, r[i..]) == 0
    requires hit == ReplaceFirst(r, r[start..start + n], Mark(rule))
    ensures start + |Mark(rule)| <= |hit| == |r| - n + |Mark(rule)|
    ensures Looped(rule, r[..offset], r[offset..])
            == Looped(rule, hit[..start + |Mark(rule)|], hit[start + |Mark(rule)|..])
  {
    var u, z, m := r[start..start + n], r[start + n..], |Mark(rule)|;
    RoundSlices(r, start, n);
    RoundParts(rule, r[..start], u, z);
    var h := HitIs(rule, r[..start], u);
    SearchedUpTo(rule, r, offset, start);
    LoopedMatch(rule, r[..start], r[start..]);
    hide *;
    assert hit == Hit(rule, r[..start], u) + z && |Hit(rule, r[..start], u)| == start + m;
    TakeWhole(Hit(rule, r[..start], u), z);
    DropInSecond(Hit(rule, r[..start], u), z, start + m);
    DropNone(z);
  }

  lemma RoundSlices(r: string, start: nat, n: nat)
    ensures start + n <= |r| ==> r == r[..start] + r[start..start + n] + r[start + n..]
    ensures start + n <= |r| ==> r[start..][..n] == r[start..start + n] && r[start..][n..] == r[start + n..]
  {
  }

  lemma SearchedUpTo(rule: Rule, r: string, offset: nat, start: nat)
    requires offset <= start <= |r| && forall i :: offset <= i < start ==> MatchLen(rule, r[i..]) == 0
    ensures Looped(rule, r[..offset], r[offset..]) == Looped(rule, r[..start], r[start..])
  {
    var t, q := r[offset..start], r[start..];
    forall i | 0 <= i < |t| ensures MatchLen(rule, t[i..] + q) == 0 {
      TailParts(r, offset, start, i);
    }
    TailParts(r, offset, start, 0);
    DropNone(t);
    hide *;
    LoopedSkip(rule, r[..offset], t, q);
  }

  lemma TailParts(r: string, offset: nat, start: nat, i: nat)
    ensures offset + i <= start <= |r| ==> r[offset..start][i..] + r[start..] == r[offset + i..]
    ensures offset + i <= start <= |r| ==> r[..offset] + r[offset..start] == r[..start]
  {
  }

  /** The loop's invariant: what is left to do comes to the same output as the whole text. */
  ghost predicate Searched(rule: Rule, r: string, offset: int, s: string) {
    0 <= offset <= |r| && Looped(rule, r[..offset], r[offset..]) == Looped(rule, [], s)
  }

  lemma SearchedFirst(rule: Rule, s: string)
    ensures Searched(rule, s, 0, s)
  {
    assert s[..0] == [] && s[0..] == s;
  }

  lemma SearchedRound(rule: Rule, r: string, offset: nat, start: nat, n: nat, hit: string, s: string)
    requires Searched(rule, r, offset, s) && offset <= start && start + n <= |r|
    requires n == MatchLen(rule, r[start..]) > 0
    requires forall i :: offset <= i < start ==> MatchLen(rule, r[i..]) == 0
    requires hit == ReplaceFirst(r, r[start..start + n], Mark(rule))
    ensures start + |Mark(rule)| <= |hit| == |r| - n + |Mark(rule)|
    ensures Searched(rule, hit, start + |Mark(rule)|, s)
  {
    hide MatchLen, Looped, ReplaceFirst, Mark;
    LoopedRound(rule, r, offset, start, n, hit);
  }

  lemma SearchedAll(rule: Rule, r: string, offset: nat, s: string)
    requires Searched(rule, r, offset, s)
    requires forall i :: offset <= i < |r| ==> MatchLen(rule, r[i..]) == 0
    ensures r == Looped(rule, [], s)
  {
    hide MatchLen, Looped;
    forall i | 0 <= i < |r[offset..]| ensures MatchLen(rule, r[offset..][i..]) == 0 {
      DropTwice(r, offset, i);
    }
    LoopedEnd(rule, r[..offset], r[offset..]);
    assert r[..offset] + r[offset..] == r;
  }

  // ----- where the loop is the plain rewrite

  lemma {:induction false} UndisturbedIsRewrite(rule: Rule, p: string, q: string)
    requires Undisturbed(rule, p, q)
    ensures Looped(rule, p, q) == p + Rewrite(rule, q)
    decreases |q|
  {
    hide MatchLen, Mark, Hit, Find;
    if q != [] {
      var n := MatchLen(rule, q);
      Unfold(rule, q);
      if n == 0 {
        UndisturbedIsRewrite(rule, p + [q[0]], q[1..]);
        Associate(p, [q[0]], Rewrite(rule, q[1..]));
      } else {
        HitHere(rule, p, q[..n]);
        UndisturbedIsRewrite(rule, p + Mark(rule), q[n..]);
        Associate(p, Mark(rule), Rewrite(rule, q[n..]));
      }
    } else {
      assert p + [] == p;
    }
  }
}
