/**
  A text as its segments between backslashes. A user-name pass changes a segment only when the
  last but one before it ends in the pass's drive letter and a colon, which decides what one
  drive's pass can change in what another one left.
 */
module Segments {
  import opened Strings
  import opened Rewriting
  import opened Guarantees
  import opened FirstOccurrence

  function Split(s: string): (r: seq<string>)
    ensures r != []
  {
    if s == [] then [[]] else Put(s[0], Split(s[1..]))
  }

  /** One character in front: a new segment, or more of the first one. */
  function Put(c: char, segs: seq<string>): (r: seq<string>)
    requires segs != []
    ensures r != []
  {
    if c == '\\' then [[]] + segs else [[c] + segs[0]] + segs[1..]
  }

  lemma {:induction false} SplitAt(a: string, b: string)
    ensures Split(a + (['\\'] + b)) == Split(a) + Split(b)
  {
    var s := a + (['\\'] + b);
    if a == [] {
      assert s[1..] == b;
    } else {
      assert s[0] == a[0] && s[1..] == a[1..] + (['\\'] + b);
      SplitAt(a[1..], b);
    }
  }

  /** Text without a backslash goes to the segment before it ... */
  lemma {:induction false} SplitFront(u: string, t: string)
    requires '\\' !in u
    ensures Split(u + t) == [u + Split(t)[0]] + Split(t)[1..]
  {
    if u == [] {
      assert u + t == t && u + Split(t)[0] == Split(t)[0];
    } else {
      assert (u + t)[0] == u[0] && (u + t)[1..] == u[1..] + t;
      SplitFront(u[1..], t);
      assert [u[0]] + (u[1..] + Split(t)[0]) == u + Split(t)[0];
    }
  }

  function Last(segs: seq<string>): string
    requires segs != []
  {
    segs[|segs| - 1]
  }

  /** The last segment continued. */
  function Continued(segs: seq<string>, w: string): (r: seq<string>)
    requires segs != []
    ensures |r| == |segs|
  {
    segs[..|segs| - 1] + [Last(segs) + w]
  }

  /** ... or behind it. */
  lemma {:induction false} SplitBack(a: string, w: string)
    requires '\\' !in w
    ensures Split(a + w) == Continued(Split(a), w)
  {
    if a == [] {
      assert a + w == w + [] == w;
      SplitFront(w, []);
    } else {
      assert (a + w)[0] == a[0] && (a + w)[1..] == a[1..] + w;
      SplitBack(a[1..], w);
      PutContinued(a[0], Split(a[1..]), w);
      hide Put, Continued;
    }
  }

  lemma PutContinued(c: char, segs: seq<string>, w: string)
    requires segs != []
    ensures Put(c, Continued(segs, w)) == Continued(Put(c, segs), w)
  {
    Associate([c], segs[0], w);
    if c == '\\' {
      assert ([[]] + segs)[..|segs|] == [[]] + segs[..|segs| - 1];
    } else if |segs| > 1 {
      assert Continued(segs, w)[1..] == segs[1..|segs| - 1] + [Last(segs) + w];
      assert Put(c, segs)[..|segs| - 1] == [[c] + segs[0]] + segs[1..|segs| - 1];
    }
  }

  /** The segments of a user path at |a|, up to its name. */
  function ToName(x: Drive, a: string): (r: seq<string>)
    ensures |r| == |Split(a)| + 1
  {
    Continued(Split(a), [x, ':']) + ["Users"]
  }

  lemma PathText(x: Drive, a: string, t: string)
    ensures a + (UsersPrefix(x) + t) == (a + [x, ':']) + (['\\'] + ("Users" + (['\\'] + t)))
  {
  }

  lemma UsersSegment()
    ensures Split("Users") == ["Users"]
  {
    SplitFront("Users", []);
    assert "Users" + [] == "Users";
  }

  lemma PathSegments(x: Drive, a: string, t: string)
    ensures Split(a + (UsersPrefix(x) + t)) == ToName(x, a) + Split(t)
  {
    PathText(x, a, t);
    UsersSegment();
    hide Split, UsersPrefix, Continued;
    SplitAt(a + [x, ':'], "Users" + (['\\'] + t));
    SplitAt("Users", t);
    SplitBack(a, [x, ':']);
  }

  // ----- what a pass cannot change

  /** A segment behind which no drive but d looks for a name: it ends in `d:`, or in the end of a mark */
  predicate Sealed(d: Drive, seg: string) {
    var n := |seg|;
    n > 0 && (seg[n - 1] == '>' || (n > 1 && seg[n - 1] == ':' && (seg[n - 2] == d || seg[n - 2] == '>')))
  }

  /** The segment behind such a one and another is v. */
  predicate Pinned(d: Drive, segs: seq<string>, i: nat, v: string) {
    i + 2 < |segs| && Sealed(d, segs[i]) && segs[i + 2] == v
  }

  /** Two texts that differ in a segment pinned in both. */
  ghost predicate Parted(d: Drive, a: string, b: string) {
    exists i, v, v' :: v != v' && Pinned(d, Split(a), i, v) && Pinned(d, Split(b), i, v')
  }

  lemma SealedKept(d: Drive, u: string, w: string)
    requires Sealed(d, u + w)
    ensures Sealed(d, REDACTED + w)
  {
  }

  lemma NotSealed(d: Drive, x: Drive, seg: string)
    requires x != d
    ensures !Sealed(d, seg + [x, ':'])
  {
  }

  lemma PinnedBehind(d: Drive, front: seq<string>, u: string, tail: seq<string>, i: nat, v: string)
    requires |front| >= 2 && !Sealed(d, front[|front| - 2]) && tail != []
    requires Pinned(d, front + ([u + tail[0]] + tail[1..]), i, v)
    ensures Pinned(d, front + ([REDACTED + tail[0]] + tail[1..]), i, v)
  {
    if i == |front| { SealedKept(d, u, tail[0]); }
    hide Sealed;
  }

  /** A hit of another drive keeps what is pinned. */
  lemma HitPinned(d: Drive, x: Drive, a: string, u: string, rest: string, i: nat, v: string)
    requires x != d && '\\' !in u && Pinned(d, Split(a + (UsersPrefix(x) + (u + rest))), i, v)
    ensures Pinned(d, Split(a + (UsersPrefix(x) + (REDACTED + rest))), i, v)
  {
    PathSegments(x, a, u + rest);
    PathSegments(x, a, REDACTED + rest);
    SplitFront(u, rest);
    SplitFront(REDACTED, rest);
    NotSealed(d, x, Last(Split(a)));
    hide Split, UsersPrefix, Pinned, Sealed;
    PinnedBehind(d, ToName(x, a), u, Split(rest), i, v);
  }

  /** The place of a user path in the segments, with its name. */
  function Place(a: string): nat { |Split(a)| - 1 }

  lemma NamePinned(d: Drive, a: string, v: string, t: string)
    requires '\\' !in v && (t == [] || t[0] == '\\')
    ensures Pinned(d, Split(a + (UsersPrefix(d) + (v + t))), Place(a), v)
  {
    PathSegments(d, a, v + t);
    SplitFront(v, t);
    assert Split(t)[0] == [] && v + [] == v;
    hide Split, UsersPrefix;
  }

  /** Rewriting a name moves no place behind it. */
  lemma PlaceKept(d: Drive, a: string, u: string, t: string)
    requires '\\' !in u
    ensures Place(a + (UsersPrefix(d) + (REDACTED + t))) == Place(a + (UsersPrefix(d) + (u + t)))
  {
    PathSegments(d, a, u + t);
    PathSegments(d, a, REDACTED + t);
    SplitFront(u, t);
    SplitFront(REDACTED, t);
    hide Split, UsersPrefix;
  }

  /** A name left behind where the other text has the mark. */
  lemma NameParts(d: Drive, s: string, other: string, c: nat, v: string, z: string)
    requires c <= |s| && s[c..] == UsersPrefix(d) + v + z && '\\' !in v && v != REDACTED && (z == [] || z[0] == '\\')
    requires Pinned(d, Split(other), Place(s[..c]), REDACTED)
    ensures Parted(d, s, other)
  {
    Associate(UsersPrefix(d), v, z);
    assert s == s[..c] + s[c..];
    NamePinned(d, s[..c], v, z);
    hide Split, UsersPrefix, Pinned;
  }

  // ----- the passes of the other drives

  lemma MatchParts(x: Drive, q: string) returns (u: string)
    requires MatchLen(UserName(x), q) > 0
    ensures '\\' !in u && q[..MatchLen(UserName(x), q)] == UsersPrefix(x) + u
    ensures q == UsersPrefix(x) + (u + q[MatchLen(UserName(x), q)..])
  {
    var n := MatchLen(UserName(x), q);
    u := q[9..n];
    TakeDropped(q, 9, n - 9);
    HeadTail(q, UsersPrefix(x));
    hide UsersPrefix, SegLen;
    DropTwice(q, 9, n - 9);
    assert q[9..] == u + q[n..];
    assert q[..n] == q[..9] + u;
  }

  lemma MarkParts(x: Drive, g: string, rest: string)
    ensures g + Mark(UserName(x)) + rest == g + (UsersPrefix(x) + (REDACTED + rest))
  {
  }

  lemma {:induction false} RewritePinned(d: Drive, x: Drive, g: string, q: string, i: nat, v: string)
    requires x != d && Pinned(d, Split(g + q), i, v)
    ensures Pinned(d, Split(g + Rewrite(UserName(x), q)), i, v)
    decreases |q|
  {
    var rule := UserName(x);
    hide MatchLen, Mark, UsersPrefix, Split, Pinned;
    if q != [] {
      var n := MatchLen(rule, q);
      Unfold(rule, q);
      hide Rewrite;
      if n == 0 {
        Associate(g, [q[0]], q[1..]);
        assert [q[0]] + q[1..] == q;
        RewritePinned(d, x, g + [q[0]], q[1..], i, v);
        Associate(g, [q[0]], Rewrite(rule, q[1..]));
      } else {
        var u := MatchParts(x, q);
        HitPinned(d, x, g, u, q[n..], i, v);
        MarkParts(x, g, q[n..]);
        RewritePinned(d, x, g + Mark(rule), q[n..], i, v);
        Associate(g, Mark(rule), Rewrite(rule, q[n..]));
      }
    }
  }

  /** A round of the loop on the whole text, wherever it hits. */
  lemma RoundPinned(d: Drive, x: Drive, p: string, u: string, z: string, i: nat, v: string)
    requires x != d && '\\' !in u && Pinned(d, Split(p + (UsersPrefix(x) + (u + z))), i, v)
    ensures Pinned(d, Split(Hit(UserName(x), p, UsersPrefix(x) + u) + z), i, v)
  {
    var full := UsersPrefix(x) + u;
    var r := p + full;
    hide MatchLen, UsersPrefix, Split, Pinned, Hit, Find, Mark;
    var h := HitIs(UserName(x), p, full);
    Occurrence(r, h, full);
    hide At;
    var a, b := r[..h], r[h + |full|..];
    WholeText(p, UsersPrefix(x), u, z, a, b);
    HitPinned(d, x, a, u, b + z, i, v);
    MarkParts(x, a, b + z);
    Associate(a + Mark(UserName(x)), b, z);
  }

  lemma WholeText(p: string, pre: string, u: string, z: string, a: string, b: string)
    requires p + (pre + u) == a + (pre + u) + b
    ensures p + (pre + (u + z)) == a + (pre + (u + (b + z)))
  {
    assert p + (pre + (u + z)) == p + (pre + u) + z;
  }

  lemma {:induction false} LoopedPinned(d: Drive, x: Drive, p: string, q: string, i: nat, v: string)
    requires x != d && Pinned(d, Split(p + q), i, v)
    ensures Pinned(d, Split(Looped(UserName(x), p, q)), i, v)
    decreases |q|
  {
    var rule := UserName(x);
    hide MatchLen, Mark, UsersPrefix, Split, Pinned, Hit;
    if q == [] {
      assert p + q == p;
    } else {
      var n := MatchLen(rule, q);
      if n == 0 {
        Associate(p, [q[0]], q[1..]);
        assert [q[0]] + q[1..] == q;
        LoopedPinned(d, x, p + [q[0]], q[1..], i, v);
      } else {
        var u := MatchParts(x, q);
        RoundPinned(d, x, p, u, q[n..], i, v);
        LoopedPinned(d, x, Hit(rule, p, q[..n]), q[n..], i, v);
      }
    }
  }

  /** Another drive's loop and rewrite keep two texts apart. */
  lemma StayParted(d: Drive, x: Drive, a: string, b: string)
    requires x != d && Parted(d, a, b)
    ensures Parted(d, Looped(UserName(x), [], a), Rewrite(UserName(x), b))
  {
    hide Looped, Rewrite, Pinned, Split;
    var i, v, v' :| v != v' && Pinned(d, Split(a), i, v) && Pinned(d, Split(b), i, v');
    assert [] + a == a && [] + b == b && [] + Rewrite(UserName(x), b) == Rewrite(UserName(x), b);
    LoopedPinned(d, x, [], a, i, v);
    RewritePinned(d, x, [], b, i, v');
  }

  lemma PartedDiffer(d: Drive, a: string, b: string)
    ensures Parted(d, a, b) ==> a != b
  {
  }
}
