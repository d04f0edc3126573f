/**
  `redact_path_username`. Each round finds the next user path behind a search offset, but
  rewrites the FIRST occurrence of the text it found. The pass equals the left-to-right
  rewrite exactly when no user name after the first one is a proper prefix of `<redacted>`.
 */
module UserNameRedaction {
  import opened Strings
  import opened Rewriting
  import opened Guarantees
  import opened FirstOccurrence
  import opened Segments

  // ----- when the pass is faithful

  predicate FaithfulFrom(d: Drive, s: string, seen: bool)
    decreases |s|
  {
    if s == [] then true
    else if UsersPrefix(d) <= s then
      var n := SegLen(s[9..]);
      (seen ==> !(s[9..9 + n] < REDACTED)) && FaithfulFrom(d, s[9 + n..], true)
    else FaithfulFrom(d, s[1..], seen)
  }

  /** No user name of the drive after the first one is a proper prefix of `<redacted>`
      (the empty name is one). */
  predicate Faithful(d: Drive, s: string) {
    FaithfulFrom(d, s, false)
  }

  // ----- one round, seen from the text still to be searched

  /** The round's view: t holds no user path, then comes `X:\Users\u`, then z. */
  ghost predicate NextPath(d: Drive, rest: string, t: string, u: string, z: string) {
    && rest == t + (UsersPrefix(d) + u + z)
    && (forall i :: At(rest, i, UsersPrefix(d)) ==> i >= |t|)
    && '\\' !in u
    && (z == [] || z[0] == '\\')
  }

  ghost predicate NoPath(d: Drive, rest: string) {
    forall i :: !At(rest, i, UsersPrefix(d))
  }

  lemma NoMatchBefore(d: Drive, rest: string, t: string, q: string)
    requires rest == t + q && forall i :: At(rest, i, UsersPrefix(d)) ==> i >= |t|
    ensures forall i :: 0 <= i < |t| ==> MatchLen(UserName(d), t[i..] + q) == 0
  {
    forall i | 0 <= i < |t| ensures MatchLen(UserName(d), t[i..] + q) == 0 {
      DropInFirst(t, q, i);
      UserMatchChars(d, t[i..] + q);
      assert !At(rest, i, UsersPrefix(d));
    }
  }

  lemma PathHead(d: Drive, u: string, z: string)
    requires '\\' !in u && (z == [] || z[0] == '\\')
    ensures var s := UsersPrefix(d) + u + z;
            UsersPrefix(d) <= s && s[9..] == u + z && SegLen(s[9..]) == |u| && s[9..9 + |u|] == u && s[9 + |u|..] == z
  {
    var s := UsersPrefix(d) + u + z;
    assert s[9..] == u + z;
    SegLenIs(u + z, |u|);
  }

  lemma RewriteRound(d: Drive, rest: string, t: string, u: string, z: string)
    requires NextPath(d, rest, t, u, z)
    ensures Rewrite(UserName(d), rest) == t + UsersPrefix(d) + REDACTED + Rewrite(UserName(d), z)
  {
    var rule, q := UserName(d), UsersPrefix(d) + u + z;
    NoMatchBefore(d, rest, t, q);
    PathHead(d, u, z);
    assert Emit(rule, q) == UsersPrefix(d) + REDACTED && Step(rule, q) == 9 + |u|;
    Unfold(rule, q);
    hide *;
    CopyForward(rule, t, q);
    Associate(t, UsersPrefix(d) + REDACTED, Rewrite(rule, z));
    Associate(t, UsersPrefix(d), REDACTED);
  }

  lemma RewriteRest(d: Drive, rest: string)
    requires NoPath(d, rest)
    ensures Rewrite(UserName(d), rest) == rest
  {
    assert rest + [] == rest;
    NoMatchBefore(d, rest, rest, []);
    EmptyKept(UserName(d));
    hide *;
    CopyForward(UserName(d), rest, []);
  }

  lemma {:induction false} FaithfulSkip(d: Drive, t: string, q: string, seen: bool)
    requires forall i :: At(t + q, i, UsersPrefix(d)) ==> i >= |t|
    ensures FaithfulFrom(d, t + q, seen) == FaithfulFrom(d, q, seen)
  {
    if t == [] {
      assert t + q == q;
    } else {
      DropNone(t + q);
      assert !At(t + q, 0, UsersPrefix(d));
      assert (t + q)[1..] == t[1..] + q;
      forall i | At(t[1..] + q, i, UsersPrefix(d)) ensures i >= |t[1..]| {
        DropTwice(t + q, 1, i);
        assert At(t + q, i + 1, UsersPrefix(d));
      }
      FaithfulSkip(d, t[1..], q, seen);
    }
  }

  lemma FaithfulRound(d: Drive, rest: string, t: string, u: string, z: string, seen: bool)
    requires NextPath(d, rest, t, u, z)
    ensures FaithfulFrom(d, rest, seen) == ((seen ==> !(u < REDACTED)) && FaithfulFrom(d, z, true))
  {
    FaithfulSkip(d, t, UsersPrefix(d) + u + z, seen);
    PathHead(d, u, z);
  }

  lemma FaithfulRest(d: Drive, rest: string, seen: bool)
    requires NoPath(d, rest)
    ensures FaithfulFrom(d, rest, seen)
  {
    assert rest + [] == rest;
    FaithfulSkip(d, rest, [], seen);
  }

  // ----- what a replacement does to the text before the offset

  predicate HasBackslash(s: string, x: int, y: int) {
    exists b :: x <= b < y && 0 <= b < |s| && s[b] == '\\'
  }

  /** Every user path that begins before c has a backslash behind its name, still before c. */
  ghost predicate Separated(d: Drive, s: string, c: int) {
    forall e :: e < c && At(s, e, UsersPrefix(d)) ==> HasBackslash(s, e + 9, c)
  }

  /** The first user path of the text is at f and already redacted. */
  ghost predicate FirstPlace(d: Drive, s: string, f: int) {
    At(s, f, UsersPrefix(d) + REDACTED) && forall e :: e < f ==> !At(s, e, UsersPrefix(d))
  }

  /** The text with `X:\Users\u` at h rewritten; q is where the name at h ends. */
  function PathHit(d: Drive, s: string, h: nat, q: nat): string
    requires h <= q <= |s|
  {
    s[..h] + (UsersPrefix(d) + REDACTED) + s[q..]
  }

  lemma HitParts(d: Drive, s: string, h: nat, q: nat)
    requires h + 9 <= q <= |s| && At(s, h, UsersPrefix(d))
    ensures |PathHit(d, s, h, q)| == |s| - q + h + 19
    ensures PathHit(d, s, h, q)[..h] == s[..h]
    ensures PathHit(d, s, h, q)[..h + 9] == s[..h + 9]
    ensures PathHit(d, s, h, q)[h + 19..] == s[q..]
    ensures At(PathHit(d, s, h, q), h, UsersPrefix(d) + REDACTED)
  {
    var p, hit := UsersPrefix(d), PathHit(d, s, h, q);
    hide UsersPrefix;
    assert s[..h + 9] == s[..h] + s[h..][..9];
    assert hit[..h + 9] == s[..h] + p;
    assert hit[h..] == p + REDACTED + s[q..];
  }

  lemma NotInsideHit(d: Drive, s: string, h: int, e: int)
    requires At(s, h, UsersPrefix(d) + REDACTED) && h < e < h + 19
    ensures !At(s, e, UsersPrefix(d))
  {
    var m := UsersPrefix(d) + REDACTED;
    assert m == Mark(UserName(d));
    var rest := s[h..][19..];
    assert s[h..] == m + rest;
    DropInFirst(m, rest, e - h);
    DropTwice(s, h, e - h);
    NotInMark(UserName(d), d, e - h, rest);
  }

  lemma FirstPlaceKept(d: Drive, s: string, f: int, h: nat, q: nat)
    requires FirstPlace(d, s, f) && h + 9 <= q <= |s| && At(s, h, UsersPrefix(d))
    ensures f <= h && FirstPlace(d, PathHit(d, s, h, q), f)
  {
    var p, hit := UsersPrefix(d), PathHit(d, s, h, q);
    HitParts(d, s, h, q);
    hide UsersPrefix, PathHit;
    if f < h {
      if h < f + 19 {
        NotInsideHit(d, s, f, h);
      } else {
        AtCommon(s, hit, h, f, p + REDACTED);
      }
    }
    forall e | e < f ensures !At(hit, e, p) {
      AtCommon(s, hit, h + 9, e, p);
    }
  }

  lemma BackslashMoved(d: Drive, s: string, h: nat, q: nat, x: int, c: nat)
    requires h + 9 <= q <= c <= |s| && At(s, h, UsersPrefix(d)) && '\\' !in s[h + 9..q]
    requires HasBackslash(s, x, c) && x <= h + 9
    ensures HasBackslash(PathHit(d, s, h, q), x, c - q + h + 19)
  {
    var hit := PathHit(d, s, h, q);
    HitParts(d, s, h, q);
    hide UsersPrefix, PathHit;
    assert forall i :: h + 9 <= i < q ==> s[i] == s[h + 9..q][i - h - 9] && s[i] != '\\';
    var b :| x <= b < c && 0 <= b < |s| && s[b] == '\\';
    if b < h + 9 {
      assert hit[b] == hit[..h + 9][b] == s[..h + 9][b] == s[b];
    } else {
      assert hit[b - q + h + 19] == hit[h + 19..][b - q] == s[q..][b - q] == s[b];
    }
  }

  lemma BackslashShifted(d: Drive, s: string, h: nat, q: nat, x: int, c: nat)
    requires h + 9 <= q <= c <= |s| && At(s, h, UsersPrefix(d))
    requires HasBackslash(s, x, c) && q <= x
    ensures HasBackslash(PathHit(d, s, h, q), x - q + h + 19, c - q + h + 19)
  {
    var hit := PathHit(d, s, h, q);
    HitParts(d, s, h, q);
    hide UsersPrefix, PathHit;
    var b :| x <= b < c && 0 <= b < |s| && s[b] == '\\';
    assert hit[b - q + h + 19] == hit[h + 19..][b - q] == s[q..][b - q] == s[b];
  }

  lemma SeparatedKept(d: Drive, s: string, h: nat, q: nat, c: nat)
    requires h + 9 <= q <= c <= |s| && At(s, h, UsersPrefix(d)) && '\\' !in s[h + 9..q]
    requires Separated(d, s, c)
    ensures Separated(d, PathHit(d, s, h, q), c - q + h + 19)
  {
    var p, hit := UsersPrefix(d), PathHit(d, s, h, q);
    var c' := c - q + h + 19;
    HitParts(d, s, h, q);
    hide UsersPrefix, PathHit, HasBackslash;
    forall e | e < c' && At(hit, e, p) ensures HasBackslash(hit, e + 9, c') {
      if e <= h {
        AtCommon(s, hit, h + 9, e, p);
        BackslashMoved(d, s, h, q, e + 9, c);
      } else if e < h + 19 {
        NotInsideHit(d, hit, h, e);
      } else {
        AtSuffix(hit, h + 19, s, q, e - h - 19, p);
        BackslashShifted(d, s, h, q, e - h - 19 + q + 9, c);
      }
    }
  }

  // ----- one round on the whole text

  /** What a round finds: `X:\Users\u` at start, then z. */
  ghost predicate Found(d: Drive, s: string, start: int, u: string, z: string) {
    && 0 <= start <= |s| && s[start..] == UsersPrefix(d) + u + z
    && '\\' !in u && (z == [] || z[0] == '\\')
  }

  /** What the round leaves: the first occurrence of `X:\Users\u` rewritten. */
  function Replaced(d: Drive, s: string, u: string): string {
    ReplaceFirst(s, UsersPrefix(d) + u, UsersPrefix(d) + REDACTED)
  }

  lemma FoundAt(d: Drive, s: string, start: int, u: string, z: string)
    requires Found(d, s, start, u, z)
    ensures At(s, start, UsersPrefix(d) + u) && At(s, start, UsersPrefix(d)) && |s| == start + 9 + |u| + |z|
    ensures s[start + 9 + |u|..] == z
    ensures s[start] == d && '\\' !in u
  {
    assert s[start..] == (UsersPrefix(d) + u) + z;
    AtLonger(s, start, UsersPrefix(d), u);
    assert s[start..][9 + |u|..] == z;
    assert s[start] == s[start..][0];
  }

  /** The hit of a round: at or before the place found, its name u, no backslash in it. */
  lemma RoundHits(d: Drive, s: string, start: int, u: string, z: string) returns (h: nat)
    requires Found(d, s, start, u, z)
    ensures h == Find(s, UsersPrefix(d) + u) <= start
    ensures forall i :: At(s, i, UsersPrefix(d) + u) ==> h <= i
    ensures At(s, h, UsersPrefix(d) + u) && At(s, h, UsersPrefix(d)) && h + 9 + |u| <= |s|
    ensures s[h + 9..h + 9 + |u|] == u
    ensures Replaced(d, s, u) == PathHit(d, s, h, h + 9 + |u|)
  {
    FoundAt(d, s, start, u, z);
    h := Find(s, UsersPrefix(d) + u);
    hide *;
    AtLonger(s, h, UsersPrefix(d), u);
    ReplacedIsHit(d, s, u, h);
    TakeDropped(s, h + 9, |u|);
  }

  lemma ReplacedIsHit(d: Drive, s: string, u: string, h: nat)
    requires h == Find(s, UsersPrefix(d) + u) && h + 9 + |u| <= |s|
    ensures Replaced(d, s, u) == PathHit(d, s, h, h + 9 + |u|)
  {
    hide Find, UsersPrefix;
  }

  /** Up to the offset, every user path is redacted, name ended by a backslash. */
  ghost predicate Settled(d: Drive, s: string, offset: int) {
    forall i :: i < offset && At(s, i, UsersPrefix(d)) ==> i + 19 <= offset && At(s, i + 9, REDACTED + "\\")
  }

  lemma MarkedAt(s: string, i: int)
    requires At(s, i, REDACTED + "\\")
    ensures i + 11 <= |s| && s[i + 10] == '\\' && At(s, i, REDACTED) && s[i..][..11] == REDACTED + "\\"
  {
    assert s[i + 10] == s[i..][10] == (REDACTED + "\\")[10];
    AtLonger(s, i, REDACTED, "\\");
  }

  lemma SettledSeparated(d: Drive, s: string, offset: int, start: int)
    requires Settled(d, s, offset) && offset <= start <= |s| && At(s, start, UsersPrefix(d))
    requires forall i :: offset <= i && At(s, i, UsersPrefix(d)) ==> i >= start
    ensures forall i :: i < start && At(s, i, UsersPrefix(d)) ==> i + 20 <= start && s[i + 19] == '\\'
    ensures Separated(d, s, start)
  {
    PrefixChars(d, s[start..]);
    assert s[start] == s[start..][0] == d;
    hide UsersPrefix, At;
    forall i | i < start && At(s, i, UsersPrefix(d))
      ensures i + 20 <= start && 0 <= i + 19 < |s| && s[i + 19] == '\\'
      ensures HasBackslash(s, i + 9, start)
    {
      MarkedAt(s, i + 9);
      AtInside(s, i, UsersPrefix(d));
    }
  }

  /** A prefix without backslash of text that begins with `<redacted>\` is a prefix of `<redacted>`. */
  lemma NameInMark(t: string, u: string)
    requires u <= t && REDACTED + "\\" <= t && '\\' !in u
    ensures u <= REDACTED
  {
    assert t[10] == (REDACTED + "\\")[10] == '\\';
    assert forall i :: 0 <= i < |u| ==> u[i] == t[i] && u[i] != '\\';
    assert REDACTED == t[..10];
    assert u == t[..|u|];
  }

  /** A round whose name is not a proper prefix of the mark rewrites the place it found. */
  lemma GoodRound(d: Drive, s: string, offset: int, start: int, u: string, z: string)
    requires Found(d, s, start, u, z) && Settled(d, s, offset) && 0 <= offset <= start
    requires forall i :: offset <= i && At(s, i, UsersPrefix(d)) ==> i >= start
    requires !(u < REDACTED) || forall i :: i < start ==> !At(s, i, UsersPrefix(d))
    ensures Replaced(d, s, u) == s[..start] + (UsersPrefix(d) + REDACTED) + z
  {
    var h := RoundHits(d, s, start, u, z);
    if h < start {
      EarlierNameIsMark(d, s, offset, start, u, h);
      WholeNameReplaced(d, s, start, z);
    } else {
      PathHitHere(d, s, start, u, z);
    }
    hide *;
  }

  lemma PathHitHere(d: Drive, s: string, start: int, u: string, z: string)
    requires Found(d, s, start, u, z)
    ensures 0 <= start && start + 9 + |u| <= |s|
    ensures PathHit(d, s, start, start + 9 + |u|) == s[..start] + (UsersPrefix(d) + REDACTED) + z
  {
    FoundAt(d, s, start, u, z);
    hide UsersPrefix, At;
  }

  lemma EarlierNameIsMark(d: Drive, s: string, offset: int, start: int, u: string, h: nat)
    requires Settled(d, s, offset) && h < start && '\\' !in u && At(s, h, UsersPrefix(d) + u)
    requires forall i :: offset <= i && At(s, i, UsersPrefix(d)) ==> i >= start
    requires !(u < REDACTED) || forall i :: i < start ==> !At(s, i, UsersPrefix(d))
    ensures u == REDACTED
  {
    hide UsersPrefix;
    AtLonger(s, h, UsersPrefix(d), u);
    AtInside(s, h, UsersPrefix(d) + u);
    assert u <= s[h + 9..];
    NameInMark(s[h + 9..], u);
  }

  lemma WholeNameReplaced(d: Drive, s: string, start: int, z: string)
    requires 0 <= start <= |s| && s[start..] == UsersPrefix(d) + REDACTED + z
    ensures Replaced(d, s, REDACTED) == s == s[..start] + (UsersPrefix(d) + REDACTED) + z
  {
    ReplaceSame(s, UsersPrefix(d) + REDACTED);
    assert s == s[..start] + s[start..];
  }

  lemma GoodRoundSettled(d: Drive, s: string, offset: int, start: int, u: string, z: string)
    requires Found(d, s, start, u, z) && Settled(d, s, offset) && 0 <= offset <= start && z != []
    requires forall i :: offset <= i && At(s, i, UsersPrefix(d)) ==> i >= start
    ensures Settled(d, s[..start] + (UsersPrefix(d) + REDACTED) + z, start + 19)
  {
    var p := UsersPrefix(d);
    var hit := PathHit(d, s, start, start + 9 + |u|);
    FoundAt(d, s, start, u, z);
    SettledSeparated(d, s, offset, start);
    HitParts(d, s, start, start + 9 + |u|);
    assert hit == s[..start] + (p + REDACTED) + z;
    hide UsersPrefix, PathHit;
    forall i | i < start + 19 && At(hit, i, p) ensures i + 19 <= start + 19 && At(hit, i + 9, REDACTED + "\\") {
      if i < start {
        AtCommon(s, hit, start + 9, i, p);
        AtCommon(s, hit, start, i + 9, REDACTED + "\\");
      } else if i == start {
        MarkThenTail(s[..start], p, z);
      } else {
        NotInsideHit(d, hit, start, i);
      }
    }
  }

  lemma MarkThenTail(a: string, p: string, z: string)
    requires z != [] && z[0] == '\\'
    ensures At(a + (p + REDACTED) + z, |a| + |p|, REDACTED + "\\")
  {
    var hit := a + (p + REDACTED) + z;
    assert z == "\\" + z[1..];
    assert hit[|a| + |p|..] == (REDACTED + "\\") + z[1..];
  }

  // ----- rounds once a wrong place was hit

  /** The first path is redacted (and maybe more), and `X:\Users\v` with v a proper prefix
      of the mark is left behind at c, before the offset. */
  ghost predicate Stuck(d: Drive, s: string, offset: int, f: int, c: int, v: string) {
    && v < REDACTED && FirstPlace(d, s, f) && f + 19 <= c
    && At(s, c, UsersPrefix(d) + v + "\\") && c + 9 + |v| <= offset <= |s|
    && Separated(d, s, c)
  }

  lemma PlaceMoved(d: Drive, s: string, c: nat, u: string, h: nat)
    requires At(s, h, UsersPrefix(d)) && h + 9 + |u| <= c <= |s| && s[h + 9..h + 9 + |u|] == u && '\\' !in u
    ensures c + 10 - |u| <= |PathHit(d, s, h, h + 9 + |u|)|
    ensures Place(PathHit(d, s, h, h + 9 + |u|)[..c + 10 - |u|]) == Place(s[..c])
  {
    var p, q := UsersPrefix(d), h + 9 + |u|;
    PlaceKept(d, s[..h], u, s[q..c]);
    hide UsersPrefix, Place;
    assert s[..c] == s[..h] + (p + (u + s[q..c])) by {
      assert s[h..][..9] == p;
      assert s[..c] == s[..h] + (s[h..h + 9] + (s[h + 9..q] + s[q..c]));
    }
    assert PathHit(d, s, h, q)[..c + 10 - |u|] == s[..h] + (p + (REDACTED + s[q..c]));
  }

  lemma NameEnds(s: string, x: nat, u: string, c: int)
    requires HasBackslash(s, x, c) && x + |u| <= |s| && s[x..x + |u|] == u && '\\' !in u
    ensures x + |u| <= c
  {
    assert forall i :: x <= i < x + |u| ==> s[i] == u[i - x];
  }

  /** A round that hits before c moves the text from c on, and changes nothing in it. */
  lemma HitBefore(d: Drive, s: string, f: int, c: nat, u: string, h: nat)
    requires FirstPlace(d, s, f) && f + 19 <= c <= |s| && Separated(d, s, c)
    requires h < c && At(s, h, UsersPrefix(d)) && h + 9 + |u| <= |s| && s[h + 9..h + 9 + |u|] == u && '\\' !in u
    ensures var hit := PathHit(d, s, h, h + 9 + |u|);
            var c' := c + 10 - |u|;
            FirstPlace(d, hit, f) && f + 19 <= c' <= |hit| && Separated(d, hit, c') && hit[c'..] == s[c..]
            && h + 9 + |u| <= c
  {
    var q := h + 9 + |u|;
    var hit := PathHit(d, s, h, q);
    assert HasBackslash(s, h + 9, c);
    hide UsersPrefix, PathHit, HasBackslash, At, FirstPlace, Separated;
    NameEnds(s, h + 9, u, c);
    FirstPlaceKept(d, s, f, h, q);
    SeparatedKept(d, s, h, q, c);
    TailKept(d, s, h, q, c);
  }

  lemma TailKept(d: Drive, s: string, h: nat, q: nat, c: nat)
    requires h + 9 <= q <= c <= |s| && At(s, h, UsersPrefix(d))
    ensures c - q + h + 19 <= |PathHit(d, s, h, q)| && PathHit(d, s, h, q)[c - q + h + 19..] == s[c..]
  {
    HitParts(d, s, h, q);
    hide UsersPrefix, PathHit;
    DropTwice(s, q, c - q);
    DropTwice(PathHit(d, s, h, q), h + 19, c - q);
  }

  /** A name that is a proper prefix of the mark goes to the first path instead of its own place. */
  lemma BadRound(d: Drive, s: string, offset: int, f: int, start: int, u: string, z: string)
    requires Found(d, s, start, u, z) && Settled(d, s, offset) && 0 <= offset <= start
    requires forall i :: offset <= i && At(s, i, UsersPrefix(d)) ==> i >= start
    requires FirstPlace(d, s, f) && f + 19 <= offset && u < REDACTED
    ensures var hit, c := Replaced(d, s, u), start + 10 - |u|;
            0 <= c && FirstPlace(d, hit, f) && f + 19 <= c <= |hit| && Separated(d, hit, c)
            && hit[c..] == UsersPrefix(d) + u + z && Place(hit[..c]) == Place(s[..start])
  {
    FoundAt(d, s, start, u, z);
    SettledSeparated(d, s, offset, start);
    var h := RoundHits(d, s, start, u, z);
    MarkPrefixAt(d, s, f, u);
    HitBefore(d, s, f, start, u, h);
    PlaceMoved(d, s, start, u, h);
  }

  lemma MarkPrefixAt(d: Drive, s: string, f: int, u: string)
    requires At(s, f, UsersPrefix(d) + REDACTED) && u <= REDACTED
    ensures At(s, f, UsersPrefix(d) + u)
  {
    assert UsersPrefix(d) + REDACTED == (UsersPrefix(d) + u) + REDACTED[|u|..];
    AtLonger(s, f, UsersPrefix(d) + u, REDACTED[|u|..]);
  }

  /** Text that still shows `X:\Users\v` breaks the promise. */
  lemma LeftBehind(d: Drive, s: string, c: int, v: string, z: string)
    requires 0 <= c <= |s| && s[c..] == UsersPrefix(d) + v + z && v < REDACTED && (z == [] || z[0] == '\\')
    ensures !UserGuarded(d, s)
  {
    assert At(s, c, UsersPrefix(d));
    assert s[c..][9..] == v + z;
    DropTwice(s, c, 9);
    PrefixIndex(v + z, REDACTED, |v|);
    assert z != [] ==> (v + z)[|v|] == '\\' != REDACTED[|v|];
  }

  /** Where the leftover lies, the rewrite has the mark. */
  ghost predicate PartsAt(d: Drive, s: string, r: string, c: int) {
    0 <= c <= |r| && Pinned(d, Split(Rewrite(UserName(d), s)), Place(r[..c]), REDACTED)
  }

  lemma PartsMoved(d: Drive, s: string, r: string, c: int, r': string, c': int)
    requires PartsAt(d, s, r, c) && 0 <= c' <= |r'| && 0 <= c <= |r| && Place(r'[..c']) == Place(r[..c])
    ensures PartsAt(d, s, r', c')
  {
  }

  lemma ShortName(v: string)
    requires v < REDACTED
    ensures '\\' !in v && v != REDACTED
  {
    assert forall i :: 0 <= i < |v| ==> v[i] == REDACTED[i];
  }

  lemma LeftParts(d: Drive, s: string, r: string, c: int, v: string, z: string)
    requires PartsAt(d, s, r, c) && r[c..] == UsersPrefix(d) + v + z && v < REDACTED && (z == [] || z[0] == '\\')
    ensures Parted(d, r, Rewrite(UserName(d), s))
  {
    ShortName(v);
    hide UsersPrefix, Pinned, Split, Rewrite, Parted, Place;
    NameParts(d, r, Rewrite(UserName(d), s), c, v, z);
  }

  lemma LeftoverText(r: string, c: int, w: string) returns (z: string)
    requires At(r, c, w + "\\")
    ensures 0 <= c <= |r| && r[c..] == w + z && z != [] && z[0] == '\\'
  {
    z := "\\" + r[c..][|w| + 1..];
    HeadTail(r[c..], w + "\\");
    Associate(w, "\\", r[c..][|w| + 1..]);
  }

  lemma StuckBreaks(d: Drive, s: string, r: string, offset: int, f: int, c: int, v: string)
    requires Stuck(d, r, offset, f, c, v) && PartsAt(d, s, r, c)
    ensures !UserGuarded(d, r) && Parted(d, r, Rewrite(UserName(d), s))
  {
    hide UsersPrefix, UserGuarded, Parted, Rewrite, PartsAt, At;
    var z := LeftoverText(r, c, UsersPrefix(d) + v);
    LeftBehind(d, r, c, v, z);
    LeftParts(d, s, r, c, v, z);
  }

  lemma NotInsideLeftover(d: Drive, s: string, c: int, v: string, h: int)
    requires v < REDACTED && At(s, c, UsersPrefix(d) + v + "\\") && c < h < c + 10 + |v|
    ensures !At(s, h, UsersPrefix(d))
  {
    var m, w := UsersPrefix(d) + REDACTED, UsersPrefix(d) + v + "\\";
    assert m == Mark(UserName(d));
    MarkChars(UserName(d), h - c);
    PrefixChars(d, s[h..]);
    assert forall i :: 0 <= i < 9 + |v| ==> w[i] == m[i];
    assert forall i :: 0 <= i < 10 + |v| ==> s[c + i] == s[c..][i] == w[i];
    hide UsersPrefix, Mark;
    assert s[h..] != [] ==> s[h..][0] == s[h] == w[h - c];
    assert |s[h..]| >= 2 ==> s[h..][1] == s[h + 1];
    assert h + 1 < c + 10 + |v| ==> s[h + 1] == w[h + 1 - c];
  }

  lemma ShorterName(t: string, u: string, v: string)
    requires u <= t && v + "\\" <= t && '\\' !in u
    ensures u <= v
  {
    assert t[|v|] == t[..|v| + 1][|v|] == '\\';
    assert forall i :: 0 <= i < |u| ==> u[i] == t[i] && u[i] != '\\';
    assert t[..|v|] == t[..|v| + 1][..|v|] == v;
  }

  /** The leftover name is never hit: the first path would be hit before it. */
  lemma LeftoverNotHit(d: Drive, s: string, f: int, c: int, v: string, u: string)
    requires v < REDACTED && At(s, f, UsersPrefix(d) + REDACTED)
    requires At(s, c, UsersPrefix(d) + v + "\\") && At(s, c, UsersPrefix(d) + u) && '\\' !in u
    ensures At(s, f, UsersPrefix(d) + u)
  {
    var t := s[c..];
    hide UsersPrefix;
    assert t[9..][..|u|] == t[..9 + |u|][9..] == u;
    assert t[9..][..|v| + 1] == t[..10 + |v|][9..] == v + "\\";
    ShorterName(t[9..], u, v);
    MarkPrefixAt(d, s, f, u);
  }

  lemma StuckHitAfter(d: Drive, s: string, offset: int, f: int, c: int, v: string, h: nat, q: nat, offset': int)
    requires Stuck(d, s, offset, f, c, v) && c + 10 + |v| <= h && h + 9 <= q <= |s| && At(s, h, UsersPrefix(d))
    requires offset <= offset' <= |PathHit(d, s, h, q)|
    ensures Stuck(d, PathHit(d, s, h, q), offset', f, c, v) && PathHit(d, s, h, q)[..c] == s[..c]
  {
    var hit := PathHit(d, s, h, q);
    HitParts(d, s, h, q);
    FirstPlaceKept(d, s, f, h, q);
    AtCommon(s, hit, h, c, UsersPrefix(d) + v + "\\");
    hide UsersPrefix, PathHit;
    forall e | e < c && At(hit, e, UsersPrefix(d)) ensures HasBackslash(hit, e + 9, c) {
      AtCommon(s, hit, h, e, UsersPrefix(d));
      var b :| e + 9 <= b < c && 0 <= b < |s| && s[b] == '\\';
      assert hit[b] == hit[..h][b] == s[..h][b];
    }
  }

  lemma StuckHitBefore(d: Drive, s: string, offset: int, f: int, c: int, v: string, h: nat, u: string, offset': int)
    requires Stuck(d, s, offset, f, c, v) && h < c && At(s, h, UsersPrefix(d))
    requires h + 9 + |u| <= |s| && s[h + 9..h + 9 + |u|] == u && '\\' !in u
    requires offset + 10 - |u| <= offset' <= |PathHit(d, s, h, h + 9 + |u|)|
    ensures Stuck(d, PathHit(d, s, h, h + 9 + |u|), offset', f, c + 10 - |u|, v)
    ensures Place(PathHit(d, s, h, h + 9 + |u|)[..c + 10 - |u|]) == Place(s[..c])
  {
    HitBefore(d, s, f, c, u, h);
    PlaceMoved(d, s, c, u, h);
    hide UsersPrefix, PathHit, Place, HasBackslash, Separated;
    AtSuffix(s, c, PathHit(d, s, h, h + 9 + |u|), c + 10 - |u|, 0, UsersPrefix(d) + v + "\\");
  }

  lemma StuckHitAt(d: Drive, s: string, offset: int, f: int, c: int, v: string, h: nat, u: string)
    requires Stuck(d, s, offset, f, c, v) && At(s, h, UsersPrefix(d)) && At(s, h, UsersPrefix(d) + u) && '\\' !in u
    requires forall i :: At(s, i, UsersPrefix(d) + u) ==> h <= i
    ensures h < c || c + 10 + |v| <= h
  {
    hide UsersPrefix, Separated;
    if h == c {
      LeftoverNotHit(d, s, f, c, v, u);
    } else if c < h < c + 10 + |v| {
      NotInsideLeftover(d, s, c, v, h);
    }
  }

  lemma StuckWithin(d: Drive, s: string, offset: int, f: int, c: int, v: string)
    ensures Stuck(d, s, offset, f, c, v) ==> 0 <= c <= |s|
  {
  }

  /** A stuck text stays stuck, wherever the round hits. */
  lemma StuckRound(d: Drive, s: string, offset: int, f: int, c: int, v: string, start: int, u: string, z: string)
    returns (c': int)
    requires Stuck(d, s, offset, f, c, v) && Found(d, s, start, u, z) && offset <= start
    ensures Stuck(d, Replaced(d, s, u), start + 19, f, c', v)
    ensures 0 <= c' <= |Replaced(d, s, u)| && Place(Replaced(d, s, u)[..c']) == Place(s[..c])
  {
    hide *;
    FoundAt(d, s, start, u, z);
    var h := RoundHits(d, s, start, u, z);
    HitParts(d, s, h, h + 9 + |u|);
    StuckHitAt(d, s, offset, f, c, v, h, u);
    if h < c {
      c' := c + 10 - |u|;
      StuckHitBefore(d, s, offset, f, c, v, h, u, start + 19);
    } else {
      c' := c;
      StuckHitAfter(d, s, offset, f, c, v, h, h + 9 + |u|, start + 19);
    }
    StuckWithin(d, Replaced(d, s, u), start + 19, f, c', v);
  }

  // ----- the loop

  /** The loop so far has done what the left-to-right rewrite does. */
  ghost predicate Going(d: Drive, s: string, r: string, offset: int, seen: bool, f: int) {
    && 0 <= offset <= |r|
    && r[..offset] + Rewrite(UserName(d), r[offset..]) == Rewrite(UserName(d), s)
    && Faithful(d, s) == FaithfulFrom(d, r[offset..], seen)
    && Settled(d, r, offset)
    && (if seen then FirstPlace(d, r, f) && f + 19 <= offset
        else forall i :: i < offset ==> !At(r, i, UsersPrefix(d)))
  }

  /** No user path begins between the offset and the place found. */
  ghost predicate NoneBetween(d: Drive, r: string, offset: int, start: int) {
    forall i :: offset <= i && At(r, i, UsersPrefix(d)) ==> i >= start
  }

  lemma FoundHere(d: Drive, r: string, offset: nat, rel: nat, n: nat)
    requires offset <= |r| && rel == Find(r[offset..], UsersPrefix(d)) && offset + rel + 9 <= |r|
    requires n == SegLen(r[offset + rel + 9..])
    ensures var start := offset + rel;
            && start + 9 + n <= |r|
            && Found(d, r, start, r[start + 9..start + 9 + n], r[start + 9 + n..])
  {
    var start := offset + rel;
    hide Find, UsersPrefix, SegLen, At;
    AtFound(r, offset, rel, UsersPrefix(d));
    SegmentParts(r, start + 9, n);
    Associate(UsersPrefix(d), r[start + 9..start + 9 + n], r[start + 9 + n..]);
  }

  lemma NoneBefore(d: Drive, r: string, offset: nat, rel: nat)
    requires offset <= |r| && rel == Find(r[offset..], UsersPrefix(d))
    ensures NoneBetween(d, r, offset, offset + rel)
  {
    hide Find, UsersPrefix;
    forall i | offset <= i && At(r, i, UsersPrefix(d)) ensures i >= offset + rel {
      DropTwice(r, offset, i - offset);
      assert At(r[offset..], i - offset, UsersPrefix(d));
    }
  }

  lemma AsNextPath(d: Drive, r: string, offset: nat, start: nat, u: string, z: string)
    requires Found(d, r, start, u, z) && offset <= start && NoneBetween(d, r, offset, start)
    ensures NextPath(d, r[offset..], r[offset..start], u, z)
  {
    var rest := r[offset..];
    assert rest == r[offset..start] + r[start..];
    forall i | At(rest, i, UsersPrefix(d)) ensures i >= |r[offset..start]| {
      DropTwice(r, offset, i);
      assert At(r, offset + i, UsersPrefix(d));
    }
  }

  lemma HitText(d: Drive, r: string, start: int, u: string, z: string)
    requires Found(d, r, start, u, z)
    ensures var hit := r[..start] + (UsersPrefix(d) + REDACTED) + z;
            && start + 9 + |u| <= |r| && hit == PathHit(d, r, start, start + 9 + |u|)
            && start + 19 <= |hit| && hit[..start + 19] == r[..start] + (UsersPrefix(d) + REDACTED)
            && hit[start + 19..] == z
  {
    FoundAt(d, r, start, u, z);
    HitParts(d, r, start, start + 9 + |u|);
    var hit := r[..start] + (UsersPrefix(d) + REDACTED) + z;
    assert hit == PathHit(d, r, start, start + 9 + |u|);
    hide *;
    TakeWhole(r[..start] + (UsersPrefix(d) + REDACTED), z);
  }

  /** Where the first path of the text is after a faithful round. */
  lemma GoodFirst(d: Drive, r: string, offset: int, seen: bool, f: int, start: int, u: string, z: string)
    requires Found(d, r, start, u, z) && offset <= start && NoneBetween(d, r, offset, start)
    requires if seen then FirstPlace(d, r, f) else forall i :: i < offset ==> !At(r, i, UsersPrefix(d))
    ensures FirstPlace(d, r[..start] + (UsersPrefix(d) + REDACTED) + z, if seen then f else start)
    ensures seen ==> f <= start
  {
    var p, q := UsersPrefix(d), start + 9 + |u|;
    HitText(d, r, start, u, z);
    FoundAt(d, r, start, u, z);
    HitParts(d, r, start, q);
    var hit := PathHit(d, r, start, q);
    hide UsersPrefix, PathHit, Found;
    if seen {
      FirstPlaceKept(d, r, f, start, q);
    } else {
      forall e | e < start ensures !At(hit, e, p) {
        AtCommon(r, hit, start + 9, e, p);
      }
    }
  }

  lemma GoodHit(d: Drive, s: string, r: string, offset: int, seen: bool, f: int, start: int, u: string, z: string)
    requires Going(d, s, r, offset, seen, f) && Found(d, r, start, u, z) && offset <= start
    requires NoneBetween(d, r, offset, start) && !(seen && u < REDACTED)
    ensures Replaced(d, r, u) == r[..start] + (UsersPrefix(d) + REDACTED) + z
    ensures FirstPlace(d, Replaced(d, r, u), if seen then f else start) && (seen ==> f <= start)
  {
    hide UsersPrefix, Rewrite, FaithfulFrom, FirstPlace, Found, Settled, Replaced;
    GoodFirst(d, r, offset, seen, f, start, u, z);
    GoodRound(d, r, offset, start, u, z);
  }

  lemma GoodRewrite(d: Drive, s: string, r: string, offset: int, start: int, u: string, z: string)
    requires 0 <= offset <= start && Found(d, r, start, u, z) && NoneBetween(d, r, offset, start)
    requires r[..offset] + Rewrite(UserName(d), r[offset..]) == Rewrite(UserName(d), s)
    ensures r[..start] + (UsersPrefix(d) + REDACTED) + Rewrite(UserName(d), z) == Rewrite(UserName(d), s)
  {
    AsNextPath(d, r, offset, start, u, z);
    RewriteRound(d, r[offset..], r[offset..start], u, z);
    hide *;
    Associate(r[offset..start], UsersPrefix(d), REDACTED);
    TakeOffset(r, offset, start, UsersPrefix(d) + REDACTED, Rewrite(UserName(d), z));
  }

  lemma RoundFaithful(d: Drive, r: string, offset: int, seen: bool, start: int, u: string, z: string)
    requires 0 <= offset <= start && Found(d, r, start, u, z) && NoneBetween(d, r, offset, start)
    ensures FaithfulFrom(d, r[offset..], seen) == ((seen ==> !(u < REDACTED)) && FaithfulFrom(d, z, true))
  {
    AsNextPath(d, r, offset, start, u, z);
    FaithfulRound(d, r[offset..], r[offset..start], u, z, seen);
  }

  lemma GoodStep(d: Drive, s: string, r: string, offset: int, seen: bool, f: int, start: int, u: string, z: string)
    requires Going(d, s, r, offset, seen, f) && Found(d, r, start, u, z) && offset <= start
    requires NoneBetween(d, r, offset, start) && !(seen && u < REDACTED)
    ensures z != [] ==> Going(d, s, Replaced(d, r, u), start + 19, true, if seen then f else start)
    ensures z == [] ==> Faithful(d, s) && Replaced(d, r, u) == Rewrite(UserName(d), s)
  {
    GoodHit(d, s, r, offset, seen, f, start, u, z);
    HitText(d, r, start, u, z);
    RoundFaithful(d, r, offset, seen, start, u, z);
    hide UsersPrefix, Rewrite, Replaced, NextPath, Found, Settled, FirstPlace, At, NoneBetween, PathHit;
    GoodRewrite(d, s, r, offset, start, u, z);
    if z == [] {
      EmptyKept(UserName(d));
      assert FaithfulFrom(d, z, true);
    } else {
      GoodRoundSettled(d, r, offset, start, u, z);
    }
  }

  lemma BadPlace(d: Drive, s: string, r: string, offset: int, start: int, u: string, z: string)
    requires 0 <= offset <= start && Found(d, r, start, u, z) && NoneBetween(d, r, offset, start)
    requires r[..offset] + Rewrite(UserName(d), r[offset..]) == Rewrite(UserName(d), s)
    ensures PartsAt(d, s, r, start)
  {
    FoundTail(d, r, start, u, z);
    FoundAt(d, r, start, u, z);
    hide Found, NoneBetween, Rewrite, UsersPrefix, Pinned, Split, Place;
    GoodRewrite(d, s, r, offset, start, u, z);
    MarkPinned(d, r[..start], z);
    TakeWhole(r[..start], r[start..]);
  }

  lemma MarkPinned(d: Drive, a: string, z: string)
    requires z == [] || z[0] == '\\'
    ensures Pinned(d, Split(a + (UsersPrefix(d) + REDACTED) + Rewrite(UserName(d), z)), Place(a), REDACTED)
  {
    var rest := Rewrite(UserName(d), z);
    if z == [] { EmptyKept(UserName(d)); } else { SeparatorKept(UserName(d), z); }
    hide *;
    NamePinned(d, a, REDACTED, rest);
    Associate(UsersPrefix(d), REDACTED, rest);
    Associate(a, UsersPrefix(d) + REDACTED, rest);
  }

  lemma BadStep(d: Drive, s: string, r: string, offset: int, f: int, start: int, u: string, z: string)
    requires Going(d, s, r, offset, true, f) && Found(d, r, start, u, z) && offset <= start
    requires NoneBetween(d, r, offset, start) && u < REDACTED
    ensures !Faithful(d, s)
    ensures z != [] ==> Stuck(d, Replaced(d, r, u), start + 19, f, start + 10 - |u|, u)
    ensures z == [] ==> !UserGuarded(d, Replaced(d, r, u))
  {
    RoundFaithful(d, r, offset, true, start, u, z);
    hide UsersPrefix, Rewrite, Replaced, Found, FaithfulFrom, Separated, FirstPlace, UserGuarded, Settled, NoneBetween,
      Place;
    BadRound(d, r, offset, f, start, u, z);
    RoundFits(d, r, start, u, z);
    FoundAt(d, r, start, u, z);
    if z == [] {
      LeftBehind(d, Replaced(d, r, u), start + 10 - |u|, u, z);
    } else {
      FoundTail(d, r, start, u, z);
      LeftoverAt(Replaced(d, r, u), start + 10 - |u|, UsersPrefix(d) + u, z);
    }
  }

  /** It also parts the text from the rewrite. */
  lemma BadParts(d: Drive, s: string, r: string, offset: int, f: int, start: int, u: string, z: string)
    requires Going(d, s, r, offset, true, f) && Found(d, r, start, u, z) && offset <= start
    requires NoneBetween(d, r, offset, start) && u < REDACTED
    ensures PartsAt(d, s, Replaced(d, r, u), start + 10 - |u|)
    ensures z == [] ==> Parted(d, Replaced(d, r, u), Rewrite(UserName(d), s))
  {
    BadPlace(d, s, r, offset, start, u, z);
    hide UsersPrefix, Rewrite, Replaced, Found, Faithful, Settled, NoneBetween, PartsAt, Parted, FirstPlace;
    PartsRound(d, s, r, offset, f, start, u, z);
  }

  lemma PartsRound(d: Drive, s: string, r: string, offset: int, f: int, start: int, u: string, z: string)
    requires Found(d, r, start, u, z) && Settled(d, r, offset) && 0 <= offset <= start
    requires NoneBetween(d, r, offset, start)
    requires FirstPlace(d, r, f) && f + 19 <= offset && u < REDACTED && PartsAt(d, s, r, start)
    ensures PartsAt(d, s, Replaced(d, r, u), start + 10 - |u|)
    ensures z == [] ==> Parted(d, Replaced(d, r, u), Rewrite(UserName(d), s))
  {
    hide UsersPrefix, Replaced, Found, FirstPlace, Settled, Separated, PartsAt, Parted, Place, Rewrite, At;
    BadRound(d, r, offset, f, start, u, z);
    FoundAt(d, r, start, u, z);
    PartsMoved(d, s, r, start, Replaced(d, r, u), start + 10 - |u|);
    if z == [] { LeftParts(d, s, Replaced(d, r, u), start + 10 - |u|, u, z); }
  }

  lemma FoundTail(d: Drive, r: string, start: int, u: string, z: string)
    ensures Found(d, r, start, u, z) && z != [] ==> z[0] == '\\'
  {
  }

  lemma LeftoverAt(s: string, c: nat, w: string, z: string)
    requires c <= |s| && s[c..] == w + z && z != [] && z[0] == '\\'
    ensures At(s, c, w + "\\")
  {
    assert s[c..] == (w + "\\") + z[1..];
  }

  /** Where the loop stands: on the plain rewrite's way, or derailed for good. */
  datatype Progress = Straight(seen: bool, first: int) | Derailed(first: int, left: int, name: string)

  ghost predicate Inv(d: Drive, s: string, r: string, offset: int, g: Progress) {
    match g
    case Straight(seen, f) => Going(d, s, r, offset, seen, f)
    case Derailed(f, c, v) => !Faithful(d, s) && Stuck(d, r, offset, f, c, v) && PartsAt(d, s, r, c)
  }

  ghost predicate Outcome(d: Drive, s: string, r: string) {
    && (Faithful(d, s) <==> UserGuarded(d, r))
    && (Faithful(d, s) <==> r == Rewrite(UserName(d), s))
    && (Faithful(d, s) <==> !Parted(d, r, Rewrite(UserName(d), s)))
  }

  lemma Starts(d: Drive, s: string)
    ensures Inv(d, s, s, 0, Straight(false, 0))
  {
    DropNone(s);
    hide Rewrite, FaithfulFrom;
    assert s[..0] + Rewrite(UserName(d), s) == Rewrite(UserName(d), s);
  }

  lemma OutcomeIs(d: Drive, s: string, r: string)
    requires if Faithful(d, s) then r == Rewrite(UserName(d), s)
             else !UserGuarded(d, r) && Parted(d, r, Rewrite(UserName(d), s))
    ensures Outcome(d, s, r)
  {
    UserEstablished(d, s);
    PartedDiffer(d, r, Rewrite(UserName(d), s));
    hide Parted, UserGuarded, Faithful, Rewrite;
  }

  lemma Ends(d: Drive, s: string, r: string, offset: int, g: Progress)
    requires Inv(d, s, r, offset, g) && 0 <= offset <= |r| && Find(r[offset..], UsersPrefix(d)) < 0
    ensures Outcome(d, s, r)
  {
    hide UserGuarded, Outcome, Rewrite, FaithfulFrom, Settled, FirstPlace, Faithful, Separated;
    match g {
      case Straight(seen, f) =>
        RewriteRest(d, r[offset..]);
        FaithfulRest(d, r[offset..], seen);
        assert r == r[..offset] + r[offset..];
      case Derailed(f, c, v) =>
        StuckBreaks(d, s, r, offset, f, c, v);
    }
    OutcomeIs(d, s, r);
  }

  lemma Advance(d: Drive, s: string, r: string, offset: int, g: Progress, start: int, u: string, z: string)
    returns (g': Progress)
    requires Inv(d, s, r, offset, g) && Found(d, r, start, u, z) && offset <= start
    requires NoneBetween(d, r, offset, start)
    ensures z != [] ==> Inv(d, s, Replaced(d, r, u), start + 19, g')
    ensures z == [] ==> Outcome(d, s, Replaced(d, r, u))
  {
    var hit := Replaced(d, r, u);
    hide Going, Stuck, Faithful, Found, NoneBetween, Outcome, Replaced, UserGuarded, Rewrite;
    match g {
      case Straight(seen, f) =>
        if seen && u < REDACTED {
          BadStep(d, s, r, offset, f, start, u, z);
          BadParts(d, s, r, offset, f, start, u, z);
          g' := Derailed(f, start + 10 - |u|, u);
        } else {
          GoodStep(d, s, r, offset, seen, f, start, u, z);
          g' := Straight(true, if seen then f else start);
        }
      case Derailed(f, c, v) =>
        var c' := StuckRound(d, r, offset, f, c, v, start, u, z);
        g' := Derailed(f, c', v);
        StuckBreaks(d, s, hit, start + 19, f, c', v);
    }
    if z == [] {
      OutcomeIs(d, s, hit);
    }
  }

  /** One drive letter's pass. For every input it stays in bounds and ends; its output keeps
      the promise exactly when the input is faithful, and then it is the plain rewrite. */
  method RedactDrive(s: string, d: Drive) returns (result: string)
    ensures Faithful(d, s) <==> UserGuarded(d, result)
    ensures Faithful(d, s) <==> result == Rewrite(UserName(d), s)
    ensures !Faithful(d, s) ==> Parted(d, result, Rewrite(UserName(d), s))
    ensures result == Looped(UserName(d), [], s)
  {
    var prefix := UsersPrefix(d);
    result := s;
    var searchFrom := 0;
    ghost var g := Straight(false, 0);
    Starts(d, s);
    SearchedFirst(UserName(d), s);
    hide Find, SegLen, Inv, Rewrite, Faithful, UserGuarded, UsersPrefix, ReplaceFirst, Found, NoneBetween, Searched,
      MatchLen, Looped;
    while true
      invariant 0 <= searchFrom <= |result|
      invariant Inv(d, s, result, searchFrom, g) && Searched(UserName(d), result, searchFrom, s)
      decreases |result| - searchFrom
    {
      var rel := Find(result[searchFrom..], prefix);
      if rel < 0 {
        Ends(d, s, result, searchFrom, g);
        NothingFound(d, result, searchFrom, s);
        break;
      }
      var start := searchFrom + rel;
      var userStart := start + |prefix|;
      PathFits(d, result, searchFrom, rel);
      ghost var n := SegLen(result[userStart..]);
      FoundHere(d, result, searchFrom, rel, n);
      NoneBefore(d, result, searchFrom, rel);
      FindSeparator(result[userStart..]);
      ghost var u, z := result[userStart..userStart + n], result[userStart + n..];
      g := Advance(d, s, result, searchFrom, g, start, u, z);
      RoundFits(d, result, start, u, z);
      SearchedNext(d, result, searchFrom, start, u, z, s);
      var end := Find(result[userStart..], "\\");
      if end >= 0 {
        var username := result[userStart..userStart + end];
        result := ReplaceFirst(result, prefix + username, prefix + "<redacted>");
        searchFrom := start + |prefix| + 10;
      } else {
        var username := result[userStart..];
        assert username == u && z == [];
        result := ReplaceFirst(result, prefix + username, prefix + "<redacted>");
        break;
      }
    }
  }

  /** The round as one of the loop of FirstOccurrence. */
  lemma SearchedNext(d: Drive, r: string, offset: nat, start: nat, u: string, z: string, s: string)
    requires Searched(UserName(d), r, offset, s) && Found(d, r, start, u, z) && offset <= start
    requires NoneBetween(d, r, offset, start)
    ensures Searched(UserName(d), Replaced(d, r, u), start + 19, s)
    ensures z == [] ==> Replaced(d, r, u) == Looped(UserName(d), [], s)
  {
    hide MatchLen, Looped, Searched, UsersPrefix, ReplaceFirst, Found, NoneBetween, At, Mark;
    FoundAt(d, r, start, u, z);
    MatchHere(d, r, start, u, z);
    NoMatchBetween(d, r, offset, start);
    UserMark(d);
    var hit := Replaced(d, r, u);
    SearchedRound(UserName(d), r, offset, start, 9 + |u|, hit, s);
    if z == [] { SearchedAll(UserName(d), hit, start + 19, s); }
  }

  lemma UserMark(d: Drive)
    ensures Mark(UserName(d)) == UsersPrefix(d) + REDACTED && |Mark(UserName(d))| == 19
  {
  }

  lemma MatchHere(d: Drive, r: string, start: nat, u: string, z: string)
    requires Found(d, r, start, u, z)
    ensures start + 9 + |u| <= |r| && MatchLen(UserName(d), r[start..]) == 9 + |u|
    ensures r[start..start + 9 + |u|] == UsersPrefix(d) + u
  {
    var q := r[start..];
    TakeWhole(UsersPrefix(d) + u, z);
    assert q[9..] == u + z;
    SegLenIs(q[9..], |u|);
    hide SegLen, UsersPrefix;
  }

  lemma NoMatchBetween(d: Drive, r: string, offset: nat, start: nat)
    requires NoneBetween(d, r, offset, start) && start <= |r|
    ensures forall i :: offset <= i < start ==> MatchLen(UserName(d), r[i..]) == 0
  {
    forall i | offset <= i < start ensures MatchLen(UserName(d), r[i..]) == 0 {
      UserMatchChars(d, r[i..]);
      assert !At(r, i, UsersPrefix(d));
    }
  }

  lemma NothingFound(d: Drive, r: string, offset: nat, s: string)
    requires Searched(UserName(d), r, offset, s) && Find(r[offset..], UsersPrefix(d)) < 0
    ensures r == Looped(UserName(d), [], s)
  {
    hide Find, MatchLen, Looped, UsersPrefix;
    forall i | offset <= i < |r| ensures MatchLen(UserName(d), r[i..]) == 0 {
      DropTwice(r, offset, i - offset);
      UserMatchChars(d, r[i..]);
      FindMeans(r[offset..], UsersPrefix(d));
      assert !At(r[offset..], i - offset, UsersPrefix(d));
    }
    SearchedAll(UserName(d), r, offset, s);
  }

  lemma PathFits(d: Drive, r: string, offset: nat, rel: nat)
    requires offset <= |r| && rel == Find(r[offset..], UsersPrefix(d))
    ensures offset + rel + 9 <= |r|
  {
    hide Find, UsersPrefix;
  }

  /** The round keeps the length of the text behind the new offset: what followed the name. */
  lemma RoundFits(d: Drive, r: string, start: int, u: string, z: string)
    requires Found(d, r, start, u, z)
    ensures |Replaced(d, r, u)| == start + 19 + |z| && |r| == start + 9 + |u| + |z|
  {
    FoundAt(d, r, start, u, z);
    var h := RoundHits(d, r, start, u, z);
    HitParts(d, r, h, h + 9 + |u|);
  }

  // ----- all drive letters, A to Z in this order

  function DriveAt(n: nat): Drive
    requires n < 26
  {
    ('A' as int + n) as char
  }

  /** The plain rewrites of the first n drive letters, one after the other. */
  function UserNames(s: string, n: nat): string
    requires n <= 26
  {
    if n == 0 then s else Rewrite(UserName(DriveAt(n - 1)), UserNames(s, n - 1))
  }

  ghost predicate AllFaithful(s: string, n: nat)
    requires n <= 26
  {
    forall k :: 0 <= k < n ==> Faithful(DriveAt(k), UserNames(s, k))
  }

  lemma {:induction false} DrivesGuarded(s: string, n: nat, k: nat)
    requires k < n <= 26
    ensures UserGuarded(DriveAt(k), UserNames(s, n))
  {
    var d, t := DriveAt(n - 1), UserNames(s, n - 1);
    hide UserGuarded, Rewrite;
    if k == n - 1 {
      UserEstablished(d, t);
    } else {
      DrivesGuarded(s, n - 1, k);
      assert DriveAt(k) != d;
      UserPreserved(UserName(d), DriveAt(k), t);
    }
  }

  lemma AllDrivesGuarded(s: string, d: Drive)
    ensures UserGuarded(d, UserNames(s, 26))
  {
    var k := d as int - 'A' as int;
    assert DriveAt(k) == d;
    hide UserGuarded, Rewrite, UserNames;
    DrivesGuarded(s, 26, k);
  }

  /** What the loops of the first n drive letters come to. */
  function LoopedNames(s: string, n: nat): string
    requires n <= 26
  {
    if n == 0 then s else Looped(UserName(DriveAt(n - 1)), [], LoopedNames(s, n - 1))
  }

  /** A drive whose loop was not the plain rewrite has parted the texts for good. */
  ghost predicate PartedBy(s: string, n: nat, k: nat)
    requires k < n <= 26
  {
    Parted(DriveAt(k), LoopedNames(s, n), UserNames(s, n))
  }

  lemma PartedStays(s: string, n: nat, k: nat)
    requires k < n < 26 && PartedBy(s, n, k)
    ensures PartedBy(s, n + 1, k)
  {
    assert DriveAt(k) != DriveAt(n);
    StayParted(DriveAt(k), DriveAt(n), LoopedNames(s, n), UserNames(s, n));
    hide Parted, Looped, Rewrite;
  }

  lemma OneMoreDrive(s: string, n: nat)
    requires n < 26
    ensures AllFaithful(s, n + 1) <==> AllFaithful(s, n) && Faithful(DriveAt(n), UserNames(s, n))
  {
    hide Faithful, UserNames;
  }

  /** For every input the loops come to the plain rewrites exactly when every drive's loop does. */
  method RedactPathUsername(s: string) returns (result: string)
    ensures result == LoopedNames(s, 26)
    ensures result == UserNames(s, 26) <==> AllFaithful(s, 26)
    ensures AllFaithful(s, 26) ==> forall d: Drive :: UserGuarded(d, result)
  {
    assert AllFaithful(s, 0);
    hide UserGuarded, Rewrite, AllFaithful, Looped, Parted;
    result := s;
    ghost var k := 0;
    for n := 0 to 26
      invariant result == LoopedNames(s, n)
      invariant AllFaithful(s, n) ==> result == UserNames(s, n)
      invariant !AllFaithful(s, n) ==> k < n && PartedBy(s, n, k)
    {
      OneMoreDrive(s, n);
      if AllFaithful(s, n) { k := n; } else { PartedStays(s, n, k); }
      result := RedactDrive(result, DriveAt(n));
    }
    if !AllFaithful(s, 26) { PartedDiffer(DriveAt(k), result, UserNames(s, 26)); }
    forall d: Drive ensures UserGuarded(d, UserNames(s, 26)) {
      AllDrivesGuarded(s, d);
    }
  }
}
