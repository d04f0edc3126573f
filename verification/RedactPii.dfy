/** `redact_pii`: the three passes in order, and what the composed output promises. */
module RedactPii {
  import opened Strings
  import opened Rewriting
  import opened Guarantees
  import opened Ipv6Redaction
  import opened UserNameRedaction
  import opened FirstOccurrence
  import opened UncRedaction
  import opened PlainPromises

  // ----- the composition

  /** The passes as plain rewrites, in the program's order. */
  function Redacted(s: string): string {
    Rewrite(Ipv6, Rewrite(Unc, UserNames(s, 26)))
  }

  /** Each loop meets an input on which it is the plain rewrite. */
  ghost predicate Clean(s: string) {
    AllFaithful(s, 26) && Undisturbed(Unc, [], UserNames(s, 26))
  }

  /** All three promises at once. */
  ghost predicate Protected(s: string) {
    (forall d: Drive :: UserGuarded(d, s)) && UncGuarded(s) && Ipv6Free(s)
  }

  /** Each pass establishes its promise and the later passes keep it. */
  lemma AllPromises(s: string)
    ensures Protected(Redacted(s))
    ensures NamesHidden(Redacted(s)) && PathsHidden(Redacted(s)) && NoStretch(Redacted(s))
  {
    PlainlyProtected(Redacted(s));
    var t1 := UserNames(s, 26);
    var t2 := Rewrite(Unc, t1);
    hide Rewrite, UserGuarded, UncGuarded, Ipv6Free, UserNames, NamesHidden, PathsHidden, NoStretch;
    forall d: Drive ensures UserGuarded(d, Rewrite(Ipv6, t2)) {
      AllDrivesGuarded(s, d);
      UserPreserved(Unc, d, t1);
      UserPreserved(Ipv6, d, t2);
    }
    UncEstablished(t1);
    UncPreserved(t2);
    Ipv6Established(t2);
  }

  /** The promises in plain characters. */
  lemma PlainlyProtected(s: string)
    ensures (forall d: Drive :: UserGuarded(d, s)) <==> NamesHidden(s)
    ensures UncGuarded(s) <==> PathsHidden(s)
    ensures Ipv6Free(s) <==> NoStretch(s)
  {
    NamesHiddenIs(s);
    PathsHiddenIs(s);
    FreeIsNoStretch(s);
    hide *;
  }

  /** What the loops make of a text, one after the other. */
  function Output(s: string): string {
    Rewrite(Ipv6, Looped(Unc, [], LoopedNames(s, 26)))
  }

  /** The address pass, the only one behind the UNC loop, neither keeps less of its promise nor more. */
  lemma UncDecides(s: string)
    ensures var t := LoopedNames(s, 26);
            && (UncGuarded(Output(s)) <==> UncGuarded(Looped(Unc, [], t)))
            && (NoEmptyShare(t) ==> (UncGuarded(Output(s)) <==> NoShortMatch(t)))
            && (Rounds([], t, NotLoose) ==> (UncGuarded(Output(s)) <==> Rounds([], t, Harmless)))
  {
    var t := LoopedNames(s, 26);
    hide Rewrite, Looped, LoopedNames, UncGuarded, Rounds, NoEmptyShare, NoShortMatch;
    AddressesDecideNothing(Looped(Unc, [], t));
    LoopedOutcome(t);
  }

  /** Where the input has no stretch of characters that counts as an address, the address pass has nothing
      to do. */
  lemma WithoutAddresses(s: string)
    requires NoStretch(s)
    ensures Output(s) == Looped(Unc, [], LoopedNames(s, 26))
  {
    var t := LoopedNames(s, 26);
    hide Rewrite, Looped, LoopedNames, NoStretch;
    NamesKeepStretches(s, 26);
    assert [] + t == t;
    LoopKeepsStretches(Unc, [], t);
    AddressesRedacted(Looped(Unc, [], t));
  }

  // ----- user names through the UNC loop

  lemma MarkedBefore(r: string, r': string, h: nat, k: nat)
    requires k <= h < |r| && h < |r'| && r[..h] == r'[..h] && r[h] == '\\' && r'[h] == '\\' && Marked(r[k..])
    ensures Marked(r'[k..])
  {
    MarkedChars(r[k..]);
    assert forall i :: 0 <= i < 10 ==> REDACTED[i] != '\\';
    assert forall i :: 0 <= i < 10 ==> r[k + i] == r[k..][..10][i] == REDACTED[i];
    assert k + 10 <= h;
    assert forall i :: 0 <= i < h ==> r[i] == r[..h][i] == r'[i];
    assert r'[k..][..10] == REDACTED;
    assert k + 10 < |r| && r[k..][10] == r[k + 10] && r'[k..][10] == r'[k + 10];
    MarkedChars(r'[k..]);
  }

  /** No user path ends in the first backslash of a UNC mark: its name would be empty. */
  lemma NoPathIntoMark(d: Drive, r: string, r': string, h: nat, i: nat)
    requires UserGuarded(d, r) && At(r, h, "\\\\") && At(r', h, "\\\\") && r[..h] == r'[..h] && i < h < i + 9
    ensures !At(r', i, UsersPrefix(d))
  {
    PairChars(r, h);
    PairChars(r', h);
    if At(r', i, UsersPrefix(d)) {
      PathEndsAt(d, r', h, i);
      PathBefore(d, r, r', i);
      GuardedName(d, r, i);
    }
  }

  lemma PathEndsAt(d: Drive, r: string, h: nat, i: nat)
    requires At(r, i, UsersPrefix(d)) && i < h < i + 9 && h + 2 <= |r| && r[h] == '\\' && r[h + 1] == '\\'
    ensures h == i + 8
  {
    PrefixPlaces(d, r[i..], h - i);
    assert r[i..][h - i] == r[h] && r[i..][3] == r[i + 3];
  }

  lemma PathBefore(d: Drive, r: string, r': string, i: nat)
    requires At(r', i, UsersPrefix(d)) && i + 8 < |r| && i + 8 < |r'|
    requires r[..i + 8] == r'[..i + 8] && r[i + 8] == r'[i + 8]
    ensures At(r, i, UsersPrefix(d))
  {
    hide UsersPrefix;
    assert forall k :: 0 <= k < i + 8 ==> r[k] == r[..i + 8][k] == r'[k];
    assert r[i..][..9] == r'[i..][..9];
  }

  lemma GuardedName(d: Drive, r: string, i: nat)
    requires UserGuarded(d, r) && At(r, i, UsersPrefix(d))
    ensures i + 9 < |r| && r[i + 9] == '<'
  {
    MarkedChars(r[i + 9..]);
    assert r[i + 9..][0] == r[i + 9];
  }

  lemma PairChars(r: string, h: nat)
    requires At(r, h, "\\\\")
    ensures h + 2 <= |r| && r[h] == '\\' && r[h + 1] == '\\'
  {
    BackslashChars(r[h..]);
  }

  lemma PrefixPlaces(d: Drive, t: string, k: nat)
    requires UsersPrefix(d) <= t && 0 < k < 9
    ensures |t| >= 9 && t[..9] == UsersPrefix(d) && (t[k] == '\\' ==> k == 2 || k == 8) && t[3] == 'U'
  {
    PrefixChars(d, t);
    assert t[k] == UsersPrefix(d)[k];
  }

  /** The text r' is r with a UNC mark at h, where r has two backslashes, and rest behind it. */
  ghost predicate MarkPut(r: string, r': string, h: nat, rest: string) {
    && At(r, h, "\\\\") && At(r', h, "\\\\") && r'[..h] == r[..h] && r'[h..] == Mark(Unc) + rest
    && h + |Mark(Unc)| <= |r'| && r'[h + |Mark(Unc)|..] == rest
  }

  lemma PathInFront(d: Drive, r: string, r': string, h: nat, rest: string, i: nat)
    requires UserGuarded(d, r) && MarkPut(r, r', h, rest) && At(r', i, UsersPrefix(d)) && i + 9 <= h
    ensures Marked(r'[i + 9..])
  {
    PairChars(r, h);
    PairChars(r', h);
    AtCommon(r, r', h, i, UsersPrefix(d));
    MarkedBefore(r, r', h, i + 9);
  }

  lemma NoPathInMark(d: Drive, r: string, r': string, h: nat, rest: string, i: nat)
    requires MarkPut(r, r', h, rest) && h <= i < h + |Mark(Unc)|
    ensures !At(r', i, UsersPrefix(d))
  {
    PairChars(r', h);
    PrefixChars(d, r'[i..]);
    hide UsersPrefix, Mark;
    if i > h {
      DropTwice(r', h, i - h);
      DropInFirst(Mark(Unc), rest, i - h);
      NotInMark(Unc, d, i - h, rest);
    }
  }

  lemma PathBehind(d: Drive, r: string, r': string, h: nat, n: nat, i: nat)
    requires UserGuarded(d, r) && h + n <= |r| && MarkPut(r, r', h, r[h + n..])
    requires At(r', i, UsersPrefix(d)) && i >= h + |Mark(Unc)|
    ensures Marked(r'[i + 9..])
  {
    var m := h + |Mark(Unc)|;
    hide UsersPrefix, Mark, Marked;
    AtSuffix(r', m, r, h + n, i - m, UsersPrefix(d));
    DropTwice(r', m, i - m + 9);
    DropTwice(r, h + n, i - m + 9);
  }

  /** Whatever text beginning with two backslashes a mark replaces, no user path comes to light. */
  lemma HitKeepsUsers(d: Drive, r: string, h: nat, n: nat)
    requires UserGuarded(d, r) && At(r, h, "\\\\") && h + n <= |r|
    ensures UserGuarded(d, r[..h] + Mark(Unc) + r[h + n..])
  {
    var r' := r[..h] + Mark(Unc) + r[h + n..];
    HitShape(r, h, n);
    hide UsersPrefix, Mark, Marked;
    forall i | At(r', i, UsersPrefix(d)) ensures Marked(r'[i + 9..]) {
      if i + 9 <= h {
        PathInFront(d, r, r', h, r[h + n..], i);
      } else if i < h {
        NoPathIntoMark(d, r, r', h, i);
      } else if i < h + |Mark(Unc)| {
        NoPathInMark(d, r, r', h, r[h + n..], i);
      } else {
        PathBehind(d, r, r', h, n, i);
      }
    }
  }

  lemma HitShape(r: string, h: nat, n: nat)
    requires At(r, h, "\\\\") && h + n <= |r|
    ensures MarkPut(r, r[..h] + Mark(Unc) + r[h + n..], h, r[h + n..])
  {
    var r' := r[..h] + Mark(Unc) + r[h + n..];
    assert r'[h..] == Mark(Unc) + r[h + n..];
    BackslashChars(r'[h..]);
    assert r'[h..][0] == Mark(Unc)[0] && r'[h..][1] == Mark(Unc)[1];
  }

  lemma RoundKeepsUsers(d: Drive, p: string, q: string)
    requires UserGuarded(d, p + q) && "\\\\" <= q
    ensures UserGuarded(d, Hit(Unc, p, q[..UncLen(q)]) + q[UncLen(q)..])
  {
    var u, z := q[..UncLen(q)], q[UncLen(q)..];
    UncMatchIs(q);
    assert q == u + z;
    WholeText(p, q, u, z);
    hide *;
    HitInText(d, p, u, z);
  }

  lemma WholeText(p: string, q: string, u: string, z: string)
    ensures q == u + z ==> p + q == p + u + z
  {
  }

  lemma HitInText(d: Drive, p: string, u: string, z: string)
    requires UserGuarded(d, p + u + z) && "\\\\" <= u
    ensures UserGuarded(d, Hit(Unc, p, u) + z)
  {
    var h := HitIs(Unc, p, u);
    AtInLonger(p + u, z, h, u);
    hide *;
    Assemble(p + u, z, Mark(Unc), h, |u|);
    HitKeepsUsers(d, p + u + z, h, |u|);
  }

  lemma AtInLonger(s: string, z: string, h: nat, u: string)
    requires At(s, h, u) && "\\\\" <= u
    ensures At(s + z, h, "\\\\")
  {
    DropInFirst(s, z, h);
  }

  /** The UNC loop keeps the user promise, disturbed or not. */
  lemma {:induction false} LoopKeepsUsers(d: Drive, p: string, q: string)
    requires UserGuarded(d, p + q)
    ensures UserGuarded(d, Looped(Unc, p, q))
    decreases |q|
  {
    hide UserGuarded, Hit, MatchLen;
    if q == [] {
      assert p + q == p;
    } else {
      UncMatchChars(q);
      if "\\\\" <= q {
        UncMatchIs(q);
        RoundKeepsUsers(d, p, q);
        LoopKeepsUsers(d, Hit(Unc, p, q[..UncLen(q)]), q[UncLen(q)..]);
      } else {
        Associate(p, [q[0]], q[1..]);
        assert [q[0]] + q[1..] == q;
        LoopKeepsUsers(d, p + [q[0]], q[1..]);
      }
    }
  }

  /** So what the user-name loops achieved is there in the end, whatever the UNC loop did. */
  lemma UsersKept(s: string, d: Drive)
    requires UserGuarded(d, LoopedNames(s, 26))
    ensures UserGuarded(d, Output(s))
  {
    var t := LoopedNames(s, 26);
    hide UserGuarded, Rewrite, Looped, LoopedNames;
    assert [] + t == t;
    LoopKeepsUsers(d, [], t);
    UserPreserved(Ipv6, d, Looped(Unc, [], t));
  }

  // ----- the pass

  method RedactPii(s: string) returns (result: string)
    ensures result == Output(s)
    ensures Clean(s) ==> result == Redacted(s) && Protected(result)
    ensures Ipv6Free(result) && NoStretch(result)
    ensures NoStretch(s) ==> result == Looped(Unc, [], LoopedNames(s, 26))
    ensures AllFaithful(s, 26) ==> NamesHidden(result)
    ensures UncGuarded(result) <==> PathsHidden(result)
    ensures forall d: Drive :: UserGuarded(d, LoopedNames(s, 26)) ==> UserGuarded(d, result)
    ensures AllFaithful(s, 26) ==> forall d: Drive :: UserGuarded(d, result)
    ensures var t := LoopedNames(s, 26);
            && (UncGuarded(result) <==> UncGuarded(Looped(Unc, [], t)))
            && (NoEmptyShare(t) ==> (UncGuarded(result) <==> NoShortMatch(t)))
            && (Rounds([], t, NotLoose) ==> (UncGuarded(result) <==> Rounds([], t, Harmless)))
  {
    hide Rewrite, AllFaithful, Undisturbed, Looped, LoopedNames, UserNames, Protected, UserGuarded, UncGuarded,
      Ipv6Free, NoEmptyShare, NoShortMatch, Rounds, NamesHidden, PathsHidden, NoStretch;
    if NoStretch(s) { WithoutAddresses(s); }
    PlainlyProtected(Output(s));
    var t1 := RedactPathUsername(s);
    var t2 := RedactUncPath(t1);
    result := RedactIpv6(t2);
    AllPromises(s);
    UncDecides(s);
    forall d: Drive | UserGuarded(d, t1) ensures UserGuarded(d, Output(s)) { UsersKept(s, d); }
  }

  // ----- a condition on the input text alone

  ghost predicate NoTriple(s: string) {
    forall i :: !At(s, i, "\\\\\\")
  }

  predicate TrailingPair(s: string) {
    |s| >= 2 && s[|s| - 2] == '\\' && s[|s| - 1] == '\\'
  }

  /** No `<`, no `[`, no empty user name, no three backslashes in a row, no two at the end. */
  ghost predicate Plain(s: string) {
    && '<' !in s && '[' !in s && NoTriple(s) && !TrailingPair(s)
    && forall d: Drive, i :: At(s, i, UsersPrefix(d)) ==> i + 9 < |s| && s[i + 9] != '\\'
  }

  predicate NameOk(x: string) {
    Marked(x) || (x != [] && x[0] != '\\' && x[0] != '<')
  }

  ghost predicate NameSafe(s: string) {
    forall d: Drive, i :: At(s, i, UsersPrefix(d)) ==> NameOk(s[i + 9..])
  }

  lemma NameSafeSuffix(s: string, k: nat)
    requires k <= |s| && NameSafe(s)
    ensures NameSafe(s[k..])
  {
    hide NameOk, UsersPrefix;
    forall d: Drive, i | At(s[k..], i, UsersPrefix(d)) ensures NameOk(s[k..][i + 9..]) {
      DropTwice(s, k, i);
      assert At(s, k + i, UsersPrefix(d));
      DropTwice(s, k, i + 9);
    }
  }

  lemma OkNameIsNoPrefix(x: string)
    requires NameOk(x)
    ensures !(x[..SegLen(x)] < REDACTED)
  {
    var n := SegLen(x);
    if Marked(x) {
      MarkedSegment(x);
    } else {
      assert n > 0 && x[..n][0] == x[0];
    }
  }

  lemma {:induction false} NameSafeFaithful(d: Drive, s: string, seen: bool)
    requires NameSafe(s)
    ensures FaithfulFrom(d, s, seen)
    decreases |s|
  {
    if s != [] {
      hide NameSafe, NameOk;
      if UsersPrefix(d) <= s {
        var n := SegLen(s[9..]);
        NameSafeSuffix(s, 9 + n);
        NameSafeFaithful(d, s[9 + n..], true);
        HeadNameOk(d, s);
        OkNameIsNoPrefix(s[9..]);
        TakeDropped(s, 9, n);
      } else {
        NameSafeSuffix(s, 1);
        NameSafeFaithful(d, s[1..], seen);
      }
    }
  }

  lemma HeadNameOk(d: Drive, s: string)
    requires NameSafe(s) && UsersPrefix(d) <= s
    ensures NameOk(s[9..])
  {
    DropNone(s);
    assert At(s, 0, UsersPrefix(d));
  }

  lemma NameOkKept(d: Drive, x: string)
    requires NameOk(x)
    ensures NameOk(Rewrite(UserName(d), x))
  {
    if Marked(x) {
      MarkedKept(UserName(d), x);
    } else {
      Unfold(UserName(d), x);
      assert Mark(UserName(d))[0] == d;
    }
  }

  lemma NameSafeKeptAt(d: Drive, s: string, x: Drive, i: nat)
    requires NameSafe(s) && At(Rewrite(UserName(d), s), i, UsersPrefix(x))
    ensures NameOk(Rewrite(UserName(d), s)[i + 9..])
  {
    var rule, p := UserName(d), UsersPrefix(x);
    hide MatchLen, Mark, Rewrite, UsersPrefix, Marked;
    if x == d {
      UserEstablishedAt(d, s, i);
    } else {
      hide NameOk, NameSafe;
      var k, j := Origin(rule, s, i);
      if j > 0 {
        NotInMark(rule, x, j, Rewrite(rule, s[k + MatchLen(rule, s[k..])..]));
      } else {
        var m := CopyUntil(rule, s[k..], p);
        if m < 9 {
          FirstMatchInPrefix(rule, x, s[k..], m);
        } else {
          NameSafeSuffix(s, k);
          HeadNameOk(x, s[k..]);
          DropTwice(s, k, 9);
          NameOkKept(d, s[k + 9..]);
          assert Rewrite(rule, s)[i..] == p + Rewrite(rule, s[k + 9..]);
          DropTwice(Rewrite(rule, s), i, 9);
        }
      }
    }
  }

  lemma NameSafeKept(d: Drive, s: string)
    requires NameSafe(s)
    ensures NameSafe(Rewrite(UserName(d), s))
  {
    hide Rewrite, NameOk;
    forall x: Drive, i | At(Rewrite(UserName(d), s), i, UsersPrefix(x))
      ensures NameOk(Rewrite(UserName(d), s)[i + 9..])
    {
      NameSafeKeptAt(d, s, x, i);
    }
  }

  // ----- backslashes through the user-name passes

  lemma NotInUserMark(d: Drive, j: nat, rest: string)
    requires 0 < j < 19
    ensures !("\\\\" <= Mark(UserName(d))[j..] + rest)
  {
    var m := Mark(UserName(d));
    var s := m[j..] + rest;
    BackslashChars(s);
    assert s[0] == m[j];
    assert j + 1 < 19 ==> s[1] == m[j + 1];
  }

  lemma BackslashCopied(d: Drive, t: string)
    requires Rewrite(UserName(d), t) != [] && Rewrite(UserName(d), t)[0] == '\\'
    ensures t != [] && t[0] == '\\' && Rewrite(UserName(d), t) == ['\\'] + Rewrite(UserName(d), t[1..])
  {
    Unfold(UserName(d), t);
    assert Mark(UserName(d))[0] == d;
  }

  /** A pair of backslashes in the output was copied from the input. */
  lemma PairCopied(d: Drive, s: string, i: nat) returns (k: nat)
    requires At(Rewrite(UserName(d), s), i, "\\\\")
    ensures At(s, k, "\\\\") && Rewrite(UserName(d), s)[i..] == "\\\\" + Rewrite(UserName(d), s[k + 2..])
  {
    var rule := UserName(d);
    hide MatchLen, Rewrite;
    var j: nat;
    k, j := Origin(rule, s, i);
    if j > 0 {
      NotInUserMark(d, j, Rewrite(rule, s[k + MatchLen(rule, s[k..])..]));
    } else {
      var t := s[k..];
      BackslashChars(Rewrite(rule, t));
      BackslashCopied(d, t);
      assert Rewrite(rule, t)[1] == Rewrite(rule, t[1..])[0];
      BackslashCopied(d, t[1..]);
      BackslashChars(t);
      DropTwice(t, 1, 1);
      DropTwice(s, k, 2);
    }
  }

  lemma TripleChars(s: string)
    ensures "\\\\\\" <= s <==> |s| >= 3 && s[0] == '\\' && s[1] == '\\' && s[2] == '\\'
  {
    assert "\\\\\\" <= s ==> s[0] == "\\\\\\"[0] && s[1] == "\\\\\\"[1] && s[2] == "\\\\\\"[2];
  }

  lemma TripleCopied(d: Drive, s: string, i: nat)
    requires At(Rewrite(UserName(d), s), i, "\\\\\\")
    ensures exists k :: At(s, k, "\\\\\\")
  {
    var out := Rewrite(UserName(d), s);
    TripleChars(out[i..]);
    BackslashChars(out[i..]);
    hide Rewrite;
    var k := PairCopied(d, s, i);
    assert out[i..][2] == Rewrite(UserName(d), s[k + 2..])[0];
    BackslashCopied(d, s[k + 2..]);
    TripleAt(s, k);
  }

  lemma NoTripleKept(d: Drive, s: string)
    requires NoTriple(s)
    ensures NoTriple(Rewrite(UserName(d), s))
  {
    var out := Rewrite(UserName(d), s);
    hide Rewrite;
    forall i ensures !At(out, i, "\\\\\\") {
      if 0 <= i <= |out| {
        TripleChars(out[i..]);
        BackslashChars(out[i..]);
        if At(out, i, "\\\\\\") {
          TripleCopied(d, s, i);
        }
      }
    }
  }

  lemma TripleAt(s: string, k: nat)
    requires At(s, k, "\\\\") && k + 2 < |s| && s[k + 2..][0] == '\\'
    ensures At(s, k, "\\\\\\")
  {
    BackslashChars(s[k..]);
    TripleChars(s[k..]);
  }

  lemma TrailingPairAt(s: string, i: nat)
    requires i + 2 == |s|
    ensures TrailingPair(s) <==> At(s, i, "\\\\")
  {
    BackslashChars(s[i..]);
  }

  lemma OnlyEmptyVanishes(rule: Rule, t: string)
    ensures Rewrite(rule, t) == [] <==> t == []
  {
    MarkLength(rule);
    hide Mark, MatchLen;
    if t != [] { Unfold(rule, t); }
  }

  lemma TrailingPairCopied(d: Drive, s: string)
    requires TrailingPair(Rewrite(UserName(d), s))
    ensures TrailingPair(s)
  {
    var out := Rewrite(UserName(d), s);
    TrailingPairAt(out, |out| - 2);
    var k := PairCopied(d, s, |out| - 2);
    assert |Rewrite(UserName(d), s[k + 2..])| == 0;
    OnlyEmptyVanishes(UserName(d), s[k + 2..]);
    TrailingPairAt(s, k);
  }

  // ----- plain input is clean

  ghost predicate Tame(s: string) {
    NameSafe(s) && '[' !in s && NoTriple(s) && !TrailingPair(s)
  }

  lemma TameKept(d: Drive, s: string)
    requires Tame(s)
    ensures Tame(Rewrite(UserName(d), s))
  {
    assert '[' !in Mark(UserName(d));
    hide Rewrite, NameSafe, NoTriple, TrailingPair;
    NameSafeKept(d, s);
    NoNewCharacters(UserName(d), s, '[');
    NoTripleKept(d, s);
    if TrailingPair(Rewrite(UserName(d), s)) {
      TrailingPairCopied(d, s);
    }
  }

  lemma {:induction false} TameDrives(s: string, n: nat)
    requires Tame(s) && n <= 26
    ensures Tame(UserNames(s, n))
  {
    hide Tame, Rewrite;
    if n > 0 {
      TameDrives(s, n - 1);
      TameKept(DriveAt(n - 1), UserNames(s, n - 1));
    }
  }

  lemma TameSuffix(s: string, k: nat)
    requires k <= |s| && '[' !in s && NoTriple(s) && !TrailingPair(s)
    ensures '[' !in s[k..] && NoTriple(s[k..]) && !TrailingPair(s[k..])
  {
    forall i ensures !At(s[k..], i, "\\\\\\") {
      if 0 <= i <= |s[k..]| { DropTwice(s, k, i); }
      assert !At(s, k + i, "\\\\\\");
    }
  }

  lemma TameMatchSafe(s: string)
    requires "\\\\" <= s && '[' !in s && NoTriple(s) && !TrailingPair(s)
    ensures Safe(s[..UncLen(s)])
  {
    var n := UncLen(s);
    var u := s[..n];
    DropNone(s);
    BackslashChars(s);
    TripleChars(s);
    assert !At(s, 0, "\\\\\\");
    assert |s| > 2 && s[2] != '\\';
    LongMatch(s);
    assert u[2] == s[2] != '[';
    PrefixIndex(u, UNC_MARK, 2);
    PrefixIndex(UNC_MARK, u, 2);
  }

  lemma LongMatch(s: string)
    requires "\\\\" <= s && |s| > 2 && s[2] != '\\'
    ensures UncLen(s) > 2
  {
    assert s[2..][0] == s[2];
  }

  lemma {:induction false} TameUncFaithful(s: string, seen: bool)
    requires '[' !in s && NoTriple(s) && !TrailingPair(s)
    ensures LaterMatches(s, seen, Safe)
    decreases |s|
  {
    hide NoTriple, TrailingPair, Safe;
    if s != [] {
      if "\\\\" <= s {
        TameSuffix(s, UncLen(s));
        TameUncFaithful(s[UncLen(s)..], true);
        TameMatchSafe(s);
      } else {
        TameSuffix(s, 1);
        TameUncFaithful(s[1..], seen);
      }
    }
  }

  lemma PlainIsTame(s: string)
    requires Plain(s)
    ensures Tame(s)
  {
    hide NoTriple, TrailingPair;
    forall d: Drive, i | At(s, i, UsersPrefix(d)) ensures NameOk(s[i + 9..]) {
      assert s[i + 9..][0] == s[i + 9];
    }
  }

  /** On plain input every loop is the plain rewrite, so RedactPii keeps all three promises. */
  lemma PlainIsClean(s: string)
    requires Plain(s)
    ensures Clean(s)
  {
    PlainIsTame(s);
    hide Rewrite, UserNames, NameSafe, NoTriple, TrailingPair, FaithfulFrom, LaterMatches, Undisturbed, Looped;
    forall k | 0 <= k < 26 ensures Faithful(DriveAt(k), UserNames(s, k)) {
      TameDrives(s, k);
      NameSafeFaithful(DriveAt(k), UserNames(s, k), false);
    }
    TameDrives(s, 26);
    TameUncFaithful(UserNames(s, 26), false);
    LoopedOutcome(UserNames(s, 26));
  }

  // ----- the user-name pass once more

  lemma {:induction false} GuardedStays(s: string, n: nat)
    requires n <= 26 && forall d: Drive :: UserGuarded(d, s)
    ensures UserNames(s, n) == s
  {
    hide UserGuarded, Rewrite;
    if n > 0 {
      GuardedStays(s, n - 1);
      UserFixedPoint(DriveAt(n - 1), s);
    }
  }

  /** On what it put out once, the user-name pass is the plain rewrite and changes nothing. */
  lemma UserNamesOnceIsEnough(s: string)
    requires forall d: Drive :: UserGuarded(d, s)
    ensures AllFaithful(s, 26) && UserNames(s, 26) == s
  {
    forall d: Drive, i | At(s, i, UsersPrefix(d)) ensures NameOk(s[i + 9..]) {
      hide Marked, UsersPrefix;
      assert UserGuarded(d, s);
    }
    hide UserGuarded, Rewrite, NameSafe, FaithfulFrom, UserNames;
    GuardedStays(s, 26);
    forall k | 0 <= k < 26 ensures Faithful(DriveAt(k), UserNames(s, k)) {
      GuardedStays(s, k);
      NameSafeFaithful(DriveAt(k), s, false);
    }
  }
}
