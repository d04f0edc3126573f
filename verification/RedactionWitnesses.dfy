/** Inputs on which a loop, or the whole pass, breaks its promise, or keeps it by accident. */
module RedactionWitnesses {
  import opened Strings
  import opened Rewriting
  import opened Guarantees
  import opened Ipv6Redaction
  import opened UserNameRedaction
  import opened FirstOccurrence
  import opened UncRedaction
  import opened RedactPii

  // ----- addresses

  /** An address with a zero run is redacted as a whole; one that begins with its colons and is short is
      not. */
  lemma AddressExamples()
    ensures Rewrite(Ipv6, "2001:db8::1") == "[REDACTED_IP]"
    ensures Rewrite(Ipv6, "::1") == "::1"
  {
    var a := "2001:db8::1";
    HexRun(a);
    assert a[4] == ':' && a[8] == ':';
    AddressIsReplaced([], [], a, []);
    EmptyKept(Ipv6);
    assert [] + ([] + (a + [])) == a && [] + ([] + ("[REDACTED_IP]" + [])) == "[REDACTED_IP]";
    AddressesRedacted("::1");
  }

  lemma HexRun(a: string)
    requires a == "2001:db8::1"
    ensures a[0] in "0123456789abcdefABCDEF" && forall m :: 0 <= m < |a| ==> a[m] in "0123456789abcdefABCDEF:"
  {
  }

  // ----- inputs on which a promise fails

  /** Two paths of one drive, the second with an empty name or another proper prefix of the
      mark: by RedactDrive's contract the output then breaks the promise. */
  lemma SecondNameLost(d: Drive, u: string, v: string)
    requires '\\' !in u && v < REDACTED
    ensures !Faithful(d, UsersPrefix(d) + u + ("\\" + UsersPrefix(d) + v))
  {
    var z := "\\" + UsersPrefix(d) + v;
    assert forall i :: 0 <= i < |v| ==> v[i] == REDACTED[i];
    assert z[0] == '\\';
    SecondName(d, v, z);
    hide FaithfulFrom, UsersPrefix;
    NextPathHere(d, [], u, z);
    FaithfulRound(d, UsersPrefix(d) + u + z, [], u, z, false);
  }

  lemma NextPathHere(d: Drive, t: string, u: string, z: string)
    requires '\\' !in u && (z == [] || z[0] == '\\') && (t == [] || (t == "\\" && z == []))
    ensures NextPath(d, t + (UsersPrefix(d) + u + z), t, u, z)
    ensures [] + (UsersPrefix(d) + u + z) == UsersPrefix(d) + u + z
  {
    var rest := t + (UsersPrefix(d) + u + z);
    PrefixChars(d, rest);
    DropNone(rest);
    assert t != [] ==> rest[0] == '\\';
    hide UsersPrefix;
  }

  lemma SecondName(d: Drive, v: string, z: string)
    requires z == "\\" + UsersPrefix(d) + v && v < REDACTED && '\\' !in v
    ensures !FaithfulFrom(d, z, true)
  {
    hide FaithfulFrom, UsersPrefix;
    NextPathHere(d, "\\", v, []);
    assert z == "\\" + (UsersPrefix(d) + v + []);
    FaithfulRound(d, z, "\\", v, [], true);
  }

  // ----- a failure that a later pass swallows

  lemma NextPathBehind(d: Drive, t: string, u: string, z: string)
    requires d !in t && '\\' !in u && (z == [] || z[0] == '\\')
    ensures NextPath(d, t + (UsersPrefix(d) + u + z), t, u, z)
  {
    var rest := t + (UsersPrefix(d) + u + z);
    forall i | At(rest, i, UsersPrefix(d)) ensures i >= |t| {
      PrefixChars(d, rest[i..]);
      assert rest[i..][0] == rest[i];
    }
  }

  /** A round whose first occurrence lies at h. */
  lemma LoopedPath(d: Drive, p: string, t: string, u: string, z: string, h: nat)
    requires d !in t && '\\' !in u && (z == [] || z[0] == '\\')
    requires var r := p + t + (UsersPrefix(d) + u);
             At(r, h, UsersPrefix(d) + u) && forall i :: 0 <= i < h ==> !At(r, i, UsersPrefix(d) + u)
    ensures var r := p + t + (UsersPrefix(d) + u);
            && h + 9 + |u| <= |r|
            && Looped(UserName(d), p, t + (UsersPrefix(d) + u + z))
               == Looped(UserName(d), r[..h] + Mark(UserName(d)) + r[h + 9 + |u|..], z)
  {
    var q, full := UsersPrefix(d) + u + z, UsersPrefix(d) + u;
    hide Looped, UsersPrefix, Find, Mark, At, MatchLen, SegLen, NextPath;
    NextPathBehind(d, t, u, z);
    SkipToPath(d, p, t, u, z);
    FirstAt(p + t + full, full, h);
    PathMatch(d, u, z);
    LoopedMatch(UserName(d), p + t, q);
    var h' := HitIs(UserName(d), p + t, full);
  }

  lemma SkipToPath(d: Drive, p: string, t: string, u: string, z: string)
    requires NextPath(d, t + (UsersPrefix(d) + u + z), t, u, z)
    ensures Looped(UserName(d), p, t + (UsersPrefix(d) + u + z)) == Looped(UserName(d), p + t, UsersPrefix(d) + u + z)
  {
    var q := UsersPrefix(d) + u + z;
    UserNameRedaction.NoMatchBefore(d, t + q, t, q);
    LoopedSkip(UserName(d), p, t, q);
  }

  lemma FirstAt(r: string, u: string, h: nat)
    requires At(r, h, u) && forall i :: 0 <= i < h ==> !At(r, i, u)
    ensures Find(r, u) == h
  {
    FindMeans(r, u);
  }

  lemma PathMatch(d: Drive, u: string, z: string)
    requires '\\' !in u && (z == [] || z[0] == '\\')
    ensures var q := UsersPrefix(d) + u + z;
            && MatchLen(UserName(d), q) == 9 + |u| && q[..9 + |u|] == UsersPrefix(d) + u && q[9 + |u|..] == z
  {
    PathHead(d, u, z);
    TakeWhole(UsersPrefix(d) + u, z);
  }

  lemma LoopedRest(d: Drive, p: string, q: string)
    requires NoPath(d, q)
    ensures Looped(UserName(d), p, q) == p + q
  {
    forall i | 0 <= i < |q| ensures MatchLen(UserName(d), q[i..]) == 0 {
      UserMatchChars(d, q[i..]);
      assert !At(q, i, UsersPrefix(d));
    }
    LoopedEnd(UserName(d), p, q);
  }

  lemma NoDriveNoPath(d: Drive, q: string)
    requires forall i :: 0 <= i < |q| - 1 && q[i] == d ==> q[i + 1] != ':'
    ensures NoPath(d, q)
  {
    forall i ensures !At(q, i, UsersPrefix(d)) {
      if 0 <= i <= |q| {
        PrefixChars(d, q[i..]);
        assert i + 1 < |q| ==> q[i..][0] == q[i] && q[i..][1] == q[i + 1];
      }
    }
  }

  const A: Drive := 'A'
  const B: Drive := 'B'
  const USERS: string := "\\Users\\"

  /** `B:\Users\A:\Users\x\B:\Users\A:\Users\\y`: the second name of drive A is empty. */
  function Swallowed(): string {
    UsersPrefix(B) + (UsersPrefix(A) + "x" + ("\\" + UsersPrefix(B) + (UsersPrefix(A) + "" + "\\y")))
  }

  /** Behind text without the drive letter the first path is its own first occurrence. */
  lemma LoopedFirst(d: Drive, t: string, u: string, z: string)
    requires d !in t && '\\' !in u && (z == [] || z[0] == '\\')
    ensures Looped(UserName(d), [], t + (UsersPrefix(d) + u + z)) == Looped(UserName(d), t + Mark(UserName(d)), z)
  {
    var full := UsersPrefix(d) + u;
    PrefixShape(d);
    hide Looped, UsersPrefix, Mark;
    FirstBehind(d, t, full, []);
    assert [] + t + full == t + full + [];
    hide At;
    LoopedPath(d, [], t, u, z, |t|);
    assert ([] + t + full)[..|t|] == t && ([] + t + full)[|t| + |full|..] == [];
    assert t + Mark(UserName(d)) + [] == t + Mark(UserName(d));
  }

  /** A second path whose name is empty is found in the mark of the first, and left behind. */
  lemma LoopedSecond(d: Drive, t: string, t': string, z: string)
    requires d !in t && d !in t' && (z == [] || z[0] == '\\')
    ensures Looped(UserName(d), t + Mark(UserName(d)), t' + (UsersPrefix(d) + [] + z))
            == Looped(UserName(d), t + Mark(UserName(d)) + (REDACTED + t' + UsersPrefix(d)), z)
  {
    var pre := UsersPrefix(d);
    var p := t + Mark(UserName(d));
    var r := p + t' + (pre + []);
    PrefixShape(d);
    UserMark(d);
    hide Looped, UsersPrefix, Mark;
    FirstBehind(d, t, pre + [], REDACTED + t' + pre);
    assert r == t + (pre + []) + (REDACTED + t' + pre);
    hide At;
    LoopedPath(d, p, t', [], z, |t|);
    assert r[..|t|] == t && r[|t| + 9..] == REDACTED + t' + pre;
  }

  lemma PassA()
    ensures Looped(UserName(A), [], Swallowed())
            == UsersPrefix(B) + Mark(UserName(A)) + (REDACTED + ("\\" + UsersPrefix(B)) + UsersPrefix(A)) + "\\y"
  {
    var pb, z := UsersPrefix(B), "\\y";
    assert A !in pb && A !in "\\" + pb;
    hide UsersPrefix, Looped, At, Mark;
    LoopedFirst(A, pb, "x", "\\" + pb + (UsersPrefix(A) + "" + z));
    LoopedSecond(A, pb, "\\" + pb, z);
    NoDriveNoPath(A, z);
    LoopedRest(A, pb + Mark(UserName(A)) + (REDACTED + ("\\" + pb) + UsersPrefix(A)), z);
  }

  /** The text between the two paths of drive B after the pass of drive A. */
  function Between(): string { USERS + REDACTED + REDACTED + "\\" }

  function AfterB(): string {
    Mark(UserName(B)) + Between() + Mark(UserName(B)) + (USERS + "\\y")
  }

  /** What drive A's pass leaves, as drive B's pass sees it. */
  lemma SeenByB()
    ensures Looped(UserName(A), [], Swallowed())
            == [] + (UsersPrefix(B) + "A:" + (Between() + (UsersPrefix(B) + "A:" + (USERS + "\\y"))))
  {
    PassA();
    PrefixShape(A);
    UserMark(A);
    hide Looped, UsersPrefix, Mark, Between, Swallowed;
    SwallowedText(UsersPrefix(A), UsersPrefix(B));
  }

  lemma SwallowedText(pa: string, pb: string)
    requires pa == "A:" + USERS
    ensures pb + (pa + REDACTED) + (REDACTED + ("\\" + pb) + pa) + "\\y"
            == [] + (pb + "A:" + (Between() + (pb + "A:" + (USERS + "\\y"))))
  {
  }

  lemma BetweenShape(q: string)
    ensures B !in Between() && (Between() + q)[0] == '\\' == Between()[0] && (USERS + "\\y")[0] == '\\' && '\\' !in "A:"
    ensures NoPath(B, USERS + "\\y")
  {
    NoDriveNoPath(B, USERS + "\\y");
  }

  lemma PassB()
    ensures Looped(UserName(B), [], Looped(UserName(A), [], Swallowed())) == AfterB()
  {
    var m, pb, z := Mark(UserName(B)), UsersPrefix(B), USERS + "\\y";
    SeenByB();
    BetweenShape(pb + "A:" + z);
    hide Looped, UsersPrefix, Mark, Between, Swallowed, At, NoPath;
    LoopedFirst(B, [], "A:", Between() + (pb + "A:" + z));
    assert [] + m == m;
    LoopedApart(B, Between(), "A:", z);
    LoopedRest(B, m + Between() + m, z);
  }

  /** A second path whose name does not begin the mark is its own first occurrence. */
  lemma LoopedApart(d: Drive, t: string, u: string, z: string)
    requires d !in t && '\\' !in u && (z == [] || z[0] == '\\') && u != [] && u[0] != '<'
    ensures Looped(UserName(d), Mark(UserName(d)), t + (UsersPrefix(d) + u + z))
            == Looped(UserName(d), Mark(UserName(d)) + t + Mark(UserName(d)), z)
  {
    var m, full := Mark(UserName(d)), UsersPrefix(d) + u;
    var r := m + t + full;
    PrefixShape(d);
    UserMark(d);
    MarkBehindDrive(d);
    hide Looped, UsersPrefix, Mark;
    assert r[0] == d && r[9] == '<' && full[9] == u[0];
    forall i | 0 <= i < |m + t| ensures !At(r, i, full) {
      if i == 0 {
        DropNone(r);
        PrefixIndex(r, full, 9);
      } else {
        PrefixIndex(r[i..], full, 0);
        assert r[i..][0] == r[i] == (m + t)[i];
      }
    }
    assert r[|m + t|..] == full;
    LoopedPath(d, m, t, u, z, |m + t|);
    assert r[..|m + t|] == m + t && r[|m + t| + 9 + |u|..] == [];
    assert m + t + m + [] == m + t + m;
  }

  lemma MarkBehindDrive(d: Drive)
    ensures |Mark(UserName(d))| == 19 && Mark(UserName(d))[9] == '<' && Mark(UserName(d))[0] == d
    ensures forall i :: 1 <= i < 19 ==> Mark(UserName(d))[i] != d || (d == 'U' && i == 3)
  {
  }

  lemma PrefixShape(d: Drive)
    ensures |UsersPrefix(d)| == 9 && UsersPrefix(d)[0] == d && UsersPrefix(d) == [d, ':'] + USERS
  {
  }

  /** A path behind text without its drive letter is its own first occurrence. */
  lemma FirstBehind(d: Drive, t: string, u: string, z: string)
    requires d !in t && u != [] && u[0] == d
    ensures At(t + u + z, |t|, u) && forall i :: 0 <= i < |t| ==> !At(t + u + z, i, u)
  {
    var s := t + u + z;
    assert s[|t|..] == u + z;
    forall i | 0 <= i < |t| ensures !At(s, i, u) {
      assert s[i..][0] == s[i] == t[i];
    }
  }

  /** The places of drive B, and of all others. */
  lemma AfterBGuarded(d: Drive)
    ensures UserGuarded(d, AfterB())
    ensures d != B ==> NoPath(d, AfterB())
  {
    var s := AfterB();
    UserMark(B);
    PrefixShape(B);
    AfterBShape();
    hide AfterB, UsersPrefix, Mark;
    forall i | At(s, i, UsersPrefix(d)) ensures Marked(s[i + 9..]) && d == B {
      PrefixChars(d, s[i..]);
      assert s[i..][0] == s[i] && s[i..][1] == s[i + 1];
      assert PairAt(s, i, d, ':');
    }
  }

  predicate PairAt(s: string, i: int, c: char, c': char) {
    0 <= i < |s| - 1 && s[i] == c && s[i + 1] == c'
  }

  /** A colon follows the two letters of drive B only, and the mark follows both paths. */
  lemma AfterBShape()
    ensures var s := AfterB();
            && (forall i, c :: PairAt(s, i, c, ':') ==> c == B && (i == 0 || i == 47))
            && |s| >= 66 && Marked(s[9..]) && Marked(s[56..])
  {
    UserMark(B);
    PrefixShape(B);
    var m := Mark(UserName(B));
    assert forall i :: 0 <= i < 19 && m[i] == ':' ==> i == 1;
    assert m[9..] == REDACTED && |Between()| == 28 && ':' !in Between() && ':' !in USERS + "\\y";
    BetweenShape([]);
    hide UsersPrefix, Mark, Between;
    TwoMarks(m, Between(), USERS + "\\y");
  }

  lemma TwoMarks(m: string, t: string, z: string)
    requires |m| == 19 && |t| == 28 && m[0] == B && m[9..] == REDACTED && t[0] == '\\' && z != [] && z[0] == '\\'
    requires (forall i :: 0 <= i < 19 && m[i] == ':' ==> i == 1) && ':' !in t && ':' !in z
    ensures var s := m + t + m + z;
            && (forall i, c :: PairAt(s, i, c, ':') ==> c == B && (i == 0 || i == 47))
            && |s| >= 66 && Marked(s[9..]) && Marked(s[56..])
  {
    var s := m + t + m + z;
    assert s[9..] == REDACTED + (t + m + z) && s[56..] == REDACTED + z;
  }

  lemma {:induction false} LaterPasses(n: nat)
    requires 2 <= n <= 26
    ensures LoopedNames(Swallowed(), n) == AfterB()
  {
    hide Looped, AfterB, Swallowed, NoPath;
    if n > 2 {
      LaterPasses(n - 1);
      AfterBGuarded(DriveAt(n - 1));
      LoopedRest(DriveAt(n - 1), [], AfterB());
      assert [] + AfterB() == AfterB();
    } else {
      PassB();
      FirstTwo(Swallowed());
    }
  }

  lemma FirstTwo(s: string)
    ensures LoopedNames(s, 2) == Looped(UserName(B), [], Looped(UserName(A), [], s))
  {
    hide Looped;
    assert LoopedNames(s, 1) == Looped(UserName(A), [], LoopedNames(s, 0));
  }

  /** So a drive's own loop can fail and the output still keep the promise: the names of a later
      drive may hold every place that was missed. */
  lemma LaterDriveSwallows()
    ensures !AllFaithful(Swallowed(), 26)
    ensures forall d: Drive :: UserGuarded(d, LoopedNames(Swallowed(), 26))
  {
    LaterPasses(26);
    forall d: Drive ensures UserGuarded(d, AfterB()) { AfterBGuarded(d); }
    SwallowedUnfaithful();
    hide UserGuarded, AfterB, Swallowed, FaithfulFrom, LoopedNames;
    assert DriveAt(0) == A && UserNames(Swallowed(), 0) == Swallowed();
  }

  lemma SwallowedUnfaithful()
    ensures !Faithful(A, Swallowed())
  {
    var pb, z := UsersPrefix(B), "\\y";
    var rest := "\\" + pb + (UsersPrefix(A) + [] + z);
    assert A !in pb && A !in "\\" + pb;
    assert [] < REDACTED;
    hide UsersPrefix, FaithfulFrom;
    NextPathBehind(A, pb, "x", rest);
    FaithfulRound(A, Swallowed(), pb, "x", rest, false);
    NextPathBehind(A, "\\" + pb, [], z);
    FaithfulRound(A, rest, "\\" + pb, [], z, true);
  }

  // ----- inputs on which the whole pass breaks a promise

  /** Text without a path of any drive is as it was after every loop. */
  lemma {:induction false} NamesStay(s: string, n: nat)
    requires n <= 26 && forall k :: 0 <= k < n ==> NoPath(DriveAt(k), s)
    ensures LoopedNames(s, n) == s
  {
    hide NoPath, Looped;
    if n > 0 {
      NamesStay(s, n - 1);
      LoopedRest(DriveAt(n - 1), [], s);
      assert [] + s == s;
    }
  }

  lemma NoColonNoPath(s: string)
    requires ':' !in s
    ensures LoopedNames(s, 26) == s
  {
    forall k | 0 <= k < 26 ensures NoPath(DriveAt(k), s) { NoDriveNoPath(DriveAt(k), s); }
    NamesStay(s, 26);
  }

  /** A second UNC path that is a proper prefix of the mark is still there in the end ... */
  lemma UncPathLost(v: string)
    requires "\\\\" <= v && Short(v)
    ensures !UncGuarded(Output(Behind(v)))
  {
    assert forall i :: 0 <= i < |v| ==> v[i] == UNC_MARK[i];
    NoColonNoPath(Behind(v));
    hide LoopedNames, Looped, UncGuarded, Behind, Rounds;
    UncDecides(Behind(v));
    ShortMatchLost(v);
  }

  /** ... and so is the bare double backslash that an empty share leaves. */
  lemma EmptySharePathLost()
    ensures !UncGuarded(Output(Behind(EMPTY_SHARE + "\\x")))
  {
    NoColonNoPath(Behind(EMPTY_SHARE + "\\x"));
    hide LoopedNames, Looped, UncGuarded, Behind, Rounds;
    UncDecides(Behind(EMPTY_SHARE + "\\x"));
    EmptyShareLost();
  }

  /** Two paths of a drive, each behind t, the second with an empty name; and what its loop leaves. */
  function Twice(d: Drive, t: string): string {
    t + (UsersPrefix(d) + "x" + ("\\" + t + (UsersPrefix(d) + [] + [])))
  }

  function Missed(d: Drive, t: string): string {
    t + Mark(UserName(d)) + (REDACTED + ("\\" + t) + UsersPrefix(d))
  }

  /** A colon follows no letter but d. */
  predicate OneDrive(d: Drive, q: string) {
    forall i :: 0 <= i < |q| - 1 && q[i + 1] == ':' && IsDrive(q[i]) ==> q[i] == d
  }

  lemma OneDriveConcat(d: Drive, a: string, b: string)
    requires OneDrive(d, a) && OneDrive(d, b) && (b == [] || b[0] != ':' || a == [] || !IsDrive(a[|a| - 1]))
    ensures OneDrive(d, a + b)
  {
  }

  lemma OtherDrive(d: Drive, x: Drive, q: string)
    requires OneDrive(d, q) && x != d
    ensures NoPath(x, q)
  {
    NoDriveNoPath(x, q);
  }

  lemma {:induction false} OneDriveNames(d: Drive, k: nat, s: string, n: nat)
    requires k < 26 && DriveAt(k) == d && n <= 26 && OneDrive(d, s) && OneDrive(d, Looped(UserName(d), [], s))
    ensures LoopedNames(s, n) == if n <= k then s else Looped(UserName(d), [], s)
  {
    hide Looped, OneDrive, NoPath;
    if n > 0 {
      OneDriveNames(d, k, s, n - 1);
      if n - 1 != k {
        var r := LoopedNames(s, n - 1);
        OtherDrive(d, DriveAt(n - 1), r);
        LoopedRest(DriveAt(n - 1), [], r);
        assert [] + r == r;
      }
    }
  }

  lemma MissedByLoop(d: Drive, t: string)
    requires d !in t && d !in "\\" + t
    ensures Looped(UserName(d), [], Twice(d, t)) == Missed(d, t)
  {
    hide Looped, UsersPrefix, Mark;
    var z := "\\" + t + (UsersPrefix(d) + [] + []);
    assert z[0] == '\\';
    LoopedFirst(d, t, "x", z);
    LoopedSecond(d, t, "\\" + t, []);
    LoopedRest(d, Missed(d, t), []) by { NoDriveNoPath(d, []); }
    assert Missed(d, t) + [] == Missed(d, t);
  }

  const TWO_MARKS: string := USERS + REDACTED + REDACTED + "\\"

  /** The leftover text: h stands for t, the drive letter and the colon. */
  function Around(h: string): string { h + (TWO_MARKS + (h + USERS)) }

  lemma MissedText(t: string, d: string, us: string, r: string, sep: string)
    ensures t + (d + us + r) + (r + (sep + t) + (d + us)) == (t + d) + ((us + r + r + sep) + ((t + d) + us))
  {
  }

  lemma TwiceText(t: string, p: string, sep: string)
    ensures t + (p + "x" + (sep + t + (p + [] + []))) == t + (p + ("x" + (sep + (t + p))))
  {
  }

  lemma MissedIsAround(d: Drive, t: string)
    ensures Missed(d, t) == Around(t + [d, ':'])
  {
    PrefixShape(d);
    UserMark(d);
    hide UsersPrefix, Mark;
    MissedText(t, [d, ':'], USERS, REDACTED, "\\");
  }

  predicate Clear(t: string) { t == "" || t == "0::" }

  /** Both texts name no drive but d. */
  lemma TwiceOneDrive(d: Drive, t: string)
    requires Clear(t)
    ensures OneDrive(d, Twice(d, t))
  {
    var p := UsersPrefix(d);
    PrefixShape(d);
    assert OneDrive(d, p) && OneDrive(d, t) && OneDrive(d, "\\") && OneDrive(d, "x");
    hide UsersPrefix, OneDrive;
    TwiceText(t, p, "\\");
    OneDriveConcat(d, t, p);
    OneDriveConcat(d, "\\", t + p);
    OneDriveConcat(d, "x", "\\" + (t + p));
    OneDriveConcat(d, p, "x" + ("\\" + (t + p)));
    OneDriveConcat(d, t, p + ("x" + ("\\" + (t + p))));
  }

  lemma AroundOneDrive(d: Drive, t: string)
    requires Clear(t)
    ensures OneDrive(d, Around(t + [d, ':']))
  {
    var h := t + [d, ':'];
    PlainTexts();
    assert OneDrive(d, h) && OneDrive(d, TWO_MARKS) && OneDrive(d, USERS);
    assert h[0] != ':' && USERS[0] == '\\' && TWO_MARKS[0] == '\\';
    hide OneDrive;
    OneDriveConcat(d, h, USERS);
    OneDriveConcat(d, TWO_MARKS, h + USERS);
    OneDriveConcat(d, h, TWO_MARKS + (h + USERS));
  }

  lemma MissedNames(d: Drive, t: string)
    requires Clear(t)
    ensures LoopedNames(Twice(d, t), 26) == Around(t + [d, ':'])
  {
    var k := d as int - 'A' as int;
    assert DriveAt(k) == d && d !in t && d !in "\\" + t;
    hide Looped, OneDrive, Missed, Twice, Around, LoopedNames, Clear;
    MissedByLoop(d, t);
    MissedIsAround(d, t);
    TwiceOneDrive(d, t);
    AroundOneDrive(d, t);
    OneDriveNames(d, k, Twice(d, t), 26);
  }

  lemma AroundHasNoPair(h: string)
    requires h != [] && '\\' !in h
    ensures Looped(Unc, [], Around(h)) == Around(h)
  {
    var s := Around(h);
    assert forall i :: 0 <= i < |s| - 1 && s[i] == '\\' ==> s[i + 1] != '\\';
    forall i ensures !At(s, i, "\\\\") {
      if 0 <= i { PairHere(s, i); }
    }
    hide Looped, Around;
    NoMatchAhead(s);
    LoopedEnd(Unc, [], s);
    assert [] + s == s;
  }

  lemma {:induction false} NoColonCount(w: string)
    requires ':' !in w
    ensures Colons(w) == 0
  {
    if w != [] { NoColonCount(w[1..]); }
  }

  /** Text without a colon, up to a backslash, is copied by the address pass. */
  lemma NoColonCopied(w: string, q: string)
    requires ':' !in w && w != [] && w[|w| - 1] == '\\'
    ensures Rewrite(Ipv6, w + q) == w + Rewrite(Ipv6, q)
  {
    forall i | 0 <= i < |w| ensures MatchLen(Ipv6, w[i..] + q) == 0 {
      var s := w[i..] + q;
      var n := RunLen(s);
      assert s[|w| - 1 - i] == '\\';
      assert s[..n] == w[i..][..n];
      NoColonCount(s[..n]);
    }
    hide *;
    CopyForward(Ipv6, w, q);
  }

  /** What the address pass makes of both places, given what it makes of h. */
  lemma PlacesRewritten(h: string, h': string, w: string, w': string)
    requires ':' !in w && w != [] && w[|w| - 1] == '\\' && ':' !in w' && w' != [] && w'[|w'| - 1] == '\\'
    requires Rewrite(Ipv6, h + (w + (h + w'))) == h' + Rewrite(Ipv6, w + (h + w'))
    requires Rewrite(Ipv6, h + w') == h' + Rewrite(Ipv6, w')
    ensures Rewrite(Ipv6, h + (w + (h + w'))) == h' + (w + (h' + w'))
  {
    NoColonCopied(w, h + w');
    NoColonCopied(w', []);
    EmptyKept(Ipv6);
    hide Rewrite;
    assert w' + [] == w';
  }

  lemma AroundRewritten(h: string, h': string)
    requires Rewrite(Ipv6, h + (TWO_MARKS + (h + USERS))) == h' + Rewrite(Ipv6, TWO_MARKS + (h + USERS))
    requires Rewrite(Ipv6, h + USERS) == h' + Rewrite(Ipv6, USERS)
    ensures Rewrite(Ipv6, Around(h)) == Around(h')
  {
    hide Rewrite;
    PlainTexts();
    PlacesRewritten(h, h', TWO_MARKS, USERS);
  }

  lemma PlainTexts()
    ensures ':' !in TWO_MARKS && TWO_MARKS != [] && TWO_MARKS[|TWO_MARKS| - 1] == '\\'
    ensures ':' !in USERS && USERS != [] && USERS[|USERS| - 1] == '\\'
  {
  }

  lemma DriveCopied(d: Drive, rest: string)
    requires rest != [] && rest[0] == '\\'
    ensures Rewrite(Ipv6, [d, ':'] + rest) == [d, ':'] + Rewrite(Ipv6, rest)
  {
    var s := [d, ':'] + rest;
    assert s[2] == '\\' && s[1..] == [':'] + rest && s[1..][1..] == rest;
    UnfoldCopy(Ipv6, s);
    UnfoldCopy(Ipv6, s[1..]);
    hide Rewrite;
    assert [d] + ([':'] + Rewrite(Ipv6, rest)) == [d, ':'] + Rewrite(Ipv6, rest);
  }

  lemma AddressTaken(rest: string)
    requires rest != [] && rest[0] == '\\'
    ensures Rewrite(Ipv6, "0::A:" + rest) == IP_MARK + Rewrite(Ipv6, rest)
  {
    var s := "0::A:" + rest;
    RunLenIs(s, 5);
    assert s[..5] == "0::A:" && s[5..] == rest;
    assert Colons("0::A:") == 3 by {
      ColonsAppend("0:", ":A:");
      assert "0:" + ":A:" == "0::A:";
    }
    Unfold(Ipv6, s);
  }

  lemma SlashHeads(h: string)
    ensures USERS[0] == '\\' && (TWO_MARKS + (h + USERS))[0] == '\\'
  {
  }

  lemma DriveOutput(d: Drive)
    ensures LoopedNames(Twice(d, ""), 26) == Around([d, ':']) == Output(Twice(d, ""))
  {
    var h := [d, ':'];
    assert "" + h == h && '\\' !in h;
    MissedNames(d, "");
    SlashHeads(h);
    hide Rewrite, Looped, LoopedNames, Around, Twice;
    AroundHasNoPair(h);
    DriveCopied(d, TWO_MARKS + (h + USERS));
    DriveCopied(d, USERS);
    AroundRewritten(h, h);
  }

  lemma AddressOutput()
    ensures LoopedNames(Twice(A, "0::"), 26) == Around("0::A:") && Output(Twice(A, "0::")) == Around(IP_MARK)
  {
    var h := "0::A:";
    assert "0::" + [A, ':'] == h && '\\' !in h;
    MissedNames(A, "0::");
    SlashHeads(h);
    hide Rewrite, Looped, LoopedNames, Around, Twice;
    AroundHasNoPair(h);
    AddressTaken(TWO_MARKS + (h + USERS));
    AddressTaken(USERS);
    AroundRewritten(h, IP_MARK);
  }

  lemma SecondPlace(t: string, d: string, w: string, us: string)
    ensures ((t + d) + (w + ((t + d) + us)))[|t + d| + |w| + |t|..] == d + us + [] + []
  {
    var s := (t + d) + (w + ((t + d) + us));
    assert s == (t + d + w + t) + (d + us);
  }

  lemma AroundBreaks(d: Drive, t: string)
    ensures !UserGuarded(d, Around(t + [d, ':']))
  {
    var h := t + [d, ':'];
    SecondPlace(t, [d, ':'], TWO_MARKS, USERS);
    PrefixShape(d);
    hide UsersPrefix, UserGuarded;
    LeftBehind(d, Around(h), |h| + |TWO_MARKS| + |t|, [], []);
  }

  /** On two paths of one drive, the second with an empty name, the whole pass breaks the user promise. */
  lemma UserNameLost(d: Drive)
    ensures !UserGuarded(d, Output(Twice(d, "")))
  {
    hide Output, LoopedNames, UserGuarded, Around, Twice;
    DriveOutput(d);
    AroundBreaks(d, "");
    assert "" + [d, ':'] == [d, ':'];
  }

  /** When the address pass takes the drive letters with it, it repairs the promise that was broken. */
  lemma AddressesSwallow()
    ensures !UserGuarded(A, LoopedNames(Twice(A, "0::"), 26))
    ensures forall d: Drive :: UserGuarded(d, Output(Twice(A, "0::")))
  {
    var s := Around(IP_MARK);
    assert ':' !in s;
    hide Output, LoopedNames, UsersPrefix, Around, Twice;
    AddressOutput();
    AroundBreaks(A, "0::");
    assert "0::" + [A, ':'] == "0::A:";
    forall d: Drive ensures UserGuarded(d, s) { NoDriveNoPath(d, s); }
  }

  /** The UNC pass is not idempotent: a marked path with two more segments loses one more. */
  lemma UncNotIdempotent()
    ensures Rewrite(Unc, UNC_MARK + "\\c\\d") == UNC_MARK + "\\d"
  {
    var s := UNC_MARK + "\\c\\d";
    var after := s[2..];
    assert after == PATH_MARK + "\\c\\d";
    SegLenIs(after, 15);
    assert after[16..] == "c\\d";
    SegLenIs("c\\d", 1);
    assert UncLen(s) == 19;
    assert s[19..] == "\\d";
    UncMatchIs(s);
    NoPairIn("\\d");
    RewriteNone("\\d");
  }
}
