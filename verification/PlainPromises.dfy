/**
  The redactor's promises in plain characters, and that the loops for user names and UNC paths bring no
  address to light: where the input has none, the address pass has nothing to do.
 */
module PlainPromises {
  import opened Strings
  import opened Rewriting
  import opened Guarantees
  import opened FirstOccurrence
  import opened UserNameRedaction

  // ----- what the first two promises say

  /** Behind every drive letter, colon, `\Users\` comes `<redacted>` and then a backslash or the end. */
  ghost predicate NamesHidden(s: string) {
    forall d: char, i :: 'A' <= d <= 'Z' && PathAt(d, s, i) ==> HiddenAt(s, i + 9)
  }

  predicate PathAt(d: char, s: string, i: int) {
    0 <= i && i + 9 <= |s| && s[i..i + 9] == [d] + ":\\Users\\"
  }

  predicate HiddenAt(s: string, i: nat) {
    i + 10 <= |s| && s[i..i + 10] == "<redacted>" && (i + 10 == |s| || s[i + 10] == '\\')
  }

  /** Behind every two backslashes in a row comes `[REDACTED_PATH]`. */
  ghost predicate PathsHidden(s: string) {
    forall i :: 0 <= i && i + 2 <= |s| && s[i] == '\\' && s[i + 1] == '\\'
      ==> i + 17 <= |s| && s[i + 2..i + 17] == "[REDACTED_PATH]"
  }

  lemma PathIsAt(d: Drive, s: string, i: int)
    ensures At(s, i, UsersPrefix(d)) <==> PathAt(d, s, i)
  {
    var p := UsersPrefix(d);
    if 0 <= i <= |s| {
      assert p <= s[i..] <==> 9 <= |s[i..]| && s[i..][..9] == p;
      if i + 9 <= |s| { assert s[i..][..9] == s[i..i + 9]; }
    }
  }

  lemma MarkedIsHidden(s: string, i: nat)
    requires i <= |s|
    ensures Marked(s[i..]) <==> HiddenAt(s, i)
  {
    MarkedChars(s[i..]);
    if i + 10 <= |s| { assert s[i..][..10] == s[i..i + 10]; }
  }

  lemma NamesHiddenIs(s: string)
    ensures NamesHidden(s) <==> forall d: Drive :: UserGuarded(d, s)
  {
    hide Marked, HiddenAt, UsersPrefix;
    if NamesHidden(s) {
      forall d: Drive, i | At(s, i, UsersPrefix(d)) ensures Marked(s[i + 9..]) {
        PathIsAt(d, s, i);
        MarkedIsHidden(s, i + 9);
      }
    }
    if forall d: Drive :: UserGuarded(d, s) {
      forall d: char, i | 'A' <= d <= 'Z' && PathAt(d, s, i) ensures HiddenAt(s, i + 9) {
        var x: Drive := d;
        PathIsAt(x, s, i);
        assert UserGuarded(x, s);
        MarkedIsHidden(s, i + 9);
      }
    }
  }

  lemma MarkerIs(s: string, i: int)
    requires 0 <= i && i + 2 <= |s|
    ensures At(s, i, "\\\\") <==> s[i] == '\\' && s[i + 1] == '\\'
    ensures PATH_MARK <= s[i + 2..] <==> i + 17 <= |s| && s[i + 2..i + 17] == "[REDACTED_PATH]"
  {
    BackslashChars(s[i..]);
    if i + 17 <= |s| { assert s[i + 2..][..15] == s[i + 2..i + 17]; }
  }

  lemma PathsHiddenIs(s: string)
    ensures PathsHidden(s) <==> UncGuarded(s)
  {
    if PathsHidden(s) {
      forall i | At(s, i, "\\\\") ensures PATH_MARK <= s[i + 2..] { MarkerIs(s, i); }
    }
    if UncGuarded(s) {
      forall i | 0 <= i && i + 2 <= |s| && s[i] == '\\' && s[i + 1] == '\\'
        ensures i + 17 <= |s| && s[i + 2..i + 17] == "[REDACTED_PATH]"
      {
        MarkerIs(s, i);
      }
    }
  }

  // ----- what becomes of a name and of a path

  lemma NameMatches(d: Drive, name: string, after: string)
    requires '\\' !in name && (after == [] || after[0] == '\\')
    ensures var q := UsersPrefix(d) + name + after;
            MatchLen(UserName(d), q) == 9 + |name| && q[9 + |name|..] == after
  {
    var q := UsersPrefix(d) + name + after;
    assert q[9..] == name + after;
    SegLenIs(name + after, |name|);
    hide UsersPrefix;
    assert q[..9] == UsersPrefix(d);
  }

  /** The first user name of a drive, up to the next backslash or the end, becomes the mark; the text before
      is kept, and the rest is rewritten by itself. */
  lemma NameIsReplaced(d: Drive, before: string, name: string, after: string)
    requires '\\' !in name && (after == [] || after[0] == '\\')
    requires forall i :: 0 <= i < |before| ==> !PathAt(d, before + ([d] + ":\\Users\\" + name + after), i)
    ensures Rewrite(UserName(d), before + ([d] + ":\\Users\\" + name + after))
            == before + ([d] + ":\\Users\\" + "<redacted>" + Rewrite(UserName(d), after))
  {
    var rule, q := UserName(d), UsersPrefix(d) + name + after;
    NameMatches(d, name, after);
    forall i | 0 <= i < |before| ensures MatchLen(rule, before[i..] + q) == 0 {
      PathIsAt(d, before + q, i);
      DropInFirst(before, q, i);
      UserMatchChars(d, before[i..] + q);
    }
    Unfold(rule, q);
    hide MatchLen, Rewrite;
    CopyForward(rule, before, q);
  }

  /** Two backslashes, a server, a share and what follows them. */
  function UncPath(server: string, share: string, after: string): string {
    "\\\\" + (server + ("\\" + (share + after)))
  }

  lemma PathMatches(server: string, share: string, after: string)
    requires '\\' !in server && '\\' !in share && (after == [] || after[0] == '\\')
    ensures var q := UncPath(server, share, after);
            && MatchLen(Unc, q) == 2 + |server| + (if after == [] then 0 else 1 + |share|)
            && q[MatchLen(Unc, q)..] == if after == [] then "\\" + share else after
  {
    var tail, q := share + after, UncPath(server, share, after);
    var rest := server + ("\\" + tail);
    PathParts(server, share, after);
    SegLenIs(rest, |server|);
    SegLenIs(tail, |share|);
    hide SegLen, UncPath;
    assert UncLen(q) == 2 + |server| + if after == [] then 0 else 1 + |share|;
  }

  lemma PathParts(server: string, share: string, after: string)
    ensures var tail, q := share + after, UncPath(server, share, after);
            var rest := server + ("\\" + tail);
            && q[..2] == "\\\\" && q[2..] == rest && rest[|server|] == '\\' && rest[|server| + 1..] == tail
            && (forall i :: 0 <= i < |server| ==> rest[i] == server[i])
            && q[2 + |server|..] == "\\" + tail && q[3 + |server| + |share|..] == after
            && (after == [] ==> tail == share)
  {
  }

  /** Of the first UNC path the server and the share become the mark, or only the server when nothing
      follows the share. */
  lemma PathIsReplaced(before: string, server: string, share: string, after: string)
    requires '\\' !in server && '\\' !in share && (after == [] || after[0] == '\\')
    requires var s := before + UncPath(server, share, after);
             forall i :: 0 <= i < |before| ==> !(s[i] == '\\' && s[i + 1] == '\\')
    ensures Rewrite(Unc, before + UncPath(server, share, after))
            == before + ("\\\\[REDACTED_PATH]" + if after == [] then "\\" + share else Rewrite(Unc, after))
  {
    var q := UncPath(server, share, after);
    PathMatches(server, share, after);
    PathBegins(server, share, after);
    Unfold(Unc, q);
    if after == [] { LoneShareKept(share); }
    hide MatchLen, Rewrite, UncPath;
    forall i | 0 <= i < |before| ensures MatchLen(Unc, before[i..] + q) == 0 {
      NoPairHere(before, q, i);
    }
    CopyForward(Unc, before, q);
  }

  lemma PathBegins(server: string, share: string, after: string)
    ensures UncPath(server, share, after) != []
  {
  }

  lemma NoPairHere(before: string, q: string, i: nat)
    requires i < |before| && q != [] && !((before + q)[i] == '\\' && (before + q)[i + 1] == '\\')
    ensures MatchLen(Unc, before[i..] + q) == 0
  {
    MarkerIs(before + q, i);
    DropInFirst(before, q, i);
    UncMatchChars(before[i..] + q);
  }

  lemma LoneShareKept(share: string)
    requires '\\' !in share
    ensures Rewrite(Unc, "\\" + share) == "\\" + share
  {
    var t := "\\" + share;
    forall i | 0 <= i < |t| ensures MatchLen(Unc, t[i..] + []) == 0 {
      assert t[i..] + [] == t[i..];
      BackslashChars(t[i..]);
      UncMatchChars(t[i..]);
    }
    CopyForward(Unc, t, []);
    EmptyKept(Unc);
    assert t + [] == t;
  }

  // ----- no pass brings an address to light

  /** The text r' differs from r only between two characters that no address has, with no colon from the
      first to the second. */
  ghost predicate Replaced(r: string, r': string, lo: nat, hi: nat, rest: nat) {
    && lo <= hi < |r'| && lo <= |r| && rest <= |r| && r'[..lo] == r[..lo] && r'[hi + 1..] == r[rest..]
    && !IsHexColon(r'[lo]) && !IsHexColon(r'[hi]) && forall k :: lo <= k <= hi ==> r'[k] != ':'
  }

  lemma StretchMoves(r: string, i: int, j: int, r': string, i': int)
    requires Stretch(r, i, j) && 0 <= i' && i' + (j - i) <= |r'| && r[i..j] == r'[i'..i' + (j - i)]
    ensures Stretch(r', i', i' + (j - i))
  {
    assert forall m :: i <= m < j ==> r[m] == r[i..j][m - i];
    assert forall m :: i' <= m < i' + (j - i) ==> r'[m] == r[i..j][m - i'] == r[m - i' + i];
    var a, b :| i <= a < b < j && r[a] == ':' && r[b] == ':';
    assert r'[a - i + i'] == ':' && r'[b - i + i'] == ':';
  }

  lemma NoNewStretch(r: string, r': string, lo: nat, hi: nat, rest: nat)
    requires Replaced(r, r', lo, hi, rest) && NoStretch(r)
    ensures NoStretch(r')
  {
    hide Stretch, IsHexColon;
    forall i, j ensures !Stretch(r', i, j) {
      if Stretch(r', i, j) {
        StretchChars(r', i, j);
        if j <= lo {
          SliceBefore(r', r, lo, i, j);
          StretchMoves(r', i, j, r, i);
        } else if i > hi {
          SliceBehind(r', r, hi + 1, rest, i, j);
          StretchMoves(r', i, j, r, i - (hi + 1) + rest);
        }
      }
    }
  }

  lemma StretchChars(s: string, i: int, j: int)
    requires Stretch(s, i, j)
    ensures 0 <= i < j <= |s| && forall m :: i <= m < j ==> IsHexColon(s[m])
    ensures exists a :: i <= a < j && s[a] == ':'
  {
    forall m | i <= m < j ensures IsHexColon(s[m]) { HexChars(s[m]); }
  }

  lemma SliceBefore(s: string, t: string, n: nat, i: nat, j: nat)
    requires i <= j <= n <= |s| && n <= |t| && s[..n] == t[..n]
    ensures s[i..j] == t[i..j]
  {
    assert s[i..j] == s[..n][i..j] && t[i..j] == t[..n][i..j];
  }

  lemma SliceBehind(s: string, t: string, n: nat, n': nat, i: nat, j: nat)
    requires n <= i <= j <= |s| && n' <= |t| && s[n..] == t[n'..]
    ensures j - n + n' <= |t| && s[i..j] == t[i - n + n'..j - n + n']
  {
    assert |s[n..]| == |t[n'..]|;
    assert forall m :: i <= m < j ==> s[m] == s[n..][m - n] == t[n'..][m - n] == t[m - n + n'];
  }

  lemma UncMarkShape()
    ensures var m := Mark(Unc);
            && |m| == 17 && !IsHexColon(m[0]) && !IsHexColon(m[16]) && forall k :: 0 <= k < 17 ==> m[k] != ':'
  {
  }

  lemma UserMarkShape(d: Drive)
    ensures var m := Mark(UserName(d));
            && |m| == 19 && !IsHexColon(m[2]) && !IsHexColon(m[18]) && m[0] == d && m[1] == ':'
            && forall k :: 2 <= k < 19 ==> m[k] != ':'
  {
  }

  lemma UncMarkPlain(r: string, h: nat, n: nat)
    requires h + n <= |r|
    ensures Replaced(r, r[..h] + Mark(Unc) + r[h + n..], h, h + 16, h + n)
  {
    var m := Mark(Unc);
    var r' := r[..h] + m + r[h + n..];
    UncMarkShape();
    hide Mark, IsHexColon;
    assert forall k :: 0 <= k < 17 ==> r'[h + k] == m[k];
    assert r'[..h] == r[..h] && r'[h + 17..] == r[h + n..];
  }

  lemma UserMarkPlain(d: Drive, r: string, h: nat, n: nat)
    requires h + n <= |r| && At(r, h, UsersPrefix(d))
    ensures Replaced(r, r[..h] + Mark(UserName(d)) + r[h + n..], h + 2, h + 18, h + n)
  {
    var m := Mark(UserName(d));
    var r' := r[..h] + m + r[h + n..];
    UserMarkShape(d);
    PrefixChars(d, r[h..]);
    hide Mark, IsHexColon, UsersPrefix;
    assert r[h] == r[h..][0] == d && r[h + 1] == r[h..][1] == ':';
    assert forall k :: 0 <= k < 19 ==> r'[h + k] == m[k];
    assert r[..h + 2] == r[..h] + [d, ':'];
    assert r'[..h + 2] == r[..h + 2] && r'[h + 19..] == r[h + n..];
  }

  lemma HitKeepsStretches(rule: Rule, p: string, u: string, z: string)
    requires NoStretch(p + u + z) && rule != Ipv6 && (rule.UserName? ==> UsersPrefix(rule.drive) <= u)
    ensures NoStretch(Hit(rule, p, u) + z)
  {
    hide *;
    var h := HitIs(rule, p, u);
    if rule.UserName? { FoundPath(rule.drive, p + u, h, u, z); }
    HitMakesNoStretch(rule, p + u, z, h, |u|);
  }

  lemma HitMakesNoStretch(rule: Rule, s: string, z: string, h: nat, n: nat)
    requires NoStretch(s + z) && h + n <= |s| && rule != Ipv6
    requires rule.UserName? ==> At(s + z, h, UsersPrefix(rule.drive))
    ensures NoStretch(s[..h] + Mark(rule) + s[h + n..] + z)
  {
    hide *;
    Assemble(s, z, Mark(rule), h, n);
    MarkMakesNoStretch(rule, s + z, h, n);
  }

  lemma MarkMakesNoStretch(rule: Rule, r: string, h: nat, n: nat)
    requires NoStretch(r) && h + n <= |r| && rule != Ipv6 && (rule.UserName? ==> At(r, h, UsersPrefix(rule.drive)))
    ensures NoStretch(r[..h] + Mark(rule) + r[h + n..])
  {
    hide *;
    if rule.UserName? {
      UserMarkPlain(rule.drive, r, h, n);
      NoNewStretch(r, r[..h] + Mark(rule) + r[h + n..], h + 2, h + 18, h + n);
    } else {
      UncMarkPlain(r, h, n);
      NoNewStretch(r, r[..h] + Mark(rule) + r[h + n..], h, h + 16, h + n);
    }
  }

  lemma FoundPath(d: Drive, s: string, h: nat, u: string, z: string)
    requires At(s, h, u) && UsersPrefix(d) <= u
    ensures At(s + z, h, UsersPrefix(d))
  {
    hide UsersPrefix;
    DropInFirst(s, z, h);
    assert UsersPrefix(d) <= u <= s[h..] <= s[h..] + z;
  }

  lemma MatchIsPath(rule: Rule, q: string)
    ensures rule.UserName? && MatchLen(rule, q) > 0 ==> UsersPrefix(rule.drive) <= q[..MatchLen(rule, q)]
  {
  }

  /** Neither loop makes a stretch that was not there. */
  lemma {:induction false} LoopKeepsStretches(rule: Rule, p: string, q: string)
    requires NoStretch(p + q) && rule != Ipv6
    ensures NoStretch(Looped(rule, p, q))
    decreases |q|
  {
    MatchIsPath(rule, q);
    hide NoStretch, Hit, MatchLen, UsersPrefix;
    if q == [] {
      assert p + q == p;
    } else if MatchLen(rule, q) == 0 {
      assert p + q == (p + [q[0]]) + q[1..];
      LoopKeepsStretches(rule, p + [q[0]], q[1..]);
    } else {
      var n := MatchLen(rule, q);
      assert p + q == p + q[..n] + q[n..];
      HitKeepsStretches(rule, p, q[..n], q[n..]);
      LoopKeepsStretches(rule, Hit(rule, p, q[..n]), q[n..]);
    }
  }

  lemma {:induction false} NamesKeepStretches(s: string, n: nat)
    requires NoStretch(s) && n <= 26
    ensures NoStretch(LoopedNames(s, n))
  {
    if n > 0 {
      NamesKeepStretches(s, n - 1);
      var t := LoopedNames(s, n - 1);
      assert [] + t == t;
      hide NoStretch, LoopedNames;
      LoopKeepsStretches(UserName(DriveAt(n - 1)), [], t);
    }
  }
}
