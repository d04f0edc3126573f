/** The two library string operations the redaction passes use, on character sequences. */
module Strings {

  /** pat occurs in s at position i. */
  predicate At(s: string, i: int, pat: string) {
    0 <= i <= |s| && pat <= s[i..]
  }

  /** Rust's `str::find`: the first position of pat, or -1 where Rust answers None. */
  function Find(s: string, pat: string): (r: int)
    ensures -1 <= r <= |s|
    ensures r >= 0 ==> At(s, r, pat)
    ensures forall i :: At(s, i, pat) ==> 0 <= r <= i
  {
    if pat <= s then 0
    else if s == [] then -1
    else
      var r := Find(s[1..], pat);
      assert forall i :: At(s, i, pat) ==> i > 0 && s[i..] == s[1..][i - 1..] && At(s[1..], i - 1, pat);
      assert r >= 0 ==> s[1..][r..] == s[r + 1..];
      if r < 0 then -1 else r + 1
  }

  /** Rust's `str::replacen(pat, rep, 1)`: the FIRST occurrence in the whole string. */
  function ReplaceFirst(s: string, pat: string, rep: string): string {
    var r := Find(s, pat);
    if r < 0 then s else s[..r] + rep + s[r + |pat|..]
  }

  /** Length of the longest prefix of s without a backslash. */
  function SegLen(s: string): (r: nat)
    ensures r <= |s|
    ensures '\\' !in s[..r]
    ensures r < |s| ==> s[r] == '\\'
  {
    if s == [] || s[0] == '\\' then 0
    else
      var r := SegLen(s[1..]);
      assert s[..r + 1] == [s[0]] + s[1..][..r];
      r + 1
  }

  lemma {:induction false} SegLenIs(s: string, n: nat)
    requires n <= |s| && (forall i :: 0 <= i < n ==> s[i] != '\\') && (n == |s| || s[n] == '\\')
    ensures SegLen(s) == n
  {
    if n > 0 {
      SegLenIs(s[1..], n - 1);
    }
  }

  lemma FindSeparator(s: string)
    ensures Find(s, "\\") == if SegLen(s) < |s| then SegLen(s) else -1
  {
    var n, f := SegLen(s), Find(s, "\\");
    assert n < |s| ==> At(s, n, "\\");
    assert f >= 0 ==> "\\"[0] == s[f..][0] == s[f];
    assert forall i :: 0 <= i < n ==> s[i] == s[..n][i] && s[i] != '\\';
  }

  /** Replacing a string by itself changes nothing, whichever occurrence is hit. */
  lemma ReplaceSame(s: string, pat: string)
    ensures ReplaceFirst(s, pat, pat) == s
  {
    var r := Find(s, pat);
    hide Find;
    if r >= 0 {
      Occurrence(s, r, pat);
    }
  }

  lemma Occurrence(s: string, i: nat, pat: string)
    requires At(s, i, pat)
    ensures i + |pat| <= |s| && s == s[..i] + pat + s[i + |pat|..]
  {
    assert s[i..] == pat + s[i..][|pat|..];
    assert s[i..][|pat|..] == s[i + |pat|..];
    assert s == s[..i] + s[i..];
  }

  lemma TakeOneMore(s: string, j: nat)
    ensures j + 1 <= |s| ==> s[..j + 1] == [s[0]] + s[1..][..j]
  {
  }

  lemma Associate(a: string, b: string, c: string)
    ensures a + (b + c) == a + b + c
  {
  }

  lemma DropNone(s: string)
    ensures s[0..] == s
  {
  }

  lemma DropTwice(s: string, a: nat, b: nat)
    ensures a + b <= |s| ==> s[a..][b..] == s[a + b..]
  {
  }

  lemma DropInFirst(s: string, t: string, i: nat)
    requires i <= |s|
    ensures (s + t)[i..] == s[i..] + t
  {
  }

  lemma DropInSecond(s: string, t: string, i: nat)
    requires |s| <= i <= |s| + |t|
    ensures (s + t)[i..] == t[i - |s|..]
  {
  }

  lemma AtCommon(s: string, s': string, n: nat, i: int, pat: string)
    requires n <= |s| && n <= |s'| && s[..n] == s'[..n] && i + |pat| <= n
    ensures At(s, i, pat) == At(s', i, pat)
  {
    if 0 <= i {
      assert s[i..][..|pat|] == s[..n][i..i + |pat|];
      assert s'[i..][..|pat|] == s'[..n][i..i + |pat|];
    }
  }

  lemma AtSuffix(s: string, c: nat, s': string, c': nat, k: nat, pat: string)
    requires c <= |s| && c' <= |s'| && s[c..] == s'[c'..] && c + k <= |s|
    ensures At(s, c + k, pat) == At(s', c' + k, pat)
  {
    DropTwice(s, c, k);
    DropTwice(s', c', k);
  }

  lemma AtLonger(s: string, i: int, pat: string, more: string)
    requires At(s, i, pat + more)
    ensures At(s, i, pat) && i + |pat| + |more| <= |s| && s[i + |pat|..][..|more|] == more
  {
    assert s[i..][..|pat| + |more|] == pat + more;
    assert s[i..][..|pat|] == pat;
    DropTwice(s, i, |pat|);
    assert s[i..][|pat|..][..|more|] == s[i..][..|pat| + |more|][|pat|..];
  }

  lemma AtInside(s: string, i: int, pat: string)
    ensures At(s, i, pat) ==> 0 <= i && i + |pat| <= |s|
  {
  }

  lemma PrefixIndex(s: string, pat: string, i: nat)
    requires i < |pat|
    ensures pat <= s ==> i < |s| && s[i] == pat[i]
  {
  }

  lemma TakeDropped(s: string, a: nat, n: nat)
    ensures a + n <= |s| ==> s[a..][..n] == s[a..a + n]
  {
  }

  lemma TakeOffset(r: string, offset: nat, start: nat, mark: string, z: string)
    requires offset <= start <= |r|
    ensures r[..offset] + (r[offset..start] + mark + z) == r[..start] + mark + z
  {
    assert r[..offset] + r[offset..start] == r[..start];
  }

  lemma TakeWhole(a: string, b: string)
    ensures (a + b)[..|a|] == a
  {
  }

  lemma HeadTail(t: string, pat: string)
    ensures pat <= t ==> t == pat + t[|pat|..]
  {
  }

  lemma AtFound(r: string, offset: nat, rel: nat, pat: string)
    requires offset <= |r| && rel == Find(r[offset..], pat)
    ensures offset + rel + |pat| <= |r| && r[offset + rel..] == pat + r[offset + rel + |pat|..]
  {
    var start := offset + rel;
    hide Find;
    DropTwice(r, offset, rel);
    HeadTail(r[start..], pat);
    DropTwice(r, start, |pat|);
  }

  lemma SegmentParts(r: string, a: nat, n: nat)
    requires a <= |r| && n == SegLen(r[a..])
    ensures a + n <= |r| && '\\' !in r[a..a + n] && (r[a + n..] == [] || r[a + n..][0] == '\\')
    ensures r[a..] == r[a..a + n] + r[a + n..]
  {
    TakeDropped(r, a, n);
  }
}
