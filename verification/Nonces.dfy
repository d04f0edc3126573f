/**
  Replay protection of the elevated helper: the freshness window of a signed payload, and
  the nonce map, kept in memory by one helper process and on disk between processes.
 */
module Nonces {
  import opened Wrappers

  type Nonce = string

  /** When each nonce was recorded, in seconds. */
  type Stamps = map<Nonce, nat>

  const U64_MAX: nat := 0xFFFF_FFFF_FFFF_FFFF
  const MAX_COMMAND_AGE_MS: nat := 30_000
  const NONCE_TTL_SECS: nat := 300

  function SatSub(a: nat, b: nat): nat { if a < b then 0 else a - b }

  function SatAdd(a: nat, b: nat): nat { if a + b > U64_MAX then U64_MAX else a + b }

  /** Thirty seconds of clock skew in either direction. */
  predicate Fresh(nowMs: nat, createdMs: nat) {
    SatSub(createdMs, MAX_COMMAND_AGE_MS) <= nowMs <= SatAdd(createdMs, MAX_COMMAND_AGE_MS)
  }

  function Secs(ms: nat): nat { ms / 1000 }

  /** What loading keeps of the stored map: entries younger than five minutes. */
  function Purge(stored: Stamps, nowSecs: nat): Stamps {
    map n | n in stored && SatSub(nowSecs, stored[n]) < NONCE_TTL_SECS :: stored[n]
  }

  /** The map a helper works with: its own, or the stored one on first use. */
  function Base(seen: Option<Stamps>, stored: Stamps, nowSecs: nat): Stamps {
    if seen.Some? then seen.value else Purge(stored, nowSecs)
  }

  /** Acceptances since the map size was last a multiple of three. */
  function SinceBatch(size: nat): nat { size % 3 }

  /** The stored map after an acceptance: written when the size is a multiple of three. */
  function BatchSaved(m: Stamps, stored: Stamps, saveOk: bool): Stamps {
    if SinceBatch(|m|) == 0 && saveOk then m else stored
  }

  /** One nonce check: the maps afterwards and whether the nonce was new. */
  datatype Admission = Admission(seen: Stamps, stored: Stamps, isNew: bool)

  function Admit(seen: Option<Stamps>, stored: Stamps, n: Nonce, nowSecs: nat, saveOk: bool): Admission {
    var base := Base(seen, stored, nowSecs);
    if n in base then Admission(base, stored, false)
    else
      var m := base[n := nowSecs];
      Admission(m, BatchSaved(m, stored, saveOk), true)
  }

  /** The nonces a helper holds that the store does not. */
  function Unsaved(m: Stamps, stored: Stamps): set<Nonce> { m.Keys - stored.Keys }

  // ----- what the window and the purge mean together

  /** A payload may be dated up to skewMs ahead of the clock that stamps its nonce. A helper that records
      a nonce at most this long after checking the payload's freshness records it before the purge can
      have forgotten an earlier stamp. */
  function RecordGapMs(skewMs: nat): nat
    requires skewMs <= MAX_COMMAND_AGE_MS
  {
    1000 * NONCE_TTL_SECS - MAX_COMMAND_AGE_MS - skewMs - 1000
  }

  /** With one clock no payload is dated ahead. */
  const RECORD_GAP_MS: nat := RecordGapMs(0)

  /** Too old to be recorded by such a helper. */
  predicate Retired(nowMs: nat, createdMs: nat, skewMs: nat)
    requires skewMs <= MAX_COMMAND_AGE_MS
  {
    nowMs > createdMs + MAX_COMMAND_AGE_MS + RecordGapMs(skewMs)
  }

  /** A stamp taken when the payload was dated at most skewMs ahead. */
  predicate StampOk(createdMs: nat, stampSecs: nat, skewMs: nat) {
    1000 * stampSecs + 999 + skewMs >= createdMs
  }

  lemma FreshBounds(nowMs: nat, createdMs: nat)
    ensures Fresh(nowMs, createdMs)
            ==> createdMs <= nowMs + MAX_COMMAND_AGE_MS && nowMs <= createdMs + MAX_COMMAND_AGE_MS
  {
  }

  lemma RecordedStampOk(nowMs: nat, createdMs: nat, skewMs: nat)
    ensures createdMs <= nowMs + skewMs ==> StampOk(createdMs, Secs(nowMs), skewMs)
  {
  }

  /** Whatever the skew, the stamp of a payload that was fresh is good for the greatest one. */
  lemma FreshStampOk(checkedMs: nat, nowMs: nat, createdMs: nat)
    requires Fresh(checkedMs, createdMs) && checkedMs <= nowMs
    ensures StampOk(createdMs, Secs(nowMs), MAX_COMMAND_AGE_MS)
  {
    FreshBounds(checkedMs, createdMs);
  }

  /** The purge never forgets a nonce whose payload could still pass the freshness check. */
  lemma PurgedIsRetired(n: Nonce, stored: Stamps, nowMs: nat, createdMs: nat, skewMs: nat)
    requires skewMs <= MAX_COMMAND_AGE_MS
    requires n in stored && StampOk(createdMs, stored[n], skewMs) && n !in Purge(stored, Secs(nowMs))
    ensures Retired(nowMs, createdMs, skewMs)
  {
  }

  lemma RecordableIsNotRetired(checkedMs: nat, nowMs: nat, createdMs: nat, skewMs: nat)
    requires skewMs <= MAX_COMMAND_AGE_MS && Fresh(checkedMs, createdMs) && nowMs <= checkedMs + RecordGapMs(skewMs)
    ensures !Retired(nowMs, createdMs, skewMs)
  {
    FreshBounds(checkedMs, createdMs);
  }

  /** The bound is tight for every skew: one millisecond more, and a payload accepted as early as
      possible can be forgotten and accepted again. */
  lemma GapIsTight(skewMs: nat)
    requires skewMs <= MAX_COMMAND_AGE_MS
    ensures exists createdMs: nat, firstMs: nat, checkedMs: nat, nowMs: nat ::
              && createdMs <= firstMs + skewMs && Fresh(firstMs, createdMs) && Fresh(checkedMs, createdMs)
              && nowMs == checkedMs + RecordGapMs(skewMs) + 1
              && !("n" in Purge(map["n" := Secs(firstMs)], Secs(nowMs)))
  {
    var createdMs: nat, firstMs: nat := 999 + skewMs, 999;
    var checkedMs: nat := createdMs + MAX_COMMAND_AGE_MS;
    var nowMs: nat := checkedMs + RecordGapMs(skewMs) + 1;
    assert Secs(firstMs) == 0 && Secs(nowMs) == 300;
    assert Fresh(firstMs, createdMs) && Fresh(checkedMs, createdMs);
  }

  // ----- the bounded loss of a killed helper

  lemma InsertKeys(m: Stamps, n: Nonce, secs: nat)
    requires n !in m
    ensures m[n := secs].Keys == m.Keys + {n} && |m[n := secs]| == |m| + 1
  {
    var m' := m[n := secs];
    assert m'.Keys == m.Keys + {n};
    assert |m'| == |m'.Keys| && |m| == |m.Keys|;
  }

  lemma NothingUnsaved(m: Stamps, stored: Stamps)
    requires m.Keys <= stored.Keys
    ensures |Unsaved(m, stored)| == 0
  {
    assert Unsaved(m, stored) == {};
  }

  lemma OneMoreUnsaved(m: Stamps, stored: Stamps, n: Nonce, secs: nat)
    requires n !in m
    ensures |Unsaved(m[n := secs], stored)| <= |Unsaved(m, stored)| + 1
  {
    InsertKeys(m, n, secs);
    assert Unsaved(m[n := secs], stored) <= Unsaved(m, stored) + {n};
    SubsetSize(Unsaved(m[n := secs], stored), Unsaved(m, stored) + {n});
  }

  /** As long as batch saves succeed, the unsaved nonces are at most the map size modulo three. */
  lemma UnsavedBounded(seen: Option<Stamps>, stored: Stamps, n: Nonce, nowSecs: nat)
    requires seen.Some? ==> |Unsaved(seen.value, stored)| <= SinceBatch(|seen.value|)
    ensures var a := Admit(seen, stored, n, nowSecs, true);
            |Unsaved(a.seen, a.stored)| <= SinceBatch(|a.seen|)
  {
    var base := Base(seen, stored, nowSecs);
    BaseUnsaved(seen, stored, nowSecs);
    AdmitNew(seen, stored, n, nowSecs, true);
    hide *;
    if n !in base {
      InsertKeys(base, n, nowSecs);
      NextModThree(|base|);
      OneMoreUnsaved(base, stored, n, nowSecs);
      NothingUnsaved(base[n := nowSecs], base[n := nowSecs]);
    }
  }

  lemma BaseUnsaved(seen: Option<Stamps>, stored: Stamps, nowSecs: nat)
    ensures |Unsaved(Base(seen, stored, nowSecs), stored)| <= if seen.Some? then |Unsaved(seen.value, stored)| else 0
    ensures seen.Some? ==> Base(seen, stored, nowSecs) == seen.value
  {
    if seen.None? { NothingUnsaved(Base(seen, stored, nowSecs), stored); }
  }

  lemma AdmitNew(seen: Option<Stamps>, stored: Stamps, n: Nonce, nowSecs: nat, saveOk: bool)
    ensures var a, base := Admit(seen, stored, n, nowSecs, saveOk), Base(seen, stored, nowSecs);
            if n in base then a == Admission(base, stored, false)
            else && a.isNew && a.seen == base[n := nowSecs]
                 && a.stored == if SinceBatch(|a.seen|) == 0 && saveOk then a.seen else stored
  {
  }

  lemma NextModThree(k: nat)
    ensures SinceBatch(k + 1) == if SinceBatch(k) == 2 then 0 else SinceBatch(k) + 1
    ensures SinceBatch(k) <= 2
    ensures LastMultiple(k + 1) == if SinceBatch(k) == 2 then k + 1 else LastMultiple(k)
    ensures LastMultiple(k) <= k
  {
  }

  lemma {:induction false} SubsetSize<T>(a: set<T>, b: set<T>)
    requires a <= b
    ensures |a| <= |b|
  {
    assert b == a + (b - a);
  }

  // ----- two helpers at once

  datatype Maps = Maps(seen: Stamps, stored: Stamps)

  /** The maps of a helper after it has accepted the nonces ns in turn. */
  function AcceptAll(m: Stamps, stored: Stamps, ns: seq<Nonce>, nowSecs: nat): Maps
    decreases |ns|
  {
    if ns == [] then Maps(m, stored)
    else
      var before := AcceptAll(m, stored, ns[..|ns| - 1], nowSecs);
      var a := Admit(Some(before.seen), before.stored, ns[|ns| - 1], nowSecs, true);
      Maps(a.seen, a.stored)
  }

  predicate Distinct(ns: seq<Nonce>) {
    forall i, j :: 0 <= i < j < |ns| ==> ns[i] != ns[j]
  }

  predicate NewTo(m: Stamps, ns: seq<Nonce>) {
    forall i :: 0 <= i < |ns| ==> ns[i] !in m
  }

  /** The last multiple of three up to k: the map size at the last write. */
  function LastMultiple(k: nat): nat { k - k % 3 }

  lemma {:induction false} AcceptedKeys(m: Stamps, ns: seq<Nonce>, nowSecs: nat, n: Nonce)
    ensures n in AcceptAll(m, m, ns, nowSecs).seen <==> n in m || n in ns
    decreases |ns|
  {
    if ns != [] {
      var front, last := ns[..|ns| - 1], ns[|ns| - 1];
      AcceptedKeys(m, front, nowSecs, n);
      assert n in ns <==> n in front || n == last by { assert ns == front + [last]; }
    }
  }

  lemma AcceptStep(m: Stamps, ns: seq<Nonce>, nowSecs: nat)
    requires ns != [] && Distinct(ns) && NewTo(m, ns)
    ensures var before, last := AcceptAll(m, m, ns[..|ns| - 1], nowSecs), ns[|ns| - 1];
            && last !in before.seen
            && AcceptAll(m, m, ns, nowSecs).seen == before.seen[last := nowSecs]
            && AcceptAll(m, m, ns, nowSecs).stored == BatchSaved(before.seen[last := nowSecs], before.stored, true)
  {
    AcceptedKeys(m, ns[..|ns| - 1], nowSecs, ns[|ns| - 1]);
  }

  lemma {:induction false} AcceptedSize(m: Stamps, ns: seq<Nonce>, nowSecs: nat)
    requires Distinct(ns) && NewTo(m, ns)
    ensures |AcceptAll(m, m, ns, nowSecs).seen| == |m| + |ns|
    decreases |ns|
  {
    if ns != [] {
      AcceptStep(m, ns, nowSecs);
      hide AcceptAll;
      AcceptedSize(m, ns[..|ns| - 1], nowSecs);
      InsertKeys(AcceptAll(m, m, ns[..|ns| - 1], nowSecs).seen, ns[|ns| - 1], nowSecs);
    }
  }

  lemma {:induction false} NotYetStored(m: Stamps, ns: seq<Nonce>, n: Nonce, nowSecs: nat)
    requires Distinct(ns) && NewTo(m, ns) && n !in ns && n !in m
    ensures n !in AcceptAll(m, m, ns, nowSecs).stored
    decreases |ns|
  {
    if ns != [] {
      var front := ns[..|ns| - 1];
      AcceptStep(m, ns, nowSecs);
      AcceptedKeys(m, front, nowSecs, n);
      assert n !in front && n != ns[|ns| - 1];
      NotYetStored(m, front, n, nowSecs);
      hide AcceptAll;
    }
  }

  /** Exactly when an accepted nonce is on disk while its helper still runs: when the map size
      has reached a multiple of three at or after it. */
  lemma {:induction false} OnDiskExactly(m: Stamps, ns: seq<Nonce>, k: nat, nowSecs: nat)
    requires k < |ns| && Distinct(ns) && NewTo(m, ns)
    ensures ns[k] in AcceptAll(m, m, ns, nowSecs).stored <==> |m| + k + 1 <= LastMultiple(|m| + |ns|)
    decreases |ns|
  {
    var front, last := ns[..|ns| - 1], ns[|ns| - 1];
    NextModThree(|m| + |front|);
    hide AcceptAll, LastMultiple, SinceBatch;
    StoredStep(m, ns, k, nowSecs);
    if k < |front| {
      OnDiskExactly(m, front, k, nowSecs);
    } else {
      NotYetStored(m, front, last, nowSecs);
    }
  }

  /** The last acceptance writes everything, or leaves the store as it was. */
  lemma StoredStep(m: Stamps, ns: seq<Nonce>, k: nat, nowSecs: nat)
    requires k < |ns| && Distinct(ns) && NewTo(m, ns)
    ensures ns[k] in AcceptAll(m, m, ns, nowSecs).stored
            <==> SinceBatch(|m| + |ns|) == 0 || ns[k] in AcceptAll(m, m, ns[..|ns| - 1], nowSecs).stored
  {
    AcceptStep(m, ns, nowSecs);
    AcceptedSize(m, ns, nowSecs);
    AcceptedKeys(m, ns, nowSecs, ns[k]);
    KeptStored(m, ns[..|ns| - 1], ns[k], nowSecs);
    hide AcceptAll, SinceBatch, NewTo, Distinct;
  }

  lemma {:induction false} KeptStored(m: Stamps, ns: seq<Nonce>, n: Nonce, nowSecs: nat)
    ensures n in AcceptAll(m, m, ns, nowSecs).stored ==> n in AcceptAll(m, m, ns, nowSecs).seen
    decreases |ns|
  {
    if ns != [] {
      KeptStored(m, ns[..|ns| - 1], n, nowSecs);
    }
  }

  /** The consequence: while one helper runs, another one that starts accepts the same nonce a
      second time exactly when the first one's map reached no multiple of three since. */
  lemma OverlapAcceptsAgain(m: Stamps, ns: seq<Nonce>, k: nat, nowSecs: nat)
    requires k < |ns| && Distinct(ns) && NewTo(m, ns)
    ensures Admit(None, AcceptAll(m, m, ns, nowSecs).stored, ns[k], nowSecs, true).isNew
            <==> LastMultiple(|m| + |ns|) < |m| + k + 1
  {
    OnDiskExactly(m, ns, k, nowSecs);
    StoredRecently(m, ns, ns[k], nowSecs);
    hide AcceptAll, Distinct;
  }

  lemma {:induction false} StoredRecently(m: Stamps, ns: seq<Nonce>, n: Nonce, nowSecs: nat)
    requires n !in m
    ensures var a := AcceptAll(m, m, ns, nowSecs);
            (n in a.seen ==> a.seen[n] == nowSecs) && (n in a.stored ==> a.stored[n] == nowSecs)
    decreases |ns|
  {
    if ns != [] {
      StoredRecently(m, ns[..|ns| - 1], n, nowSecs);
    }
  }
}
