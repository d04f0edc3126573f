/**
  Which commands a helper takes up, and in which order: the pending command files of the
  directory, oldest first, and those of one age as the directory lists them.
 */
module Selection {
  import opened Wrappers
  import opened Names

  /** A directory entry; a name that is not Unicode and an unreadable time are None. */
  datatype Entry = Entry(name: Option<string>, mtime: Option<nat>)

  datatype Candidate = Candidate(mtime: nat, id: string)

  // ----- the library's stable sort

  function Insert(c: Candidate, cs: seq<Candidate>): seq<Candidate> {
    if cs == [] || c.mtime <= cs[0].mtime then [c] + cs else [cs[0]] + Insert(c, cs[1..])
  }

  function SortByTime(cs: seq<Candidate>): seq<Candidate> {
    if cs == [] then [] else Insert(cs[0], SortByTime(cs[1..]))
  }

  predicate OldestFirst(cs: seq<Candidate>) {
    forall i, j :: 0 <= i <= j < |cs| ==> cs[i].mtime <= cs[j].mtime
  }

  /** The candidates of one age, in their order. */
  function OfTime(cs: seq<Candidate>, t: nat): seq<Candidate> {
    if cs == [] then [] else (if cs[0].mtime == t then [cs[0]] else []) + OfTime(cs[1..], t)
  }

  lemma {:induction false} InsertSorted(c: Candidate, cs: seq<Candidate>)
    requires OldestFirst(cs)
    ensures OldestFirst(Insert(c, cs))
  {
    if cs != [] && c.mtime > cs[0].mtime {
      InsertSorted(c, cs[1..]);
      InsertOlder(c, cs[1..], cs[0].mtime);
      hide Insert;
    }
  }

  lemma {:induction false} InsertAdds(c: Candidate, cs: seq<Candidate>)
    ensures multiset(Insert(c, cs)) == multiset{c} + multiset(cs)
  {
    if cs != [] && c.mtime > cs[0].mtime {
      InsertAdds(c, cs[1..]);
      assert cs == [cs[0]] + cs[1..];
    }
  }

  lemma OfTimeFirst(c: Candidate, cs: seq<Candidate>, t: nat)
    ensures OfTime([c] + cs, t) == (if c.mtime == t then [c] else []) + OfTime(cs, t)
  {
    assert ([c] + cs)[1..] == cs;
  }

  lemma {:induction false} InsertKeepsOrder(c: Candidate, cs: seq<Candidate>, t: nat)
    ensures OfTime(Insert(c, cs), t) == (if c.mtime == t then [c] else []) + OfTime(cs, t)
  {
    hide OfTime;
    OfTimeFirst(c, cs, t);
    if cs != [] && c.mtime > cs[0].mtime {
      assert cs == [cs[0]] + cs[1..];
      InsertKeepsOrder(c, cs[1..], t);
      OfTimeFirst(cs[0], Insert(c, cs[1..]), t);
      OfTimeFirst(cs[0], cs[1..], t);
    }
  }

  lemma {:induction false} InsertOlder(c: Candidate, cs: seq<Candidate>, t: nat)
    requires t <= c.mtime && forall i :: 0 <= i < |cs| ==> t <= cs[i].mtime
    ensures forall i :: 0 <= i < |Insert(c, cs)| ==> t <= Insert(c, cs)[i].mtime
  {
    if cs != [] && c.mtime > cs[0].mtime {
      InsertOlder(c, cs[1..], t);
    }
  }

  /** The sort reorders, oldest first, and keeps the order of candidates of one age. */
  lemma {:induction false} SortFacts(cs: seq<Candidate>)
    ensures OldestFirst(SortByTime(cs))
    ensures multiset(SortByTime(cs)) == multiset(cs)
    ensures forall t :: OfTime(SortByTime(cs), t) == OfTime(cs, t)
  {
    if cs != [] {
      SortFacts(cs[1..]);
      InsertSorted(cs[0], SortByTime(cs[1..]));
      InsertAdds(cs[0], SortByTime(cs[1..]));
      assert cs == [cs[0]] + cs[1..];
      forall t ensures OfTime(SortByTime(cs), t) == OfTime(cs, t) {
        InsertKeepsOrder(cs[0], SortByTime(cs[1..]), t);
      }
    }
  }

  /** No other list is ordered that way: the result of any stable sort is this one. */
  lemma {:induction false} StableSortIsUnique(a: seq<Candidate>, b: seq<Candidate>)
    requires OldestFirst(a) && OldestFirst(b) && forall t :: OfTime(a, t) == OfTime(b, t)
    ensures a == b
  {
    if a != [] { BothEmpty(a, b); }
    if b != [] { BothEmpty(b, a); }
    if a != [] {
      FirstIsOldest(a, b[0].mtime);
      FirstIsOldest(b, a[0].mtime);
      assert OfTime(a, b[0].mtime) == OfTime(b, b[0].mtime);
      assert OfTime(a, a[0].mtime) == OfTime(b, a[0].mtime);
      assert a[0] == OfTime(a, a[0].mtime)[0] && b[0] == OfTime(b, b[0].mtime)[0];
      forall t ensures OfTime(a[1..], t) == OfTime(b[1..], t) {
        assert OfTime(a, t) == OfTime(b, t);
        assert OfTime(a[1..], t) == if a[0].mtime == t then OfTime(a, t)[1..] else OfTime(a, t);
      }
      StableSortIsUnique(a[1..], b[1..]);
      assert a == [a[0]] + a[1..] && b == [b[0]] + b[1..];
    }
  }

  lemma BothEmpty(a: seq<Candidate>, b: seq<Candidate>)
    requires a != [] && forall t :: OfTime(a, t) == OfTime(b, t)
    ensures b != [] && OfTime(b, a[0].mtime) != [] && OfTime(a, b[0].mtime) != []
  {
    assert OfTime(a, a[0].mtime) == OfTime(b, a[0].mtime);
    assert OfTime(a, a[0].mtime) != [];
    assert OfTime(a, b[0].mtime) == OfTime(b, b[0].mtime);
  }

  lemma {:induction false} FirstIsOldest(cs: seq<Candidate>, t: nat)
    requires OldestFirst(cs) && OfTime(cs, t) != []
    ensures cs != [] && cs[0].mtime <= t
  {
    if cs[0].mtime != t {
      FirstIsOldest(cs[1..], t);
    }
  }

  // ----- what is pending

  function Pending(files: set<string>, listing: seq<Entry>): seq<Candidate> {
    if listing == [] then []
    else
      var e := listing[|listing| - 1];
      var id := if e.name.Some? then IdOfCmdFile(e.name.value) else None;
      Pending(files, listing[..|listing| - 1])
      + if id.None? || ResultFileName(id.value) in files then []
        else [Candidate(if e.mtime.Some? then e.mtime.value else 0, id.value)]
  }

  /** The listing shows each file of the directory once, and nothing else. */
  predicate Lists(listing: seq<Entry>, files: set<string>) {
    && (forall i :: 0 <= i < |listing| && listing[i].name.Some? ==> listing[i].name.value in files)
    && (forall name :: name in files ==> Shows(listing, name))
    && NamesDiffer(listing)
  }

  predicate Shows(listing: seq<Entry>, name: string) {
    exists i :: 0 <= i < |listing| && listing[i].name == Some(name)
  }

  predicate NamesDiffer(listing: seq<Entry>) {
    forall i, j :: 0 <= i < j < |listing| && listing[i].name.Some? ==> listing[i].name != listing[j].name
  }

  function Ids(cs: seq<Candidate>): (r: seq<string>)
    ensures |r| == |cs| && forall i :: 0 <= i < |cs| ==> r[i] == cs[i].id
  {
    if cs == [] then [] else Ids(cs[..|cs| - 1]) + [cs[|cs| - 1].id]
  }

  predicate NoDuplicates(ids: seq<string>) {
    forall i, j :: 0 <= i < j < |ids| ==> ids[i] != ids[j]
  }

  predicate Has(cs: seq<Candidate>, id: string) {
    exists c :: c in cs && c.id == id
  }

  /** A request is pending exactly when its command file is listed and it has no result. */
  lemma {:induction false} PendingExactly(files: set<string>, listing: seq<Entry>, id: string)
    ensures Has(Pending(files, listing), id) <==> Shows(listing, CmdFileName(id)) && ResultFileName(id) !in files
  {
    if listing != [] {
      var front, e := listing[..|listing| - 1], listing[|listing| - 1];
      PendingExactly(files, front, id);
      if e.name.Some? { CmdFileRoundTrip(e.name.value, id); }
      hide CmdFileName, ResultFileName, IdOfCmdFile;
      ShowsLast(listing, CmdFileName(id));
      HasLast(Pending(files, front), Pending(files, listing)[|Pending(files, front)|..], id);
      assert Pending(files, listing) == Pending(files, front) + Pending(files, listing)[|Pending(files, front)|..];
    }
  }

  lemma ShowsLast(listing: seq<Entry>, name: string)
    requires listing != []
    ensures Shows(listing, name) <==> Shows(listing[..|listing| - 1], name) || listing[|listing| - 1].name == Some(name)
  {
    if Shows(listing, name) {
      var i :| 0 <= i < |listing| && listing[i].name == Some(name);
      if i < |listing| - 1 { assert listing[..|listing| - 1][i].name == Some(name); }
    }
    if Shows(listing[..|listing| - 1], name) {
      var i :| 0 <= i < |listing| - 1 && listing[..|listing| - 1][i].name == Some(name);
      assert listing[i].name == Some(name);
    }
  }

  lemma HasLast(a: seq<Candidate>, b: seq<Candidate>, id: string)
    ensures Has(a + b, id) <==> Has(a, id) || Has(b, id)
  {
    if Has(a, id) {
      var c :| c in a && c.id == id;
      assert c in a + b;
    }
    if Has(b, id) {
      var c :| c in b && c.id == id;
      assert c in a + b;
    }
  }

  lemma {:induction false} PendingDistinct(files: set<string>, listing: seq<Entry>)
    requires NamesDiffer(listing)
    ensures NoDuplicates(Ids(Pending(files, listing)))
  {
    if listing != [] {
      var front, e := listing[..|listing| - 1], listing[|listing| - 1];
      PendingDistinct(files, front);
      var before, all := Pending(files, front), Pending(files, listing);
      if |all| > |before| {
        var id := all[|before|].id;
        CmdFileRoundTrip(e.name.value, id);
        PendingExactly(files, front, id);
        NotShown(listing);
        OneMore(before, all[|before|]);
      }
    }
  }

  lemma OneMore(before: seq<Candidate>, c: Candidate)
    ensures NoDuplicates(Ids(before)) && !Has(before, c.id) ==> NoDuplicates(Ids(before + [c]))
  {
    assert forall k :: 0 <= k < |before| ==> (before + [c])[k] == before[k] && before[k] in before;
    assert forall k :: 0 <= k < |before| ==> Ids(before)[k] == before[k].id;
  }

  lemma NotShown(listing: seq<Entry>)
    ensures listing != [] && NamesDiffer(listing) && listing[|listing| - 1].name.Some?
            ==> !Shows(listing[..|listing| - 1], listing[|listing| - 1].name.value)
  {
  }

  // ----- the order of selection

  function Selected(files: set<string>, listing: seq<Entry>): seq<string> {
    Ids(SortByTime(Pending(files, listing)))
  }

  // ----- the order in terms of the listing

  /** What the listing shows as the time of an entry; an unreadable one counts as zero. */
  function TimeOf(e: Entry): nat { if e.mtime.Some? then e.mtime.value else 0 }

  /** Entry a is older than entry b or, if they are of one age, listed before it. */
  predicate Before(listing: seq<Entry>, a: nat, b: nat)
    requires a < |listing| && b < |listing|
  {
    TimeOf(listing[a]) < TimeOf(listing[b]) || (TimeOf(listing[a]) == TimeOf(listing[b]) && a < b)
  }

  /** Of two ids the one whose command file the listing shows as older comes first, and of two of one age
      the one that it shows first. */
  predicate ByAge(listing: seq<Entry>, ids: seq<string>) {
    forall i, j, a, b | 0 <= i < j < |ids| && 0 <= a < |listing| && 0 <= b < |listing|
        && listing[a].name == Some("elev_cmd_" + ids[i] + ".json")
        && listing[b].name == Some("elev_cmd_" + ids[j] + ".json")
      :: Before(listing, a, b)
  }

  /** The k-th candidate is the entry at[k], in the order of the listing. */
  predicate ListedAt(listing: seq<Entry>, cs: seq<Candidate>, at: seq<nat>) {
    && |at| == |cs|
    && (forall k :: 0 <= k < |cs| ==> at[k] < |listing| && ShowsCommand(listing[at[k]], cs[k]))
    && forall k, l :: 0 <= k < l < |cs| ==> at[k] < at[l]
  }

  predicate ShowsCommand(e: Entry, c: Candidate) {
    e.name == Some("elev_cmd_" + c.id + ".json") && c.mtime == TimeOf(e)
  }

  lemma EntryIs(e: Entry, c: Candidate)
    requires e.name.Some? && IdOfCmdFile(e.name.value) == Some(c.id) && c.mtime == TimeOf(e)
    ensures ShowsCommand(e, c)
  {
    CmdFileRoundTrip(e.name.value, c.id);
  }

  lemma {:induction false} PendingAt(files: set<string>, listing: seq<Entry>) returns (at: seq<nat>)
    ensures ListedAt(listing, Pending(files, listing), at)
  {
    if listing == [] {
      at := [];
    } else {
      var front, e := listing[..|listing| - 1], listing[|listing| - 1];
      at := PendingAt(files, front);
      var before, all := Pending(files, front), Pending(files, listing);
      if |all| > |before| {
        EntryIs(e, all[|before|]);
        at := at + [|listing| - 1];
      }
      hide Pending, ShowsCommand;
      assert all[..|before|] == before;
      assert forall k :: 0 <= k < |before| ==> all[k] == before[k];
    }
  }

  /** The sorted list holds the candidate pos[k] of cs in its k-th place: an older one than in the next
      place, or one of the same age that comes before it in cs. */
  predicate SortedAt(cs: seq<Candidate>, sorted: seq<Candidate>, pos: seq<nat>) {
    && |pos| == |sorted|
    && (forall k :: 0 <= k < |sorted| ==> pos[k] < |cs| && sorted[k] == cs[pos[k]])
    && forall k, l :: 0 <= k < l < |sorted| ==>
         sorted[k].mtime < sorted[l].mtime || (sorted[k].mtime == sorted[l].mtime && pos[k] < pos[l])
  }

  lemma {:induction false} SortAt(cs: seq<Candidate>) returns (pos: seq<nat>)
    ensures SortedAt(cs, SortByTime(cs), pos)
  {
    if cs == [] {
      pos := [];
    } else {
      var rest := SortByTime(cs[1..]);
      var pos' := SortAt(cs[1..]);
      SortFacts(cs[1..]);
      var h := InsertAt(cs[0], rest);
      pos := Moved(pos', h);
      hide SortByTime, Insert, SortedAt, Moved;
      InsertedAt(cs, rest, pos', h);
    }
  }

  /** The places of a list in front of which one more candidate was put; it goes to place h. */
  function Moved(pos: seq<nat>, h: nat): (r: seq<nat>)
    requires h <= |pos|
    ensures |r| == |pos| + 1 && r[h] == 0
    ensures forall k :: 0 <= k < h ==> r[k] == pos[k] + 1
    ensures forall k :: h < k < |r| ==> r[k] == pos[k - 1] + 1
  {
    seq(|pos| + 1, k requires 0 <= k < |pos| + 1 =>
      if k < h then pos[k] + 1 else if k == h then 0 else pos[k - 1] + 1)
  }

  lemma InsertedAt(cs: seq<Candidate>, rest: seq<Candidate>, pos: seq<nat>, h: nat)
    requires cs != [] && SortedAt(cs[1..], rest, pos) && h <= |rest|
    requires forall k :: 0 <= k < h ==> rest[k].mtime < cs[0].mtime
    requires forall k :: h <= k < |rest| ==> cs[0].mtime <= rest[k].mtime
    ensures SortedAt(cs, rest[..h] + [cs[0]] + rest[h..], Moved(pos, h))
  {
    var sorted, pos' := rest[..h] + [cs[0]] + rest[h..], Moved(pos, h);
    hide Moved;
    forall k | 0 <= k < |sorted| ensures pos'[k] < |cs| && sorted[k] == cs[pos'[k]] {
      PlaceOf(cs[0], rest, h, k);
    }
    forall k, l | 0 <= k < l < |sorted|
      ensures sorted[k].mtime < sorted[l].mtime || (sorted[k].mtime == sorted[l].mtime && pos'[k] < pos'[l])
    {
      PlaceOf(cs[0], rest, h, k);
      PlaceOf(cs[0], rest, h, l);
    }
  }

  lemma PlaceOf(c: Candidate, rest: seq<Candidate>, h: nat, k: nat)
    requires h <= |rest| && k <= |rest|
    ensures (rest[..h] + [c] + rest[h..])[k] == if k < h then rest[k] else if k == h then c else rest[k - 1]
  {
  }

  /** Where a candidate is inserted: behind all older ones and before the rest. */
  lemma {:induction false} InsertAt(c: Candidate, cs: seq<Candidate>) returns (h: nat)
    requires OldestFirst(cs)
    ensures h <= |cs| && Insert(c, cs) == cs[..h] + [c] + cs[h..]
    ensures forall k :: 0 <= k < h ==> cs[k].mtime < c.mtime
    ensures forall k :: h <= k < |cs| ==> c.mtime <= cs[k].mtime
  {
    if cs == [] || c.mtime <= cs[0].mtime {
      h := 0;
    } else {
      var h' := InsertAt(c, cs[1..]);
      h := h' + 1;
      assert cs[..h] == [cs[0]] + cs[1..][..h'] && cs[h..] == cs[1..][h'..];
      assert forall k :: 0 < k < |cs| ==> cs[k] == cs[1..][k - 1];
    }
  }

  lemma SelectedByAge(files: set<string>, listing: seq<Entry>)
    requires NamesDiffer(listing)
    ensures ByAge(listing, Selected(files, listing))
  {
    var cs, ids := Pending(files, listing), Selected(files, listing);
    var at := PendingAt(files, listing);
    var pos := SortAt(cs);
    var sorted := SortByTime(cs);
    assert ids == Ids(sorted);
    hide Pending, SortByTime, Selected, Ids, NamesDiffer;
    forall i, j, a, b | 0 <= i < j < |ids| && 0 <= a < |listing| && 0 <= b < |listing|
        && listing[a].name == Some("elev_cmd_" + ids[i] + ".json")
        && listing[b].name == Some("elev_cmd_" + ids[j] + ".json")
      ensures Before(listing, a, b)
    {
      assert ShowsCommand(listing[at[pos[i]]], cs[pos[i]]) && ShowsCommand(listing[at[pos[j]]], cs[pos[j]]);
      OneEntry(listing, a, at[pos[i]]);
      OneEntry(listing, b, at[pos[j]]);
    }
  }

  lemma OneEntry(listing: seq<Entry>, a: nat, b: nat)
    requires NamesDiffer(listing) && a < |listing| && b < |listing|
    ensures listing[a].name.Some? && listing[a].name == listing[b].name ==> a == b
  {
  }

  /** They are the pending ones reordered: oldest first, those of one age as listed, by the times
      and the places of their command files in the listing. */
  lemma SelectedInOrder(files: set<string>, listing: seq<Entry>) returns (cs: seq<Candidate>)
    ensures Selected(files, listing) == Ids(cs) && OldestFirst(cs)
    ensures multiset(cs) == multiset(Pending(files, listing))
    ensures forall t :: OfTime(cs, t) == OfTime(Pending(files, listing), t)
    ensures NamesDiffer(listing) ==> ByAge(listing, Selected(files, listing))
  {
    if NamesDiffer(listing) { SelectedByAge(files, listing); }
    hide ByAge;
    cs := SortByTime(Pending(files, listing));
    SortFacts(Pending(files, listing));
  }

  /** The requests taken up are the pending ones, each once. */
  lemma SelectedExactly(files: set<string>, listing: seq<Entry>, id: string)
    requires Lists(listing, files)
    ensures id in Selected(files, listing) <==> CmdFileName(id) in files && ResultFileName(id) !in files
  {
    var cs := Pending(files, listing);
    SortFacts(cs);
    PendingExactly(files, listing, id);
    hide Pending, SortByTime;
    IdsHave(SortByTime(cs), id);
    SameHas(cs, SortByTime(cs), id);
    assert Shows(listing, CmdFileName(id)) ==> CmdFileName(id) in files;
  }

  lemma IdsHave(cs: seq<Candidate>, id: string)
    ensures id in Ids(cs) <==> Has(cs, id)
  {
    if id in Ids(cs) {
      var i :| 0 <= i < |cs| && Ids(cs)[i] == id;
      assert cs[i] in cs;
    }
    if Has(cs, id) {
      var c :| c in cs && c.id == id;
      var i :| 0 <= i < |cs| && cs[i] == c;
      assert Ids(cs)[i] == id;
    }
  }

  lemma SameHas(a: seq<Candidate>, b: seq<Candidate>, id: string)
    requires multiset(a) == multiset(b)
    ensures Has(a, id) <==> Has(b, id)
  {
    assert forall c :: c in a <==> c in multiset(a);
    assert forall c :: c in b <==> c in multiset(b);
  }

  predicate IdsDiffer(cs: seq<Candidate>) {
    cs == [] || (!Has(cs[1..], cs[0].id) && IdsDiffer(cs[1..]))
  }

  lemma {:induction false} DifferIsDistinct(cs: seq<Candidate>)
    ensures IdsDiffer(cs) <==> NoDuplicates(Ids(cs))
  {
    if cs != [] {
      var rest := cs[1..];
      DifferIsDistinct(rest);
      assert forall i :: 0 <= i < |rest| ==> Ids(rest)[i] == Ids(cs)[i + 1];
      IdsHave(rest, cs[0].id);
      DistinctFirst(Ids(cs), Ids(rest));
    }
  }

  lemma DistinctFirst(ids: seq<string>, rest: seq<string>)
    requires |ids| == |rest| + 1 && forall i :: 0 <= i < |rest| ==> rest[i] == ids[i + 1]
    ensures NoDuplicates(ids) <==> ids[0] !in rest && NoDuplicates(rest)
  {
    if NoDuplicates(ids) {
      forall i, j | 0 <= i < j < |rest| ensures rest[i] != rest[j] {
        assert ids[i + 1] != ids[j + 1];
      }
    }
    if ids[0] !in rest && NoDuplicates(rest) {
      forall i, j | 0 <= i < j < |ids| ensures ids[i] != ids[j] {
        assert ids[j] == rest[j - 1];
        if i > 0 { assert ids[i] == rest[i - 1]; }
      }
    }
  }

  lemma {:induction false} SortDistinct(cs: seq<Candidate>)
    requires IdsDiffer(cs)
    ensures IdsDiffer(SortByTime(cs))
  {
    if cs != [] {
      SortDistinct(cs[1..]);
      SortFacts(cs[1..]);
      SameHas(cs[1..], SortByTime(cs[1..]), cs[0].id);
      InsertDistinct(cs[0], SortByTime(cs[1..]));
    }
  }

  lemma {:induction false} InsertDistinct(c: Candidate, cs: seq<Candidate>)
    requires IdsDiffer(cs) && !Has(cs, c.id)
    ensures IdsDiffer(Insert(c, cs))
  {
    hide Has;
    if cs == [] || c.mtime <= cs[0].mtime {
      assert ([c] + cs)[1..] == cs;
    } else {
      assert cs == [cs[0]] + cs[1..];
      HasLast([cs[0]], cs[1..], c.id);
      HasOne(cs[0]);
      InsertDistinct(c, cs[1..]);
      InsertedHas(c, cs[1..], cs[0].id);
      assert ([cs[0]] + Insert(c, cs[1..]))[1..] == Insert(c, cs[1..]);
    }
  }

  lemma HasOne(c: Candidate)
    ensures Has([c], c.id)
  {
    assert c in [c];
  }

  lemma InsertedHas(c: Candidate, cs: seq<Candidate>, id: string)
    ensures Has(Insert(c, cs), id) <==> c.id == id || Has(cs, id)
  {
    InsertAdds(c, cs);
    assert c in multiset{c};
    assert forall d :: d in Insert(c, cs) <==> d in multiset(Insert(c, cs));
    assert forall d :: d in cs <==> d in multiset(cs);
    if Has(cs, id) {
      var d :| d in cs && d.id == id;
      assert d in Insert(c, cs);
    }
  }

  lemma SelectedOnce(files: set<string>, listing: seq<Entry>)
    requires NamesDiffer(listing)
    ensures NoDuplicates(Selected(files, listing))
  {
    var cs := Pending(files, listing);
    PendingDistinct(files, listing);
    DifferIsDistinct(cs);
    SortDistinct(cs);
    DifferIsDistinct(SortByTime(cs));
  }
}
