/**
  One run of the elevated helper as it changes the queue directory, its nonce map and the
  stored one, branch by branch, and the value-level description of every such change.
 */
module HelperDrain {
  import opened Wrappers
  import opened Names
  import opened Nonces
  import opened Selection
  import opened Commands

  datatype Error =
    | CannotRead | InvalidJson | NoKey
    | MissingHmac | BadHmac | MissingTime | Stale
    | InvalidCommand | MissingNonce | DuplicateNonce(nonce: Nonce)
    | Failed(message: string)
    | NoPendingCommand | CommandNotFound | CannotReadDirectory

  type Outcome = Result<string, Error>

  /** The field that holds a document's signature: absent, wrong, or valid for one of the keys. */
  datatype Hmac = NoHmac | Forged | Valid

  datatype Body =
    | CommandBody(nonce: Option<Nonce>, command: Command)
    | AnswerBody(id: Option<string>, outcome: Outcome)
    | OtherBody

  /** What reading a file of the queue gives. */
  datatype Doc = Unreadable | NotJson | Json(hmac: Hmac, createdMs: Option<nat>, body: Body)

  /** How a write of the nonce store goes: the temporary file, then the rename. */
  datatype Save = WriteFailed | RenameFailed | Saved

  /** The nonce store or its temporary file. */
  datatype StoreFile = Absent | Torn | Whole(stamps: Stamps)

  /** A store that is missing or cannot be parsed is empty. */
  function StampsOf(file: StoreFile): Stamps { if file.Whole? then file.stamps else map[] }

  /** What the helper meets while it handles one request. */
  datatype Env = Env(keyReadable: bool, checkMs: nat, recordMs: nat, save: Save, outcome: Outcome,
                     signable: bool, replyMs: nat, wrote: bool, renamed: bool)

  datatype Signed = Signed(nonce: Nonce, command: Command)

  datatype Executed = Executed(id: string, signed: Signed)

  /** The queue directory by file name, the stored nonces, the helper's own map, and the commands
      it has executed. */
  datatype World = World(files: map<string, Doc>, disk: Stamps, seen: Option<Stamps>, log: seq<Executed>)

  // ----- one request

  function Look(files: map<string, Doc>, name: string): Doc {
    if name in files then files[name] else Unreadable
  }

  /** What the command file alone decides. */
  function Verdict(doc: Doc, e: Env): Result<Signed, Error> {
    match doc
    case Unreadable => Err(CannotRead)
    case NotJson => Err(InvalidJson)
    case Json(hmac, createdMs, body) =>
      if !e.keyReadable then Err(NoKey)
      else if hmac == NoHmac then Err(MissingHmac)
      else if hmac == Forged then Err(BadHmac)
      else if createdMs.None? then Err(MissingTime)
      else if !Fresh(e.checkMs, createdMs.value) then Err(Stale)
      else if !body.CommandBody? then Err(InvalidCommand)
      else if body.nonce.None? then Err(MissingNonce)
      else Ok(Signed(body.nonce.value, body.command))
  }

  /** The directory after the answer to id was written to a temporary file and renamed. */
  function Answered(files: map<string, Doc>, id: string, outcome: Outcome, e: Env): map<string, Doc> {
    if !e.wrote then files
    else if !e.renamed then files - {ResultTempName(id)}
    else files[ResultFileName(id) := Answer(id, outcome, e)] - {ResultTempName(id)}
  }

  function Answer(id: string, outcome: Outcome, e: Env): Doc {
    Json(if e.signable then Valid else NoHmac, Some(e.replyMs), AnswerBody(Some(id), outcome))
  }

  /** The directory when the command file has been read: an old result and the command are gone. */
  function Consumed(files: map<string, Doc>, id: string): map<string, Doc> {
    if Look(files, CmdFileName(id)).Unreadable? then files - {ResultFileName(id)}
    else files - {ResultFileName(id), CmdFileName(id)}
  }

  function Checked(w: World, n: Nonce, e: Env): Admission {
    Admit(w.seen, w.disk, n, Secs(e.recordMs), e.save.Saved?)
  }

  function Processed(w: World, id: string, e: Env): World {
    var files := Consumed(w.files, id);
    match Verdict(Look(w.files, CmdFileName(id)), e)
    case Err(x) => w.(files := Answered(files, id, Err(x), e))
    case Ok(p) =>
      var a := Checked(w, p.nonce, e);
      var outcome := if a.isNew then e.outcome else Err(DuplicateNonce(p.nonce));
      World(Answered(files, id, outcome, e), a.stored, Some(a.seen),
            if a.isNew then w.log + [Executed(id, p)] else w.log)
  }

  /** The first k requests of a queue. */
  function DrainTo(w: World, queue: seq<string>, env: nat -> Env, k: nat): World
    requires k <= |queue|
  {
    if k == 0 then w else Processed(DrainTo(w, queue, env, k - 1), queue[k - 1], env(k - 1))
  }

  function Flushed(w: World, save: Save): World {
    if w.seen.Some? && save.Saved? then w.(disk := w.seen.value) else w
  }

  /** The selected requests, or why there are none. */
  function Choice(files: set<string>, wanted: Option<string>, listing: Result<seq<Entry>, string>)
    : Result<seq<string>, Error>
  {
    if wanted.Some? then
      if CmdFileName(wanted.value) in files then Ok([wanted.value]) else Err(CommandNotFound)
    else if listing.Err? then Err(CannotReadDirectory)
    else Ok(Selected(files, listing.value))
  }

  function FallbackName(wanted: Option<string>): string {
    if wanted.Some? then ResultFileName(wanted.value) else "elev_result.json"
  }

  function FellBack(w: World, wanted: Option<string>, error: Error, wroteOk: bool): World {
    if wroteOk then w.(files := w.files[FallbackName(wanted) := Json(NoHmac, None, AnswerBody(None, Err(error)))])
    else w
  }

  function HelperRun(w: World, wanted: Option<string>, listing: Result<seq<Entry>, string>, env: nat -> Env,
                     wroteOk: bool, flush: Save): World {
    var choice := Choice(w.files.Keys, wanted, listing);
    Flushed(match choice
            case Err(x) => FellBack(w, wanted, x, wroteOk)
            case Ok(queue) => if queue == [] then FellBack(w, wanted, NoPendingCommand, wroteOk)
                else DrainTo(w, queue, env, |queue|),
            flush)
  }

  // ----- what that means in terms of the files

  /** The command file of id carries nonce n and command c under a valid signature, and was checked with
      a key within thirty seconds of its date, by a clock of 64 bits. */
  predicate Genuine(files: map<string, Doc>, id: string, e: Env, n: Nonce, c: Command) {
    var name := "elev_cmd_" + id + ".json";
    && name in files && files[name].Json? && e.keyReadable && files[name].hmac == Valid
    && files[name].createdMs.Some? && IsWithin(e.checkMs, files[name].createdMs.value, 30_000)
    && files[name].body == CommandBody(Some(n), c)
  }

  /** At most ms milliseconds lie between the clock and a date, either way. */
  predicate IsWithin(nowMs: nat, dateMs: nat, ms: nat) {
    dateMs <= nowMs + ms && nowMs <= dateMs + ms && nowMs <= 0xFFFF_FFFF_FFFF_FFFF
  }

  /** The nonce is in the helper's map or, if it has none yet, among the stored ones of the last five
      minutes. */
  predicate Knows(seen: Option<Stamps>, disk: Stamps, nowMs: nat, n: Nonce) {
    if seen.Some? then n in seen.value else n in disk && nowMs / 1000 < disk[n] + 300
  }

  lemma FreshIsWithin(nowMs: nat, dateMs: nat)
    ensures Fresh(nowMs, dateMs) <==> IsWithin(nowMs, dateMs, 30_000)
  {
  }

  lemma VerdictIsGenuine(files: map<string, Doc>, id: string, e: Env, n: Nonce, c: Command)
    ensures Verdict(Look(files, CmdFileName(id)), e) == Ok(Signed(n, c)) <==> Genuine(files, id, e, n, c)
  {
    var doc := Look(files, CmdFileName(id));
    if doc.Json? && doc.createdMs.Some? { FreshIsWithin(e.checkMs, doc.createdMs.value); }
    hide Fresh, IsWithin;
  }

  lemma BaseKnows(seen: Option<Stamps>, disk: Stamps, nowMs: nat, n: Nonce)
    ensures n in Base(seen, disk, Secs(nowMs)) <==> Knows(seen, disk, nowMs, n)
  {
  }

  /** A request adds exactly this to the execution log: its nonce and command, when its command file is
      genuine and the nonce unknown, and nothing otherwise. */
  lemma ExecutesGenuine(w: World, id: string, e: Env, n: Nonce, c: Command)
    ensures var log := Processed(w, id, e).log;
            && (log == w.log + [Executed(id, Signed(n, c))]
                <==> Genuine(w.files, id, e, n, c) && !Knows(w.seen, w.disk, e.recordMs, n))
            && (log != w.log ==> exists n', c' :: Genuine(w.files, id, e, n', c'))
  {
    var v := Verdict(Look(w.files, CmdFileName(id)), e);
    VerdictIsGenuine(w.files, id, e, n, c);
    if v.Ok? {
      var n', c' := v.value.nonce, v.value.command;
      VerdictIsGenuine(w.files, id, e, n', c');
      AdmitNew(w.seen, w.disk, n', Secs(e.recordMs), e.save.Saved?);
      BaseKnows(w.seen, w.disk, e.recordMs, n');
      assert Genuine(w.files, id, e, n', c');
    }
    hide Verdict, Look, CmdFileName, Admit, Base, Knows, Genuine, Answered, Consumed;
    OneLonger(w.log, Executed(id, Signed(n, c)));
  }

  lemma ExecutesAnyGenuine(w: World, id: string, e: Env)
    ensures var log := Processed(w, id, e).log;
            && (forall n, c :: log == w.log + [Executed(id, Signed(n, c))]
                               <==> Genuine(w.files, id, e, n, c) && !Knows(w.seen, w.disk, e.recordMs, n))
            && (log != w.log ==> exists n, c :: Genuine(w.files, id, e, n, c))
  {
    hide *;
    forall n, c
      ensures Processed(w, id, e).log == w.log + [Executed(id, Signed(n, c))]
              <==> Genuine(w.files, id, e, n, c) && !Knows(w.seen, w.disk, e.recordMs, n)
    {
      ExecutesGenuine(w, id, e, n, c);
    }
    ExecutesGenuine(w, id, e, "", Command("", ""));
  }

  lemma OneLonger<T>(s: seq<T>, x: T)
    ensures s + [x] != s && forall y :: s + [y] == s + [x] <==> y == x
  {
    assert |s + [x]| == |s| + 1;
    assert forall y :: (s + [y])[|s|] == y;
  }

  // ----- the helper

  class Helper {
    var files: map<string, Doc>
    var store: StoreFile
    var storeTmp: StoreFile
    var seen: Option<Stamps>
    var log: seq<Executed>

    constructor (files: map<string, Doc>, store: StoreFile)
      ensures Now() == World(files, StampsOf(store), None, [])
    {
      this.files, this.store, storeTmp, seen, log := files, store, Absent, None, [];
    }

    function Now(): World
      reads this
    {
      World(files, StampsOf(store), seen, log)
    }

    /** load_nonces */
    method LoadNonces(nowMs: nat) returns (m: Stamps)
      ensures m == Purge(StampsOf(store), Secs(nowMs))
      ensures forall n :: n in m <==> n in StampsOf(store) && Secs(nowMs) < StampsOf(store)[n] + NONCE_TTL_SECS
      ensures forall n :: n in m ==> m[n] == StampsOf(store)[n]
    {
      m := map[];
      if store.Whole? {
        var nonces := store.stamps;
        m := map n | n in nonces && SatSub(Secs(nowMs), nonces[n]) < NONCE_TTL_SECS :: nonces[n];
      }
    }

    /** save_nonces. The store is replaced whole or left as it was, and after a save whichever helper
        loads it next refuses every nonce of the map whose payload can still be recorded. */
    method SaveNonces(m: Stamps, save: Save)
      modifies this`store, this`storeTmp
      ensures store == if save.Saved? then Whole(m) else old(store)
      ensures !save.WriteFailed? ==> storeTmp == Absent
      ensures save.Saved? ==>
        forall n, createdMs: nat, nowMs: nat, skewMs: nat :: skewMs <= MAX_COMMAND_AGE_MS && n in m
          && StampOk(createdMs, m[n], skewMs) && !Retired(nowMs, createdMs, skewMs)
          ==> n in Purge(StampsOf(store), Secs(nowMs))
    {
      if save.WriteFailed? {
        storeTmp := Torn;
      } else {
        storeTmp := Whole(m);
        if save.RenameFailed? {
          storeTmp := Absent;
        } else {
          store, storeTmp := storeTmp, Absent;
          SavedIsRefused(m);
        }
      }
    }

    /** flush_nonces */
    method FlushNonces(save: Save)
      modifies this`store, this`storeTmp
      ensures Now() == Flushed(old(Now()), save)
    {
      if seen.Some? {
        SaveNonces(seen.value, save);
      }
    }

    /** The nonce check of process_pending. */
    method CheckAndRecord(n: Nonce, nowMs: nat, save: Save) returns (isNew: bool)
      modifies this`seen, this`store, this`storeTmp
      ensures seen.Some?
      ensures Admission(seen.value, StampsOf(store), isNew)
              == Admit(old(seen), old(StampsOf(store)), n, Secs(nowMs), save.Saved?)
    {
      AdmitNew(seen, StampsOf(store), n, Secs(nowMs), save.Saved?);
      BaseIs(seen, StampsOf(store), Secs(nowMs));
      hide Admit, Purge, Base;
      if seen.None? {
        var loaded := LoadNonces(nowMs);
        seen := Some(loaded);
      }
      if n in seen.value {
        isNew := false;
      } else {
        seen := Some(seen.value[n := Secs(nowMs)]);
        if |seen.value| % 3 == 0 {
          SaveNonces(seen.value, save);
        }
        isNew := true;
      }
    }

    /** process_pending */
    method ProcessPending(id: string, e: Env)
      modifies this
      ensures Now() == Processed(old(Now()), id, e)
      ensures forall n, c :: log == old(log) + [Executed(id, Signed(n, c))]
                             <==> Genuine(old(files), id, e, n, c)
                                  && !Knows(old(seen), old(StampsOf(store)), e.recordMs, n)
      ensures log != old(log) ==> exists n, c :: Genuine(old(files), id, e, n, c)
    {
      ExecutesAnyGenuine(Now(), id, e);
      hide Genuine, Knows;
      hide Admit, Fresh, CmdFileName, ResultFileName, ResultTempName;
      var w := Now();
      files := files - {ResultFileName(id)};
      NamesApart(id, id);
      var result: Outcome;
      var doc := if CmdFileName(id) in files then files[CmdFileName(id)] else Unreadable;
      match doc {
        case Unreadable => result := Err(CannotRead);
        case NotJson =>
          files := files - {CmdFileName(id)};
          result := Err(InvalidJson);
        case Json(hmac, createdMs, body) =>
          files := files - {CmdFileName(id)};
          if e.keyReadable {
            var verified := VerifyPayload(doc, e.checkMs);
            if verified.Err? {
              result := Err(verified.error);
            } else if !body.CommandBody? {
              result := Err(InvalidCommand);
            } else if body.nonce.Some? {
              var isNew := CheckAndRecord(body.nonce.value, e.recordMs, e.save);
              if isNew {
                log := log + [Executed(id, Signed(body.nonce.value, body.command))];
                result := e.outcome;
              } else {
                result := Err(DuplicateNonce(body.nonce.value));
              }
            } else {
              result := Err(MissingNonce);
            }
          } else {
            result := Err(NoKey);
          }
      }
      assert w.files - {ResultFileName(id)} - {CmdFileName(id)} == w.files - {ResultFileName(id), CmdFileName(id)};
      WriteResult(id, result, e);
    }

    /** The signed answer, written whole under a temporary name and renamed. */
    method WriteResult(id: string, result: Outcome, e: Env)
      modifies this`files
      ensures files == Answered(old(files), id, result, e)
    {
      if e.wrote {
        files := files[ResultTempName(id) := Answer(id, result, e)];
        if e.renamed {
          files := (files - {ResultTempName(id)})[ResultFileName(id) := files[ResultTempName(id)]];
          NamesApart(id, id);
        } else {
          files := files - {ResultTempName(id)};
        }
      }
      hide CmdFileName, ResultFileName, ResultTempName;
      assert files == Answered(old(files), id, result, e);
    }

    /** run */
    method Run(wanted: Option<string>, listing: Result<seq<Entry>, string>, env: nat -> Env, wroteOk: bool, flush: Save)
      modifies this
      ensures Now() == HelperRun(old(Now()), wanted, listing, env, wroteOk, flush)
    {
      ghost var w := Now();
      var pending := SelectAllPendingCommands(files.Keys, wanted, listing);
      if pending.Ok? && pending.value != [] {
        var queue := pending.value;
        var i := 0;
        while i < |queue|
          invariant 0 <= i <= |queue| && Now() == DrainTo(w, queue, env, i)
        {
          ProcessPending(queue[i], env(i));
          i := i + 1;
        }
      } else if wroteOk {
        var error := if pending.Err? then pending.error else NoPendingCommand;
        var name := if wanted.Some? then ResultFileName(wanted.value) else "elev_result.json";
        files := files[name := Json(NoHmac, None, AnswerBody(None, Err(error)))];
      }
      FlushNonces(flush);
    }
  }

  lemma SavedIsRefused(m: Stamps)
    ensures forall n, createdMs: nat, nowMs: nat, skewMs: nat :: skewMs <= MAX_COMMAND_AGE_MS && n in m
              && StampOk(createdMs, m[n], skewMs) && !Retired(nowMs, createdMs, skewMs)
              ==> n in Purge(m, Secs(nowMs))
  {
    forall n, createdMs: nat, nowMs: nat, skewMs: nat | skewMs <= MAX_COMMAND_AGE_MS && n in m
        && StampOk(createdMs, m[n], skewMs) && !Retired(nowMs, createdMs, skewMs)
      ensures n in Purge(m, Secs(nowMs))
    {
      if n !in Purge(m, Secs(nowMs)) { PurgedIsRetired(n, m, nowMs, createdMs, skewMs); }
    }
  }

  lemma BaseIs(seen: Option<Stamps>, disk: Stamps, nowSecs: nat)
    ensures Base(seen, disk, nowSecs) == if seen.Some? then seen.value else Purge(disk, nowSecs)
  {
  }

  /** auth::verify_payload with the signature as a fact about the document. */
  method VerifyPayload(doc: Doc, nowMs: nat) returns (r: Result<(), Error>)
    requires doc.Json?
    ensures r.Ok? <==> doc.hmac == Valid && doc.createdMs.Some? && Fresh(nowMs, doc.createdMs.value)
    ensures r.Err? ==> r.error == if doc.hmac == NoHmac then MissingHmac else if doc.hmac == Forged then BadHmac
                                  else if doc.createdMs.None? then MissingTime else Stale
  {
    if doc.hmac == NoHmac { return Err(MissingHmac); }
    if doc.hmac == Forged { return Err(BadHmac); }
    if doc.createdMs.None? { return Err(MissingTime); }
    var timestampMs := doc.createdMs.value;
    if !(nowMs >= SatSub(timestampMs, MAX_COMMAND_AGE_MS) && nowMs <= SatAdd(timestampMs, MAX_COMMAND_AGE_MS)) {
      return Err(Stale);
    }
    return Ok(());
  }

  lemma SelectedRight(files: set<string>, listing: seq<Entry>)
    ensures NamesDiffer(listing) ==> ByAge(listing, Selected(files, listing))
    ensures Lists(listing, files) ==> forall id ::
              id in Selected(files, listing)
              <==> "elev_cmd_" + id + ".json" in files && "elev_result_" + id + ".json" !in files
  {
    hide ByAge, NamesDiffer, Lists, Selected;
    if NamesDiffer(listing) { SelectedByAge(files, listing); }
    if Lists(listing, files) {
      forall id
        ensures id in Selected(files, listing)
                <==> "elev_cmd_" + id + ".json" in files && "elev_result_" + id + ".json" !in files
      {
        SelectedExactly(files, listing, id);
      }
    }
  }

  /** select_all_pending_commands */
  method SelectAllPendingCommands(files: set<string>, wanted: Option<string>, listing: Result<seq<Entry>, string>)
    returns (r: Result<seq<string>, Error>)
    ensures r == Choice(files, wanted, listing)
    ensures wanted.None? && listing.Ok? && NamesDiffer(listing.value) ==> r.Ok? && ByAge(listing.value, r.value)
    ensures wanted.None? && listing.Ok? && Lists(listing.value, files) ==> r.Ok? && forall id ::
              id in r.value <==> "elev_cmd_" + id + ".json" in files && "elev_result_" + id + ".json" !in files
  {
    hide ByAge, NamesDiffer, Lists;
    if listing.Ok? { SelectedRight(files, listing.value); }
    if wanted.Some? {
      if CmdFileName(wanted.value) !in files {
        return Err(CommandNotFound);
      }
      return Ok([wanted.value]);
    }
    if listing.Err? {
      return Err(CannotReadDirectory);
    }
    var entries := listing.value;
    var cmds: seq<Candidate> := [];
    var i := 0;
    while i < |entries|
      invariant 0 <= i <= |entries| && cmds == Pending(files, entries[..i])
    {
      var e := entries[i];
      assert entries[..i + 1][..i] == entries[..i] && entries[..i + 1][i] == e;
      i := i + 1;
      if e.name.None? { continue; }
      var name := e.name.value;
      if !StartsWith(name, CMD_PREFIX) || !EndsWith(name, JSON) { continue; }
      MarkersDoNotOverlap(name);
      var requestId := name[|CMD_PREFIX|..|name| - |JSON|];
      if ResultFileName(requestId) in files { continue; }
      var mtime := if e.mtime.Some? then e.mtime.value else 0;
      cmds := cmds + [Candidate(mtime, requestId)];
    }
    assert entries[..i] == entries;
    cmds := SortByTime(cmds);
    var ids: seq<string> := [];
    for k := 0 to |cmds|
      invariant ids == Ids(cmds[..k])
    {
      assert cmds[..k + 1][..k] == cmds[..k];
      ids := ids + [cmds[k].id];
    }
    assert cmds[..|cmds|] == cmds;
    return Ok(ids);
  }
}
