/**
  What one helper run does to its queue in terms of the files it finds: which commands it executes and
  in which order, and which answer each request gets, error by error.
 */
module DrainLaws {
  import opened Wrappers
  import opened Names
  import opened Nonces
  import opened Commands
  import opened Selection
  import opened HelperDrain
  import opened DrainGuarantees

  // ----- one answer

  /** What is to be answered to a request, by its command file; known says whether its nonce is. */
  predicate Deserves(doc: Doc, e: Env, known: bool, outcome: Outcome) {
    && (doc.Unreadable? ==> outcome == Err(CannotRead))
    && (doc.NotJson? ==> outcome == Err(InvalidJson))
    && (doc.Json? && !e.keyReadable ==> outcome == Err(NoKey))
    && (doc.Json? && e.keyReadable ==> SignedDeserves(doc, e, known, outcome))
  }

  predicate SignedDeserves(doc: Doc, e: Env, known: bool, outcome: Outcome)
    requires doc.Json?
  {
    && (doc.hmac == NoHmac ==> outcome == Err(MissingHmac))
    && (doc.hmac == Forged ==> outcome == Err(BadHmac))
    && (doc.hmac == Valid && doc.createdMs.None? ==> outcome == Err(MissingTime))
    && (doc.hmac == Valid && doc.createdMs.Some? ==>
          if !IsWithin(e.checkMs, doc.createdMs.value, 30_000) then outcome == Err(Stale)
          else if !doc.body.CommandBody? then outcome == Err(InvalidCommand)
          else if doc.body.nonce.None? then outcome == Err(MissingNonce)
          else outcome == if known then Err(DuplicateNonce(doc.body.nonce.value)) else e.outcome)
  }

  /** The answer to a request, under its name. */
  predicate AnsweredWith(files: map<string, Doc>, id: string, e: Env, outcome: Outcome) {
    var name := "elev_result_" + id + ".json";
    && name in files
    && files[name] == Json(if e.signable then Valid else NoHmac, Some(e.replyMs), AnswerBody(Some(id), outcome))
  }

  function DocAt(files: map<string, Doc>, id: string): Doc {
    var name := "elev_cmd_" + id + ".json";
    if name in files then files[name] else Unreadable
  }

  /** Its nonce, if it has one, is known to a helper with these maps. */
  predicate KnownTo(w: World, doc: Doc, e: Env) {
    && doc.Json? && doc.body.CommandBody? && doc.body.nonce.Some?
    && Knows(w.seen, w.disk, e.recordMs, doc.body.nonce.value)
  }

  lemma VerdictDeserves(doc: Doc, e: Env, known: bool, outcome: Outcome)
    requires var v := Verdict(doc, e);
             outcome == if v.Err? then Err(v.error) else if known then Err(DuplicateNonce(v.value.nonce)) else e.outcome
    ensures Deserves(doc, e, known, outcome)
  {
    if doc.Json? && doc.createdMs.Some? { FreshIsWithin(e.checkMs, doc.createdMs.value); }
    hide Fresh, IsWithin;
  }

  lemma DocIs(files: map<string, Doc>, id: string)
    ensures Look(files, CmdFileName(id)) == DocAt(files, id)
  {
  }

  lemma AnswerIs(files: map<string, Doc>, id: string, e: Env, outcome: Outcome)
    ensures ResultFileName(id) in files && files[ResultFileName(id)] == Answer(id, outcome, e)
            <==> AnsweredWith(files, id, e, outcome)
  {
  }

  /** After any request: the old result is gone, the command file too unless it cannot be read, the
      temporary file if a new answer was written to it, and the answer, when it could be written, is the
      deserved one. */
  lemma AnswersAsDeserved(w: World, id: string, e: Env) returns (outcome: Outcome)
    ensures var files, name := Processed(w, id, e).files, "elev_result_" + id + ".json";
            && Deserves(DocAt(w.files, id), e, KnownTo(w, DocAt(w.files, id), e), outcome)
            && (if e.wrote && e.renamed then AnsweredWith(files, id, e, outcome) else name !in files)
            && ("elev_cmd_" + id + ".json" in files
                <==> "elev_cmd_" + id + ".json" in w.files && DocAt(w.files, id).Unreadable?)
            && (e.wrote ==> name + ".tmp" !in files)
  {
    var v := Verdict(Look(w.files, CmdFileName(id)), e);
    ProcessedFiles(w, id, e, "");
    outcome := if v.Err? then Err(v.error)
               else if Checked(w, v.value.nonce, e).isNew then e.outcome
               else Err(DuplicateNonce(v.value.nonce));
    DocIs(w.files, id);
    VerdictKnown(w, id, e);
    VerdictDeserves(DocAt(w.files, id), e, KnownTo(w, DocAt(w.files, id), e), outcome);
    AnswerIs(Processed(w, id, e).files, id, e, outcome);
    TempIsGone(w, id, e);
    NamesAre(id);
    hide *;
  }

  lemma VerdictKnown(w: World, id: string, e: Env)
    ensures var v := Verdict(Look(w.files, CmdFileName(id)), e);
            v.Ok? ==> (Checked(w, v.value.nonce, e).isNew <==> !KnownTo(w, DocAt(w.files, id), e))
  {
    var v := Verdict(Look(w.files, CmdFileName(id)), e);
    DocIs(w.files, id);
    if v.Ok? {
      AdmitNew(w.seen, w.disk, v.value.nonce, Secs(e.recordMs), e.save.Saved?);
      BaseKnows(w.seen, w.disk, e.recordMs, v.value.nonce);
      hide Admit, Base, Knows, Fresh, DocAt, Look, CmdFileName;
    }
  }

  lemma TempIsGone(w: World, id: string, e: Env)
    ensures e.wrote ==> ResultTempName(id) !in Processed(w, id, e).files
  {
    NamesApart(id, id);
    hide CmdFileName, ResultFileName, ResultTempName, Verdict, Checked, Consumed, Look;
  }

  lemma NamesAre(id: string)
    ensures CmdFileName(id) == "elev_cmd_" + id + ".json"
    ensures ResultFileName(id) == "elev_result_" + id + ".json"
    ensures ResultTempName(id) == "elev_result_" + id + ".json" + ".tmp"
  {
  }

  // ----- a queue

  predicate GenuineAt(w: World, queue: seq<string>, env: nat -> Env, i: nat, n: Nonce, c: Command)
    requires i < |queue|
  {
    Genuine(w.files, queue[i], env(i), n, c)
  }

  /** Some request before the k-th carries nonce n genuinely. */
  ghost predicate GenuineBefore(w: World, queue: seq<string>, env: nat -> Env, k: nat, n: Nonce)
    requires k <= |queue|
  {
    exists j, c :: 0 <= j < k && GenuineAt(w, queue, env, j, n, c)
  }

  ghost predicate AnyGenuine(w: World, queue: seq<string>, env: nat -> Env, i: nat)
    requires i < |queue|
  {
    exists n, c :: GenuineAt(w, queue, env, i, n, c)
  }

  /** f is the first request of the queue with a genuine command file. */
  ghost predicate FirstGenuine(w: World, queue: seq<string>, env: nat -> Env, f: nat) {
    && f < |queue| && AnyGenuine(w, queue, env, f)
    && forall j :: 0 <= j < f ==> !AnyGenuine(w, queue, env, j)
  }

  /** The i-th request is to be executed: its command file is genuine, no earlier one carries its nonce,
      and the nonce was not known when the helper took up the first genuine request. */
  ghost predicate ToExecute(w: World, queue: seq<string>, env: nat -> Env, i: nat, n: Nonce, c: Command)
    requires i < |queue|
  {
    && GenuineAt(w, queue, env, i, n, c) && !GenuineBefore(w, queue, env, i, n)
    && forall f :: FirstGenuine(w, queue, env, f) ==> !Knows(w.seen, w.disk, env(f).recordMs, n)
  }

  lemma VerdictAtIs(w: World, queue: seq<string>, env: nat -> Env, i: nat, n: Nonce, c: Command)
    requires i < |queue|
    ensures VerdictAt(w, queue, env, i) == Ok(Signed(n, c)) <==> GenuineAt(w, queue, env, i, n, c)
  {
    VerdictIsGenuine(w.files, queue[i], env(i), n, c);
    hide Verdict, Genuine;
  }

  lemma OkIsGenuine(w: World, queue: seq<string>, env: nat -> Env, i: nat)
    requires i < |queue|
    ensures VerdictAt(w, queue, env, i).Ok? <==> AnyGenuine(w, queue, env, i)
  {
    hide VerdictAt, GenuineAt;
    var v := VerdictAt(w, queue, env, i);
    if v.Ok? { VerdictAtIs(w, queue, env, i, v.value.nonce, v.value.command); }
    if AnyGenuine(w, queue, env, i) {
      var n, c :| GenuineAt(w, queue, env, i, n, c);
      VerdictAtIs(w, queue, env, i, n, c);
    }
  }

  lemma CarriedIsGenuine(w: World, queue: seq<string>, env: nat -> Env, k: nat, n: Nonce)
    requires k <= |queue|
    ensures CarriedBefore(w, queue, env, k, n) <==> GenuineBefore(w, queue, env, k, n)
  {
    hide VerdictAt, GenuineAt;
    if CarriedBefore(w, queue, env, k, n) {
      var j :| 0 <= j < k && Carries(w, queue, env, j, n);
      VerdictAtIs(w, queue, env, j, n, VerdictAt(w, queue, env, j).value.command);
    }
    if GenuineBefore(w, queue, env, k, n) {
      var j, c :| 0 <= j < k && GenuineAt(w, queue, env, j, n, c);
      VerdictAtIs(w, queue, env, j, n, c);
      assert Carries(w, queue, env, j, n);
    }
  }

  lemma {:induction false} LoadedIs(w: World, queue: seq<string>, env: nat -> Env, k: nat, f: nat)
    requires k <= |queue| && FirstGenuine(w, queue, env, f)
    ensures Loaded(w, queue, env, k)
            == if k <= f || w.seen.Some? then w.seen else Some(Purge(w.disk, Secs(env(f).recordMs)))
  {
    if k == 0 {
    } else {
      LoadedIs(w, queue, env, k - 1, f);
      LoadedStep(w, queue, env, k - 1);
      OkIsGenuine(w, queue, env, k - 1);
      hide Loaded, VerdictAt, AnyGenuine, Purge;
    }
  }

  lemma {:induction false} FirstOf(w: World, queue: seq<string>, env: nat -> Env, i: nat) returns (f: nat)
    requires i < |queue| && AnyGenuine(w, queue, env, i)
    ensures f <= i && FirstGenuine(w, queue, env, f)
  {
    hide AnyGenuine;
    if j :| 0 <= j < i && AnyGenuine(w, queue, env, j) {
      f := FirstOf(w, queue, env, j);
    } else {
      f := i;
    }
  }

  lemma OnlyFirst(w: World, queue: seq<string>, env: nat -> Env, f: nat, g: nat)
    ensures FirstGenuine(w, queue, env, f) && FirstGenuine(w, queue, env, g) ==> f == g
  {
    hide AnyGenuine;
  }

  lemma AcceptedIs(w: World, queue: seq<string>, env: nat -> Env, i: nat, n: Nonce, c: Command)
    requires i < |queue|
    ensures Accepted(w, queue, env, i) && VerdictAt(w, queue, env, i) == Ok(Signed(n, c))
            <==> ToExecute(w, queue, env, i, n, c)
  {
    VerdictAtIs(w, queue, env, i, n, c);
    CarriedIsGenuine(w, queue, env, i, n);
    if GenuineAt(w, queue, env, i, n, c) {
      assert AnyGenuine(w, queue, env, i);
      var f := FirstOf(w, queue, env, i);
      KnownAtFirst(w, queue, env, i, f, n);
      forall g | FirstGenuine(w, queue, env, g) ensures g == f { OnlyFirst(w, queue, env, f, g); }
      hide VerdictAt, CarriedBefore, Loaded, Base, GenuineAt, GenuineBefore, FirstGenuine, Knows, Purge;
    }
  }

  lemma KnownAtFirst(w: World, queue: seq<string>, env: nat -> Env, i: nat, f: nat, n: Nonce)
    requires i < |queue| && f <= i && FirstGenuine(w, queue, env, f)
    ensures n in Base(Loaded(w, queue, env, i), w.disk, Secs(env(i).recordMs))
            <==> Knows(w.seen, w.disk, env(f).recordMs, n)
  {
    LoadedIs(w, queue, env, i, f);
    BaseIs(Loaded(w, queue, env, i), w.disk, Secs(env(i).recordMs));
    BaseIs(w.seen, w.disk, Secs(env(f).recordMs));
    BaseKnows(w.seen, w.disk, env(f).recordMs, n);
    hide Loaded, FirstGenuine, Purge, Base, Knows;
  }

  // ----- what a run executes

  ghost predicate IsEntry(w: World, queue: seq<string>, env: nat -> Env, i: nat, x: Executed) {
    i < |queue| && x.id == queue[i] && ToExecute(w, queue, env, i, x.signed.nonce, x.signed.command)
  }

  /** The k-th entry of added is the nonce and the command of the at[k]-th request, which is to be
      executed. */
  ghost predicate EntriesAt(w: World, queue: seq<string>, env: nat -> Env, at: seq<nat>, added: seq<Executed>) {
    && |at| == |added|
    && (forall k :: 0 <= k < |at| ==> IsEntry(w, queue, env, at[k], added[k]))
    && (forall k, l :: 0 <= k < l < |at| ==> at[k] < at[l])
  }

  /** And no request up to the k-th is left out. */
  ghost predicate NoneMissed(w: World, queue: seq<string>, env: nat -> Env, k: nat, at: seq<nat>)
    requires k <= |queue|
  {
    forall i, n, c :: 0 <= i < k && ToExecute(w, queue, env, i, n, c) ==> i in at
  }

  lemma {:induction false} ExecutionsAt(w: World, queue: seq<string>, env: nat -> Env, k: nat) returns (at: seq<nat>)
    requires k <= |queue|
    ensures EntriesAt(w, queue, env, at, Executions(w, queue, env, k)) && NoneMissed(w, queue, env, k, at)
    ensures forall i :: i in at ==> i < k
  {
    hide Accepted, VerdictAt, ToExecute, EntriesAt, NoneMissed, IsEntry;
    if k == 0 {
      at := [];
      NothingYet(w, queue, env);
    } else {
      var before := ExecutionsAt(w, queue, env, k - 1);
      var added := Executions(w, queue, env, k - 1);
      AcceptedRuns(w, queue, env, k - 1);
      if Accepted(w, queue, env, k - 1) {
        var v := AcceptedEntry(w, queue, env, k - 1);
        at := before + [k - 1];
        OneMoreEntry(w, queue, env, before, added, k - 1, Executed(queue[k - 1], v));
      } else {
        at := before;
        assert Executions(w, queue, env, k) == added;
      }
      assert forall i :: i in before ==> i in at;
      NoMoreMissed(w, queue, env, k - 1, before, at);
    }
  }

  lemma NothingYet(w: World, queue: seq<string>, env: nat -> Env)
    ensures EntriesAt(w, queue, env, [], []) && NoneMissed(w, queue, env, 0, [])
  {
  }

  lemma OneMoreEntry(w: World, queue: seq<string>, env: nat -> Env, at: seq<nat>, added: seq<Executed>, i: nat,
                     x: Executed)
    requires EntriesAt(w, queue, env, at, added) && IsEntry(w, queue, env, i, x) && forall j :: j in at ==> j < i
    ensures EntriesAt(w, queue, env, at + [i], added + [x])
  {
    hide IsEntry;
    assert forall k :: 0 <= k < |at| ==> at[k] in at;
  }

  lemma NoMoreMissed(w: World, queue: seq<string>, env: nat -> Env, k: nat, before: seq<nat>, at: seq<nat>)
    requires k < |queue| && NoneMissed(w, queue, env, k, before) && (forall i :: i in before ==> i in at)
    requires Runs(w, queue, env, k) ==> k in at
    ensures NoneMissed(w, queue, env, k + 1, at)
  {
    hide ToExecute;
    forall i, n, c | 0 <= i < k + 1 && ToExecute(w, queue, env, i, n, c) ensures i in at {
      if i == k { assert Runs(w, queue, env, k); }
    }
  }

  ghost predicate Runs(w: World, queue: seq<string>, env: nat -> Env, i: nat)
    requires i < |queue|
  {
    exists n, c :: ToExecute(w, queue, env, i, n, c)
  }

  lemma AcceptedEntry(w: World, queue: seq<string>, env: nat -> Env, i: nat) returns (v: Signed)
    requires i < |queue| && Accepted(w, queue, env, i)
    ensures VerdictAt(w, queue, env, i) == Ok(v) && IsEntry(w, queue, env, i, Executed(queue[i], v))
  {
    AcceptedIsOk(w, queue, env, i);
    hide Accepted, VerdictAt, ToExecute;
    v := VerdictAt(w, queue, env, i).value;
    assert v == Signed(v.nonce, v.command);
    AcceptedIs(w, queue, env, i, v.nonce, v.command);
  }

  lemma AcceptedRuns(w: World, queue: seq<string>, env: nat -> Env, i: nat)
    requires i < |queue|
    ensures Accepted(w, queue, env, i) <==> Runs(w, queue, env, i)
  {
    hide Accepted, VerdictAt, ToExecute;
    if Accepted(w, queue, env, i) {
      var v := AcceptedEntry(w, queue, env, i);
    }
    if Runs(w, queue, env, i) {
      var n, c :| ToExecute(w, queue, env, i, n, c);
      AcceptedIs(w, queue, env, i, n, c);
    }
  }

  lemma AcceptedIsOk(w: World, queue: seq<string>, env: nat -> Env, i: nat)
    requires i < |queue|
    ensures Accepted(w, queue, env, i) ==> VerdictAt(w, queue, env, i).Ok?
  {
  }

  /** The queue a run takes up: the wanted request, or all that are pending, if there are any. */
  predicate TakesUp(w: World, wanted: Option<string>, listing: Result<seq<Entry>, string>, queue: seq<string>) {
    if wanted.Some? then queue == [wanted.value] && "elev_cmd_" + wanted.value + ".json" in w.files
    else listing.Ok? && NamesDiffer(listing.value) && queue == Selected(w.files.Keys, listing.value)
  }

  lemma QueueRun(w: World, wanted: Option<string>, listing: Result<seq<Entry>, string>, queue: seq<string>,
                 env: nat -> Env, wroteOk: bool, flush: Save)
    requires TakesUp(w, wanted, listing, queue)
    ensures NoDuplicates(queue)
    ensures var w' := HelperRun(w, wanted, listing, env, wroteOk, flush);
            && w'.log == DrainTo(w, queue, env, |queue|).log
            && (queue != [] ==> w'.files == DrainTo(w, queue, env, |queue|).files)
  {
    if wanted.None? { SelectedOnce(w.files.Keys, listing.value); }
    hide Selected, DrainTo, NoDuplicates, NamesDiffer, FallbackName;
    Single(queue);
  }

  lemma Single(queue: seq<string>)
    ensures |queue| <= 1 ==> NoDuplicates(queue)
  {
  }

  /** What a run executes, in terms of the files it found: the requests to be executed, all of them, each
      once, with the nonce and the command of its file, in the order of the queue. */
  lemma RunExecutes(w: World, wanted: Option<string>, listing: Result<seq<Entry>, string>, queue: seq<string>,
                    env: nat -> Env, wroteOk: bool, flush: Save)
    returns (at: seq<nat>)
    requires TakesUp(w, wanted, listing, queue)
    ensures var log := HelperRun(w, wanted, listing, env, wroteOk, flush).log;
            && w.log <= log && EntriesAt(w, queue, env, at, log[|w.log|..]) && NoneMissed(w, queue, env, |queue|, at)
  {
    hide TakesUp, HelperRun, DrainTo, Executions, EntriesAt, NoneMissed, Remembers, NoDuplicates;
    QueueRun(w, wanted, listing, queue, env, wroteOk, flush);
    DrainExecutes(w, queue, env, |queue|);
    at := ExecutionsAt(w, queue, env, |queue|);
    var added := Executions(w, queue, env, |queue|);
    assert (w.log + added)[|w.log|..] == added;
  }

  // ----- what a run answers

  /** Every request of the queue ends with the answer it deserves, if that could be written: the error
      that its file calls for, the duplicate's error if it is genuine and not executed, and what dispatch
      returned if it is. */
  lemma RunAnswers(w: World, wanted: Option<string>, listing: Result<seq<Entry>, string>, queue: seq<string>,
                   env: nat -> Env, wroteOk: bool, flush: Save, i: nat)
    returns (outcome: Outcome)
    requires TakesUp(w, wanted, listing, queue) && i < |queue|
    ensures var files, id, e := HelperRun(w, wanted, listing, env, wroteOk, flush).files, queue[i], env(i);
            && Deserves(DocAt(w.files, id), e, !Runs(w, queue, env, i), outcome)
            && (if e.wrote && e.renamed then AnsweredWith(files, id, e, outcome)
                else "elev_result_" + id + ".json" !in files)
            && ("elev_cmd_" + id + ".json" in files
                <==> "elev_cmd_" + id + ".json" in w.files && DocAt(w.files, id).Unreadable?)
  {
    var id, e := queue[i], env(i);
    outcome := OutcomeAt(w, queue, env, i);
    AcceptedRuns(w, queue, env, i);
    DocIs(w.files, id);
    OutcomeDeserves(w, queue, env, i);
    hide TakesUp, HelperRun, DrainTo, NoDuplicates, OutcomeAt, Runs, Deserves, Answer, AnsweredWith;
    QueueRun(w, wanted, listing, queue, env, wroteOk, flush);
    DrainAnswers(w, queue, env, |queue|, i);
    NamesAre(id);
    AnswerIs(DrainTo(w, queue, env, |queue|).files, id, e, outcome);
    hide CmdFileName, ResultFileName;
  }

  lemma OutcomeDeserves(w: World, queue: seq<string>, env: nat -> Env, i: nat)
    requires i < |queue|
    ensures Deserves(DocAt(w.files, queue[i]), env(i), !Accepted(w, queue, env, i), OutcomeAt(w, queue, env, i))
  {
    DocIs(w.files, queue[i]);
    var doc := DocAt(w.files, queue[i]);
    AcceptedIsOk(w, queue, env, i);
    assert VerdictAt(w, queue, env, i) == Verdict(doc, env(i));
    hide Verdict, Accepted, Deserves, VerdictAt;
    VerdictDeserves(doc, env(i), !Accepted(w, queue, env, i), OutcomeAt(w, queue, env, i));
  }

  /** A run that takes up nothing executes nothing; its one change, if that could be written, is an
      unsigned error under the wanted request's result name, or under a name of its own. */
  lemma RunWithNothing(w: World, wanted: Option<string>, listing: Result<seq<Entry>, string>, env: nat -> Env,
                       wroteOk: bool, flush: Save)
    requires if wanted.Some? then "elev_cmd_" + wanted.value + ".json" !in w.files
             else listing.Ok? ==> Selected(w.files.Keys, listing.value) == []
    ensures var w' := HelperRun(w, wanted, listing, env, wroteOk, flush);
            && w'.log == w.log && w'.seen == w.seen
            && w'.files == if !wroteOk then w.files
                           else if wanted.Some? then
                             w.files["elev_result_" + wanted.value + ".json"
                                     := Json(NoHmac, None, AnswerBody(None, Err(CommandNotFound)))]
                           else
                             w.files["elev_result.json" := Json(NoHmac, None, AnswerBody(None, Err(
                               if listing.Err? then CannotReadDirectory else NoPendingCommand)))]
  {
    if wanted.Some? { NamesAre(wanted.value); }
    hide Selected, CmdFileName, ResultFileName;
  }
}
