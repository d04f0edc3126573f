/**
  What one helper run does for the whole queue: every request that was pending is answered once
  with the right verdict, what is executed is exactly what is signed, fresh and new, in queue
  order, and nothing else in the directory changes.
 */
module DrainGuarantees {
  import opened Wrappers
  import opened Names
  import opened Nonces
  import opened Selection
  import opened HelperDrain

  // ----- what should happen to each request, told from the start

  function VerdictAt(w: World, queue: seq<string>, env: nat -> Env, k: nat): Result<Signed, Error>
    requires k < |queue|
  {
    Verdict(Look(w.files, CmdFileName(queue[k])), env(k))
  }

  /** The k-th request carries nonce n and everything but the nonce check lets it pass. */
  predicate Carries(w: World, queue: seq<string>, env: nat -> Env, k: nat, n: Nonce)
    requires k < |queue|
  {
    var v := VerdictAt(w, queue, env, k);
    v.Ok? && v.value.nonce == n
  }

  predicate CarriedBefore(w: World, queue: seq<string>, env: nat -> Env, k: nat, n: Nonce)
    requires k <= |queue|
  {
    exists j :: 0 <= j < k && Carries(w, queue, env, j, n)
  }

  /** The map as the helper had it, or as loaded for the first request that was verified. */
  function Loaded(w: World, queue: seq<string>, env: nat -> Env, k: nat): Option<Stamps>
    requires k <= |queue|
  {
    if k == 0 then w.seen
    else
      var before := Loaded(w, queue, env, k - 1);
      if before.None? && VerdictAt(w, queue, env, k - 1).Ok? then Some(Purge(w.disk, Secs(env(k - 1).recordMs)))
      else before
  }

  /** A request is to be executed when it is verified and its nonce neither remembered from
      before nor carried by an earlier verified request of the queue. */
  predicate Accepted(w: World, queue: seq<string>, env: nat -> Env, k: nat)
    requires k < |queue|
  {
    var v := VerdictAt(w, queue, env, k);
    && v.Ok?
    && v.value.nonce !in Base(Loaded(w, queue, env, k), w.disk, Secs(env(k).recordMs))
    && !CarriedBefore(w, queue, env, k, v.value.nonce)
  }

  function OutcomeAt(w: World, queue: seq<string>, env: nat -> Env, k: nat): Outcome
    requires k < |queue|
  {
    var v := VerdictAt(w, queue, env, k);
    if v.Err? then Err(v.error)
    else if Accepted(w, queue, env, k) then env(k).outcome
    else Err(DuplicateNonce(v.value.nonce))
  }

  function Executions(w: World, queue: seq<string>, env: nat -> Env, k: nat): seq<Executed>
    requires k <= |queue|
  {
    if k == 0 then []
    else
      Executions(w, queue, env, k - 1)
      + if Accepted(w, queue, env, k - 1) then [Executed(queue[k - 1], VerdictAt(w, queue, env, k - 1).value)] else []
  }

  // ----- one request touches only its own files

  predicate OwnName(id: string, name: string) {
    name == CmdFileName(id) || name == ResultFileName(id) || name == ResultTempName(id)
  }

  predicate SameFile(files: map<string, Doc>, files': map<string, Doc>, name: string) {
    (name in files <==> name in files') && (name in files ==> files'[name] == files[name])
  }

  lemma AnsweredFiles(files: map<string, Doc>, id: string, outcome: Outcome, e: Env, name: string)
    ensures name != ResultFileName(id) && name != ResultTempName(id)
            ==> SameFile(files, Answered(files, id, outcome, e), name)
    ensures e.wrote && e.renamed ==> ResultFileName(id) in Answered(files, id, outcome, e)
                                     && Answered(files, id, outcome, e)[ResultFileName(id)] == Answer(id, outcome, e)
    ensures !(e.wrote && e.renamed) ==> SameFile(files, Answered(files, id, outcome, e), ResultFileName(id))
  {
    NamesApart(id, id);
    hide CmdFileName, ResultFileName, ResultTempName;
  }

  lemma ConsumedFiles(files: map<string, Doc>, id: string, name: string)
    ensures !OwnName(id, name) ==> SameFile(files, Consumed(files, id), name)
    ensures ResultFileName(id) !in Consumed(files, id)
    ensures CmdFileName(id) in Consumed(files, id) <==> CmdFileName(id) in files && files[CmdFileName(id)].Unreadable?
  {
    NamesApart(id, id);
    hide CmdFileName, ResultFileName, ResultTempName;
  }

  /** What handling a request leaves of its own files, and of all others. */
  lemma ProcessedFiles(w: World, id: string, e: Env, name: string)
    ensures !OwnName(id, name) ==> SameFile(w.files, Processed(w, id, e).files, name)
    ensures !(e.wrote && e.renamed) ==> ResultFileName(id) !in Processed(w, id, e).files
    ensures CmdFileName(id) in Processed(w, id, e).files
            <==> CmdFileName(id) in w.files && w.files[CmdFileName(id)].Unreadable?
    ensures var v := Verdict(Look(w.files, CmdFileName(id)), e);
            var outcome := if v.Err? then Err(v.error)
                           else if Checked(w, v.value.nonce, e).isNew then e.outcome
                           else Err(DuplicateNonce(v.value.nonce));
            e.wrote && e.renamed ==> ResultFileName(id) in Processed(w, id, e).files
                                     && Processed(w, id, e).files[ResultFileName(id)] == Answer(id, outcome, e)
  {
    var files := Consumed(w.files, id);
    var v := Verdict(Look(w.files, CmdFileName(id)), e);
    var outcome := if v.Err? then Err(v.error)
                   else if Checked(w, v.value.nonce, e).isNew then e.outcome
                   else Err(DuplicateNonce(v.value.nonce));
    ConsumedFiles(w.files, id, name);
    AnsweredFiles(files, id, outcome, e, name);
    AnsweredFiles(files, id, outcome, e, CmdFileName(id));
    NamesApart(id, id);
    assert Processed(w, id, e).files == Answered(files, id, outcome, e) by {
      hide CmdFileName, ResultFileName, ResultTempName, Verdict, Checked, Answered, Consumed, Look;
    }
    hide CmdFileName, ResultFileName, ResultTempName, Verdict, Checked, Answered, Consumed, Processed, Look, Answer;
  }

  // ----- the nonces

  lemma {:induction false} LoadedMeans(w: World, queue: seq<string>, env: nat -> Env, k: nat, n: Nonce)
    requires k <= |queue| && Loaded(w, queue, env, k).None?
    ensures !CarriedBefore(w, queue, env, k, n)
  {
    if k > 0 {
      LoadedMeans(w, queue, env, k - 1, n);
      assert VerdictAt(w, queue, env, k - 1).Err?;
      assert forall j :: 0 <= j < k - 1 ==> !Carries(w, queue, env, j, n);
    }
  }

  /** What the helper remembers after k requests. */
  ghost predicate Remembers(w: World, queue: seq<string>, env: nat -> Env, k: nat, s: World)
    requires k <= |queue|
  {
    var loaded := Loaded(w, queue, env, k);
    if loaded.None? then s.seen.None? && s.disk == w.disk
    else s.seen.Some? && forall n :: n in s.seen.value <==> n in loaded.value || CarriedBefore(w, queue, env, k, n)
  }

  lemma CarriedStep(w: World, queue: seq<string>, env: nat -> Env, k: nat, n: Nonce)
    requires k < |queue|
    ensures CarriedBefore(w, queue, env, k + 1, n)
            <==> CarriedBefore(w, queue, env, k, n) || Carries(w, queue, env, k, n)
  {
    if CarriedBefore(w, queue, env, k, n) {
      var j :| 0 <= j < k && Carries(w, queue, env, j, n);
    }
  }

  /** The nonce check accepts the k-th request exactly when it should. */
  lemma CheckIsRight(w: World, queue: seq<string>, env: nat -> Env, k: nat, s: World)
    requires k < |queue| && Remembers(w, queue, env, k, s) && VerdictAt(w, queue, env, k).Ok?
    ensures var n := VerdictAt(w, queue, env, k).value.nonce;
            && Checked(s, n, env(k)).isNew == Accepted(w, queue, env, k)
            && (n in Base(s.seen, s.disk, Secs(env(k).recordMs)) <==> !Accepted(w, queue, env, k))
  {
    var n := VerdictAt(w, queue, env, k).value.nonce;
    AdmitNew(s.seen, s.disk, n, Secs(env(k).recordMs), env(k).save.Saved?);
    if Loaded(w, queue, env, k).None? { LoadedMeans(w, queue, env, k, n); }
    BaseIs(s.seen, s.disk, Secs(env(k).recordMs));
    BaseIs(Loaded(w, queue, env, k), w.disk, Secs(env(k).recordMs));
    hide VerdictAt, CarriedBefore, Admit, Loaded, Base, Purge;
  }

  lemma SeenAfter(s: World, n: Nonce, e: Env, n': Nonce)
    ensures n' in Checked(s, n, e).seen <==> n' in Base(s.seen, s.disk, Secs(e.recordMs)) || n' == n
  {
    AdmitNew(s.seen, s.disk, n, Secs(e.recordMs), e.save.Saved?);
    hide Admit, Base;
  }

  lemma ProcessedMaps(s: World, id: string, e: Env)
    ensures var v, s' := Verdict(Look(s.files, CmdFileName(id)), e), Processed(s, id, e);
            if v.Err? then s'.seen == s.seen && s'.disk == s.disk && s'.log == s.log
            else && s'.seen == Some(Checked(s, v.value.nonce, e).seen)
                 && s'.log == if Checked(s, v.value.nonce, e).isNew then s.log + [Executed(id, v.value)] else s.log
  {
    hide Checked, Verdict, Answered, Consumed, CmdFileName, Look;
  }

  lemma RemembersStep(w: World, queue: seq<string>, env: nat -> Env, k: nat, s: World)
    requires k < |queue| && Remembers(w, queue, env, k, s)
    requires Verdict(Look(s.files, CmdFileName(queue[k])), env(k)) == VerdictAt(w, queue, env, k)
    ensures Remembers(w, queue, env, k + 1, Processed(s, queue[k], env(k)))
  {
    var v := VerdictAt(w, queue, env, k);
    var s' := Processed(s, queue[k], env(k));
    ProcessedMaps(s, queue[k], env(k));
    hide Processed, Verdict, CmdFileName, Look;
    var loaded, loaded' := Loaded(w, queue, env, k), Loaded(w, queue, env, k + 1);
    if v.Err? {
      hide VerdictAt, Loaded;
      forall n ensures CarriedBefore(w, queue, env, k + 1, n) <==> CarriedBefore(w, queue, env, k, n) {
        CarriedStep(w, queue, env, k, n);
      }
      LoadedStep(w, queue, env, k);
    } else {
      LoadedStep(w, queue, env, k);
      BaseIs(s.seen, s.disk, Secs(env(k).recordMs));
      hide Loaded, CarriedBefore, VerdictAt;
      forall n ensures n in s'.seen.value <==> n in loaded'.value || CarriedBefore(w, queue, env, k + 1, n) {
        CarriedStep(w, queue, env, k, n);
        SeenAfter(s, v.value.nonce, env(k), n);
        if loaded.None? { LoadedMeans(w, queue, env, k, n); }
      }
    }
  }

  lemma LoadedStep(w: World, queue: seq<string>, env: nat -> Env, k: nat)
    requires k < |queue|
    ensures Loaded(w, queue, env, k + 1)
            == if Loaded(w, queue, env, k).None? && VerdictAt(w, queue, env, k).Ok?
               then Some(Purge(w.disk, Secs(env(k).recordMs))) else Loaded(w, queue, env, k)
  {
    hide VerdictAt, Purge;
  }

  // ----- the whole queue

  /** The commands not yet reached are as they were. */
  lemma {:induction false} LaterCommandsKept(w: World, queue: seq<string>, env: nat -> Env, k: nat, name: string)
    requires k <= |queue| && forall j :: 0 <= j < k ==> !OwnName(queue[j], name)
    ensures SameFile(w.files, DrainTo(w, queue, env, k).files, name)
  {
    hide OwnName, Processed;
    if k > 0 {
      LaterCommandsKept(w, queue, env, k - 1, name);
      ProcessedFiles(DrainTo(w, queue, env, k - 1), queue[k - 1], env(k - 1), name);
    }
  }

  lemma CommandKept(w: World, queue: seq<string>, env: nat -> Env, k: nat)
    requires k < |queue| && NoDuplicates(queue)
    ensures SameFile(w.files, DrainTo(w, queue, env, k).files, CmdFileName(queue[k]))
    ensures Look(DrainTo(w, queue, env, k).files, CmdFileName(queue[k])) == Look(w.files, CmdFileName(queue[k]))
  {
    forall j | 0 <= j < k ensures !OwnName(queue[j], CmdFileName(queue[k])) {
      assert queue[j] != queue[k];
      NamesApart(queue[k], queue[j]);
      hide CmdFileName, ResultFileName, ResultTempName;
    }
    hide CmdFileName, OwnName, DrainTo;
    LaterCommandsKept(w, queue, env, k, CmdFileName(queue[k]));
  }

  lemma LogStep(w: World, queue: seq<string>, env: nat -> Env, k: nat, s: World)
    requires k < |queue| && Remembers(w, queue, env, k, s)
    requires Verdict(Look(s.files, CmdFileName(queue[k])), env(k)) == VerdictAt(w, queue, env, k)
    requires s.log == w.log + Executions(w, queue, env, k)
    ensures Processed(s, queue[k], env(k)).log == w.log + Executions(w, queue, env, k + 1)
  {
    ProcessedMaps(s, queue[k], env(k));
    if VerdictAt(w, queue, env, k).Ok? { CheckIsRight(w, queue, env, k, s); }
    hide Processed, Verdict, VerdictAt, Look, CmdFileName, Checked, Remembers, Base, Loaded, CarriedBefore;
  }

  /** A queue executes exactly the requests it should, in its order. */
  lemma {:induction false} DrainExecutes(w: World, queue: seq<string>, env: nat -> Env, k: nat)
    requires k <= |queue| && NoDuplicates(queue)
    ensures DrainTo(w, queue, env, k).log == w.log + Executions(w, queue, env, k)
    ensures Remembers(w, queue, env, k, DrainTo(w, queue, env, k))
  {
    hide Remembers, Processed, Look, Verdict, CmdFileName, Executions;
    if k == 0 {
      EmptyRemembers(w, queue, env);
    } else {
      var s := DrainTo(w, queue, env, k - 1);
      DrainExecutes(w, queue, env, k - 1);
      CommandKept(w, queue, env, k - 1);
      LogStep(w, queue, env, k - 1, s);
      RemembersStep(w, queue, env, k - 1, s);
    }
  }

  lemma EmptyRemembers(w: World, queue: seq<string>, env: nat -> Env)
    ensures Remembers(w, queue, env, 0, w) && Executions(w, queue, env, 0) == []
  {
  }

  /** The file that answers the k-th request at the end of the queue. */
  lemma {:induction false} DrainAnswers(w: World, queue: seq<string>, env: nat -> Env, k: nat, i: nat)
    requires i < k <= |queue| && NoDuplicates(queue)
    ensures var files, id, e := DrainTo(w, queue, env, k).files, queue[i], env(i);
            && (e.wrote && e.renamed ==> ResultFileName(id) in files
                                         && files[ResultFileName(id)] == Answer(id, OutcomeAt(w, queue, env, i), e))
            && (!(e.wrote && e.renamed) ==> ResultFileName(id) !in files)
            && (CmdFileName(id) in files <==> CmdFileName(id) in w.files && w.files[CmdFileName(id)].Unreadable?)
  {
    hide Processed, CmdFileName, ResultFileName, ResultTempName, OutcomeAt, Answer, NoDuplicates;
    if i == k - 1 {
      AnswersLast(w, queue, env, i);
    } else {
      DrainAnswers(w, queue, env, k - 1, i);
      AnswerStays(w, queue, env, k - 1, i);
    }
  }

  lemma AnswerStays(w: World, queue: seq<string>, env: nat -> Env, k: nat, i: nat)
    requires i < k < |queue| && NoDuplicates(queue)
    ensures SameFile(DrainTo(w, queue, env, k).files, DrainTo(w, queue, env, k + 1).files, CmdFileName(queue[i]))
    ensures SameFile(DrainTo(w, queue, env, k).files, DrainTo(w, queue, env, k + 1).files, ResultFileName(queue[i]))
  {
    var s := DrainTo(w, queue, env, k);
    assert queue[i] != queue[k];
    NamesApart(queue[i], queue[k]);
    NamesApart(queue[k], queue[i]);
    hide Processed, CmdFileName, ResultFileName, ResultTempName, NoDuplicates;
    ProcessedFiles(s, queue[k], env(k), CmdFileName(queue[i]));
    ProcessedFiles(s, queue[k], env(k), ResultFileName(queue[i]));
  }

  lemma AnswersLast(w: World, queue: seq<string>, env: nat -> Env, i: nat)
    requires i < |queue| && NoDuplicates(queue)
    ensures var files, id, e := DrainTo(w, queue, env, i + 1).files, queue[i], env(i);
            && (e.wrote && e.renamed ==> ResultFileName(id) in files
                                         && files[ResultFileName(id)] == Answer(id, OutcomeAt(w, queue, env, i), e))
            && (!(e.wrote && e.renamed) ==> ResultFileName(id) !in files)
            && (CmdFileName(id) in files <==> CmdFileName(id) in w.files && w.files[CmdFileName(id)].Unreadable?)
  {
    var s := DrainTo(w, queue, env, i);
    DrainExecutes(w, queue, env, i);
    CommandKept(w, queue, env, i);
    ProcessedFiles(s, queue[i], env(i), "");
    if VerdictAt(w, queue, env, i).Ok? { CheckIsRight(w, queue, env, i, s); }
    hide Processed, Verdict, CmdFileName, ResultFileName, Checked, Accepted, Remembers, Executions, Answer, Base;
  }

  // ----- whole runs

  predicate IsPending(w: World, id: string) {
    CmdFileName(id) in w.files && ResultFileName(id) !in w.files
  }

  /** A helper started without a request id handles every pending request: each has, when its answer
      could be written, exactly the answer it deserves under its own name, and its command file is
      gone unless it could not be read. */
  lemma RunAnswersPending(w: World, listing: seq<Entry>, env: nat -> Env, wroteOk: bool, flush: Save, id: string)
    requires Lists(listing, w.files.Keys) && IsPending(w, id)
    ensures var queue := Selected(w.files.Keys, listing);
            var files := HelperRun(w, None, Ok(listing), env, wroteOk, flush).files;
            exists i :: 0 <= i < |queue| && queue[i] == id
                   && (if env(i).wrote && env(i).renamed
                       then ResultFileName(id) in files
                            && files[ResultFileName(id)] == Answer(id, OutcomeAt(w, queue, env, i), env(i))
                       else ResultFileName(id) !in files)
                   && (CmdFileName(id) in files <==> w.files[CmdFileName(id)].Unreadable?)
  {
    var queue := Selected(w.files.Keys, listing);
    SelectedExactly(w.files.Keys, listing, id);
    SelectedOnce(w.files.Keys, listing);
    var i :| 0 <= i < |queue| && queue[i] == id;
    DrainAnswers(w, queue, env, |queue|, i);
    hide Selected, DrainTo, CmdFileName, ResultFileName, OutcomeAt, Answer, NoDuplicates, Lists;
  }

  /** Nothing else in the directory changes: not a request that already has its result, and no other
      file. */
  lemma RunKeepsTheRest(w: World, listing: seq<Entry>, env: nat -> Env, wroteOk: bool, flush: Save, name: string)
    requires Lists(listing, w.files.Keys) && name != "elev_result.json"
    requires forall id :: IsPending(w, id) ==> !OwnName(id, name)
    ensures SameFile(w.files, HelperRun(w, None, Ok(listing), env, wroteOk, flush).files, name)
  {
    var queue := Selected(w.files.Keys, listing);
    forall j | 0 <= j < |queue| ensures !OwnName(queue[j], name) {
      SelectedExactly(w.files.Keys, listing, queue[j]);
      assert IsPending(w, queue[j]);
    }
    hide Selected, OwnName, DrainTo;
    LaterCommandsKept(w, queue, env, |queue|, name);
  }

  /** The selected requests, each once, are executed in the order of selection. */
  lemma RunOrder(w: World, listing: seq<Entry>, env: nat -> Env, wroteOk: bool, flush: Save)
    requires NamesDiffer(listing)
    ensures var queue := Selected(w.files.Keys, listing);
            && NoDuplicates(queue)
            && HelperRun(w, None, Ok(listing), env, wroteOk, flush).log == w.log + Executions(w, queue, env, |queue|)
  {
    var queue := Selected(w.files.Keys, listing);
    SelectedOnce(w.files.Keys, listing);
    DrainExecutes(w, queue, env, |queue|);
    hide Selected, Remembers, NoDuplicates;
  }

  function NonceOf(e: Executed): Nonce { e.signed.nonce }

  /** No entry's nonce was in the map m, and no two entries share one. */
  predicate NewAndDistinct(log: seq<Executed>, m: Stamps) {
    && (forall i :: 0 <= i < |log| ==> NonceOf(log[i]) !in m)
    && (forall i, j :: 0 <= i < j < |log| ==> NonceOf(log[i]) != NonceOf(log[j]))
  }

  predicate AllCarried(w: World, queue: seq<string>, env: nat -> Env, k: nat, log: seq<Executed>)
    requires k <= |queue|
  {
    forall i :: 0 <= i < |log| ==> CarriedBefore(w, queue, env, k, NonceOf(log[i]))
  }

  lemma {:induction false} ExecutionsDistinct(w: World, queue: seq<string>, env: nat -> Env, k: nat)
    requires k <= |queue|
    ensures AllCarried(w, queue, env, k, Executions(w, queue, env, k))
    ensures Loaded(w, queue, env, k).Some?
            ==> NewAndDistinct(Executions(w, queue, env, k), Loaded(w, queue, env, k).value)
    ensures Loaded(w, queue, env, k).None? ==> Executions(w, queue, env, k) == []
  {
    if k > 0 {
      ExecutionsDistinct(w, queue, env, k - 1);
      LoadedStep(w, queue, env, k - 1);
      var before := Executions(w, queue, env, k - 1);
      CarriedStays(w, queue, env, k - 1, before);
      if Accepted(w, queue, env, k - 1) {
        var e := Executed(queue[k - 1], VerdictAt(w, queue, env, k - 1).value);
        assert Carries(w, queue, env, k - 1, NonceOf(e));
        CarriedStep(w, queue, env, k - 1, NonceOf(e));
        BaseIs(Loaded(w, queue, env, k - 1), w.disk, Secs(env(k - 1).recordMs));
        hide VerdictAt, CarriedBefore, Loaded, Base, Carries, Purge;
      } else {
        hide VerdictAt, CarriedBefore, Loaded, Accepted, Purge;
      }
    }
  }

  lemma CarriedStays(w: World, queue: seq<string>, env: nat -> Env, k: nat, log: seq<Executed>)
    requires k < |queue| && AllCarried(w, queue, env, k, log)
    ensures AllCarried(w, queue, env, k + 1, log)
  {
    hide CarriedBefore;
    forall i | 0 <= i < |log| ensures CarriedBefore(w, queue, env, k + 1, NonceOf(log[i])) {
      CarriedStep(w, queue, env, k, NonceOf(log[i]));
    }
  }

  /** What a run appends to the log carries pairwise different nonces, none of them in the map that
      the helper had or loaded. */
  lemma NoNonceTwice(w: World, listing: seq<Entry>, env: nat -> Env, wroteOk: bool, flush: Save)
    requires NamesDiffer(listing)
    ensures var queue, log := Selected(w.files.Keys, listing), HelperRun(w, None, Ok(listing), env, wroteOk, flush).log;
            var loaded := Loaded(w, queue, env, |queue|);
            && w.log <= log
            && (log == w.log || (loaded.Some? && NewAndDistinct(log[|w.log|..], loaded.value)))
  {
    var queue := Selected(w.files.Keys, listing);
    RunOrder(w, listing, env, wroteOk, flush);
    ExecutionsDistinct(w, queue, env, |queue|);
    var added := Executions(w, queue, env, |queue|);
    assert (w.log + added)[|w.log|..] == added;
    hide Selected, HelperRun, Loaded, NewAndDistinct, AllCarried, Executions;
  }

  /** The flush leaves on disk every nonce that was executed, however few the batch writes saved. */
  lemma FlushStoresExecuted(w: World, queue: seq<string>, env: nat -> Env, i: nat)
    requires i < |queue| && NoDuplicates(queue) && Accepted(w, queue, env, i)
    ensures VerdictAt(w, queue, env, i).value.nonce in Flushed(DrainTo(w, queue, env, |queue|), Saved).disk
  {
    var n := VerdictAt(w, queue, env, i).value.nonce;
    DrainExecutes(w, queue, env, |queue|);
    assert Carries(w, queue, env, i, n);
    assert CarriedBefore(w, queue, env, |queue|, n);
    if Loaded(w, queue, env, |queue|).None? { LoadedMeans(w, queue, env, |queue|, n); }
    hide Carries, CarriedBefore, VerdictAt, Loaded, DrainTo, Accepted;
  }

  // ----- a helper started for one request

  /** It handles that request and touches no other file. */
  lemma RunAnswersWanted(w: World, id: string, listing: Result<seq<Entry>, string>, env: nat -> Env, wroteOk: bool,
                         flush: Save, name: string)
    requires CmdFileName(id) in w.files && !OwnName(id, name)
    ensures var files, e := HelperRun(w, Some(id), listing, env, wroteOk, flush).files, env(0);
            && (if e.wrote && e.renamed
                then ResultFileName(id) in files
                     && files[ResultFileName(id)] == Answer(id, OutcomeAt(w, [id], env, 0), e)
                else ResultFileName(id) !in files)
            && (CmdFileName(id) in files <==> w.files[CmdFileName(id)].Unreadable?)
            && SameFile(w.files, files, name)
  {
    DrainAnswers(w, [id], env, 1, 0);
    LaterCommandsKept(w, [id], env, 1, name);
    hide DrainTo, CmdFileName, ResultFileName, OutcomeAt, Answer, OwnName;
  }

  /** Without the command file it executes nothing and leaves an unsigned error as the only change,
      which no caller takes for an answer. */
  lemma RunWithoutCommand(w: World, id: string, listing: Result<seq<Entry>, string>, env: nat -> Env, flush: Save,
                          name: string)
    requires CmdFileName(id) !in w.files && name != ResultFileName(id)
    ensures var w' := HelperRun(w, Some(id), listing, env, true, flush);
            && w'.log == w.log && w'.seen == w.seen && SameFile(w.files, w'.files, name)
            && ResultFileName(id) in w'.files && w'.files[ResultFileName(id)].Json?
            && w'.files[ResultFileName(id)].hmac == NoHmac && w'.files[ResultFileName(id)].body.AnswerBody?
            && w'.files[ResultFileName(id)].body.outcome == Err(CommandNotFound)
  {
    hide CmdFileName, ResultFileName;
  }
}
