# MiControl: verified models

Dafny models of the parts of MiControl whose correctness depends on many steps, and proofs of what
they promise. `dafny verify dfyconfig.toml` checks everything.

## What is modelled

**The elevated request protocol.** `ElevProtocol` is a state machine over the shared directory: any
number of calls of the program and any number of helper processes, interleaved at every file access,
with temporary files, renames, torn files, kills, a clock, the nonce map on disk and in each
helper's memory. A third party may at any time file a copy of any signed command under any request
id, and plant unsigned replies or copies of signed ones. Three theorems rest on it.

- `ProtocolReplies`: a call that returns Ok through the file path has the data of a dispatch of a
  payload filed under its id, so of its own command unless another one was filed there.
- `ProtocolNonces`: when helpers do not overlap, and each records a nonce at most 269 s after it
  verified the payload, repeated dispatches are at most the nonces that helpers left with unsaved.
  There are none if every helper flushes, and at most two for each helper that leaves without
  flushing as long as batch writes succeed. Both bounds are reached: `KilledHelperCostsTwo`,
  `LateRecordRunsTwice`.
- `ProtocolFiles`: which replies a call may read half-written, and which rewritten commands are
  always stale.

`ProtocolWitnesses` gives whole runs from the empty directory in which helpers overlap, share a request,
find a misfiled command, are killed or wait too long, and a conclusion fails with it, and one in which
an honest call gets its data. `Nonces` holds the freshness window, the purge and the batch write. `HelperDrain`
is one helper as a class whose methods change the directory and the maps branch by branch;
`DrainGuarantees` proves what one run does for a whole queue, and `DrainLaws` says it once more in terms
of the files it finds: which commands are executed, and which error every other document is answered
with. `Selection` proves the order;
`ProtocolRefinement` proves that the state machine's helper steps, uninterrupted, are
`ProcessPending`. `Names` covers ids and file names, `Commands` the timeouts, `DispatchLadder` the way
a call climbs from pipe to prompt, `LadderRuns` when it may ask the user and how a lone call ends for
every outcome of every rung, and `ScancodeMap` the registry value that one command writes.

**The crash-report redactor.** `Rewriting` is the reference: a left-to-right rewrite. `Guarantees`
states the three promises and proves that each pass establishes its own and keeps the earlier ones.
`FirstOccurrence` is the loop that the first two passes share, which rewrites the first occurrence of
what it found, as a function. `UserNameRedaction`, `UncRedaction` and `Ipv6Redaction` hold the loops,
proved against that function and against the reference for every input; `Segments` shows that a
segment which one drive's user-name loop left unlike the rewrite stays unlike it through all later drives;
`PlainPromises` states promises and replacements in plain characters and shows that the first two passes
bring no address to light; `RedactPii` composes the passes, and
`RedactionWitnesses` holds the inputs on which a promise fails. `Strings` is string lemmas.

**Three smaller machines.** `HealthSupervisor` (four interleaved checks, repair cooldown), `Polling`
and `PerformanceMode` (the polling hook's watchdog, and the optimistic mode change), and
`FaceCredential` (attempt threads and serialization calls over one authentication state).

## Findings

- `replacen` replaces the first occurrence in the whole string. The user-name loop keeps its promise,
  and is the plain rewrite, exactly when no user name after the first of its drive is a proper prefix
  of `<redacted>` (an empty name is one): `RedactDrive`, `SecondNameLost`. The loops of all drives come
  to the 26 rewrites exactly when each drive's loop does: `RedactPathUsername`. Their promise is another
  matter: the names of a later drive may hold every place that was missed, `LaterDriveSwallows`, and the
  address pass may take the drive letters away, `AddressesSwallow`; on other inputs it is broken in the
  end, `UserNameLost`. No later pass breaks what the user-name loops achieved: `UsersKept`.
- The UNC loop is the plain rewrite exactly when every match is `\\[REDACTED_PATH]` itself or does not
  occur in the text rewritten before it: `LoopedOutcome`. Its promise fails in two ways. A later match
  that is a proper prefix of the mark is left behind: `ShortMatchLost`. A later match that begins with
  the mark and ends in the separator of an empty share may be left behind with a bare double backslash:
  `EmptyShareLost`; or without one: `EmptyShareKept`. Where there are none of the second kind, the
  promise is kept exactly when there are none of the first; more precisely, it is decided unless such a
  match is found earlier in the text and not followed by `\[REDACTED_PATH]`: `HarmlessExactly`. The
  address pass behind it neither breaks nor repairs anything, so the same holds of the whole pass:
  `UncDecides`, `UncPathLost`, `EmptySharePathLost`.
- A timeout of 45 or 90 s is longer than the 30 s freshness window, so the command that a call
  rewrites after it is always rejected: `SlowRetryIsRejected`. Only commands with the 15 s timeout
  can be retried.
- Helpers that overlap share no memory. A retry is dispatched a second time exactly when the earlier
  helper has not yet written the nonce: `RetryDispatchesAgain`, with a whole run in
  `RetriedCommandRunsTwice`; which nonces are written then is `OnDiskExactly`. The five-minute purge is
  safe as long as a helper records a nonce at most 269 s after verifying its payload (239 s, if payloads
  may be dated 30 s ahead), and that bound is tight: `GapIsTight`, `LateRecordRunsTwice`.
- Two helpers on one request share its temporary result file and can publish a torn reply:
  `TornReplyIsRead`. The answer to a missing command file is written in place and can be read
  half-written: `RepliesReadWhole`.
- Nobody compares the request id inside a command with the name of its file (the field at
  `src-tauri/src/elevated.rs:308` is not read), so a signed command filed under another id is answered
  there as if it were that request's own: `MisfiledCommandIsAnswered`. It still runs at most once.
- After the second prompt nothing is counted and the streak is not reset, whatever comes of it: `LoneCall`.
- The circuit breaker counts exactly the calls whose retry of the scheduled task or whose first prompt
  worked: `CountedCallsHadAHelper`, `OpenBreakerHadHelpers`, `TotalFailureIsNotCounted`. The comment at
  `src-tauri/src/elev_bridge.rs:489-491` says it counts total failures; the model follows the code.
- A leg given up by the stall watchdog takes down the in-flight flag of its successor when it settles
  late, so that three legs can run at once: `LateLegFreesItsSuccessor`, `ThreeLegsAtOnce`.
- A slow poll that read the mode before a write and settles after the 1500 ms grace period shows the
  old mode again; so does any leg when a second write fails inside the grace period of the first:
  `SlowLegBringsBack`, `FailureEndsTheGrace`.
- A failed face attempt is never repeated in the credential's life: `NoSecondAttempt`.
- `\\server\share` with no further backslash loses only `\\server` (`src-tauri/src/lib.rs:1562-1566`),
  and the UNC pass is not idempotent: `UncNotIdempotent`. The comment at `src-tauri/src/lib.rs:1596`
  gives `::1` as an address; a run is only considered from its first hex digit, so it is kept.

## Assumptions

- Signatures are ideal: only the program signs commands and only a helper signs replies; copies of both
  may turn up under any name. Nonces are unique, also against those already stored.
- In the protocol machine, in `Polling` and in `PerformanceMode` the clock does not go backwards. In
  `HealthSupervisor` it is arbitrary.
- Every read, write, rename and removal of a file is one step; a file being written is torn.
  Removing a file that exists succeeds. Writes and renames of replies may fail.
- Clock readings in milliseconds are unsigned 64-bit numbers; the sums around them saturate.
- One clock reading serves loading and recording a nonce.
- `find`, `replacen` and the stable sort are modelled by functions whose meaning is proved; strings
  are sequences of characters. Mutexes are never poisoned.
- `dispatch`, launches, the pipe and consent are arbitrary outcomes of the environment.

## Model

| member | source | states |
|---|---|---|
| `ProtocolReplies.OkIsOwnData` | src-tauri/src/elev_bridge.rs:495-534 | Over every run in which no other payload is filed under its id, an Ok answer is the data of a dispatch of this very call's signed command, at a step of the run; planted replies never get through the call's checks |
| `ProtocolReplies.OkIsFiledData` | src-tauri/src/elev_bridge.rs:495-534 | Over every run at all, an Ok answer is the data of a dispatch of a payload that was filed under the call's id |
| `ProtocolReplies.JudgesExactly` | src-tauri/src/elev_bridge.rs:500-534 | A call that holds a reply returns data exactly when the reply is whole, signed, for its request, within 30 s of the clock and brings that data; a good reply's error is returned as it is, each other reply has its own error, and the request's files are gone |
| `ProtocolWitnesses.HonestCallGetsData` | src-tauri/src/elev_bridge.rs:495-534 | A run from the empty directory in which a call gets its own command's data, for any wait of up to 30 s before the helper and any delay of up to 30 s behind the reply |
| `ProtocolWitnesses.TakesReply` | src-tauri/src/elev_bridge.rs:495-534 | From any state, a polling call that finds a good reply can end with its outcome |
| `ElevProtocol.OthersMayFile` | src-tauri/src/elev_bridge.rs:500-534 | What others may do to a request's files in any state: remove them, copy any signed command or reply there, write an unsigned reply |
| `ProtocolWitnesses.MisfiledCommandIsAnswered` | src-tauri/src/elevated.rs:117-177 | A run in which a call returns Ok with the data of another request's command, filed under its id |
| `ProtocolReplies.RunKeeps` | src-tauri/src/elevated.rs:117-231 | After any run, whole commands are signed payloads filed under their id, and signed replies, wherever they lie, carry what dispatch made for a payload of the request they name |
| `ProtocolReplies.MadeInRun` | src-tauri/src/elevated.rs:165-171 | Data counted as made in a run was returned by a dispatch step of that run for the same request and command |
| `ProtocolNonces.RepeatsAreLosses` | src-tauri/src/elevated.rs:129-177 | Without overlapping helpers, dispatches beyond the first of each nonce are at most the nonces lost when helpers left |
| `ProtocolNonces.FlushedRunsDispatchOnce` | src-tauri/src/elevated.rs:80-88 | When every helper that left had flushed, all dispatched nonces are distinct, whatever calls rewrite after timeouts and whatever copies of commands others file |
| `ProtocolNonces.KilledHelperLosesTwo` | src-tauri/src/elevated.rs:155-159 | With successful batch writes, a running helper never holds more than two accepted nonces that are not stored, and the helpers that left unflushed cost at most two repeats each |
| `ProtocolWitnesses.KilledHelperCostsTwo` | src-tauri/src/elevated.rs:155-159 | A run from the empty directory, with helpers one at a time and working batch writes, in which a single killed helper costs two repeated dispatches |
| `ProtocolWitnesses.LateRecordRunsTwice` | src-tauri/src/elevated.rs:286-290 | A run from the empty directory, serial and with every helper flushing, in which a helper that records one millisecond past the 269 s after its check dispatches a nonce for the second time |
| `ProtocolNonces.RunKeeps` | src-tauri/src/elevated.rs:279-294 | After any serial run a dispatched nonce is remembered, too old to be recorded, or counted as lost |
| `ProtocolNonces.StartedHelperRecords` | src-tauri/src/elevated.rs:117-177 | A helper started in any state dispatches a whole fresh command exactly when the purged store does not know its nonce |
| `ProtocolNonces.RetryDispatchesAgain` | src-tauri/src/elev_bridge.rs:537-563 | A timed-out call's rewrite plus a second helper dispatches the nonce exactly when the store does not know it, and if it was dispatched before, that is one repeat more |
| `ProtocolWitnesses.RetriedCommandRunsTwice` | src-tauri/src/elev_bridge.rs:537-563 | A run from the empty directory, with a 15 s command, a helper still at work and a second one, that begins the same nonce twice |
| `ProtocolFiles.RepliesReadWhole` | src-tauri/src/elevated.rs:49-77 | If no two helpers work on one request, the only torn reply a call can hold is run()'s answer to a missing command file |
| `ProtocolFiles.SharedRequestTears` | src-tauri/src/elevated.rs:213-228 | From any state in which two helpers of one request are about to rename and to write, two steps publish a torn reply |
| `ProtocolWitnesses.TornReplyIsRead` | src-tauri/src/elevated.rs:213-228 | A run from the empty directory in which the command was executed, no helper fell back, and the call holds a torn reply |
| `ProtocolFiles.SlowRetryIsRejected` | src-tauri/src/elev_bridge.rs:551-553 | After any run, a command rewritten after a timeout above 30 s is answered with an error by every helper that checks it |
| `ProtocolRefinement.StepsAreProcessPending` | src-tauri/src/elevated.rs:117-231 | The protocol machine's steps for one request, uninterrupted, end with the maps, the executed command and nonce, the consumed command and the reply of process_pending, whatever the clock reads at each step and whether the writes succeed |
| `Nonces.PurgedIsRetired` | src-tauri/src/elevated.rs:286-290 | A nonce that loading purges belongs to a payload that can no longer be recorded |
| `Nonces.RecordableIsNotRetired` | src-tauri/src/util/auth.rs:216-221 | A payload that passed the freshness check at most the gap ago is not too old: 269 s if payloads are not dated ahead, 239 s if by up to 30 s |
| `Nonces.GapIsTight` | src-tauri/src/elevated.rs:289 | For every such skew, one millisecond more and a purge can forget a nonce whose payload passed the freshness check |
| `Nonces.FreshStampOk` | src-tauri/src/elevated.rs:151-155 | A nonce recorded after its payload passed the freshness check carries a stamp that a later load can rely on |
| `Nonces.UnsavedBounded` | src-tauri/src/elevated.rs:139-160 | An acceptance keeps the unsaved nonces at most the map size modulo three |
| `Nonces.OnDiskExactly` | src-tauri/src/elevated.rs:155-159 | The k-th nonce accepted by a running helper is stored exactly when the map size reached a multiple of three at or after it |
| `Nonces.OverlapAcceptsAgain` | src-tauri/src/elevated.rs:139-160 | A second helper accepts that nonce again exactly when it did not |
| `HelperDrain.Helper.ProcessPending` | src-tauri/src/elevated.rs:117-231 | The directory, both maps and the execution log afterwards, for every branch; the log grows by a nonce and a command exactly when the command file carries them under a valid signature, was checked with a key within 30 s of its date, and the nonce is neither held nor stored within 300 s, and otherwise not at all |
| `HelperDrain.ExecutesGenuine` | src-tauri/src/elevated.rs:129-177 | The same of a request's effect on the log, without the steps of the check |
| `DrainLaws.AnswersAsDeserved` | src-tauri/src/elevated.rs:117-231 | For every document found under a request's name the error that is answered, in the order of the checks, or the duplicate's error, or what dispatch returned; signed if a key can be read, dated, under the request's id; and the old result, the command and the temporary file are gone |
| `DrainLaws.RunExecutes` | src-tauri/src/elevated.rs:80-82 | What a run adds to the log, in terms of the files it found: the requests whose command file is genuine, whose nonce no earlier genuine one carries and which was unknown when the first genuine one was taken up; all of them, in the order of the queue, with the nonce and command of the file |
| `DrainLaws.RunAnswers` | src-tauri/src/elevated.rs:80-88 | Every request of the queue ends with the answer that its file deserves, if it could be written |
| `DrainLaws.RunWithNothing` | src-tauri/src/elevated.rs:47-78 | A run that takes up nothing executes nothing and leaves one unsigned error, under the wanted request's result name or `elev_result.json`, which says why |
| `HelperDrain.Helper.CheckAndRecord` | src-tauri/src/elevated.rs:138-160 | The nonce check loads once, accepts exactly unknown nonces and stores at multiples of three |
| `HelperDrain.Helper.LoadNonces` | src-tauri/src/elevated.rs:279-294 | A nonce is loaded exactly when its stored stamp is less than 300 s old, with that stamp |
| `HelperDrain.Helper.SaveNonces` | src-tauri/src/elevated.rs:246-267 | The store is replaced whole or kept as it was, no temporary file is left by a failed rename, and after a save whichever helper loads the store next refuses every nonce of the map whose payload can still be recorded |
| `HelperDrain.Helper.FlushNonces` | src-tauri/src/elevated.rs:271-276 | The store becomes the helper's map if it has one |
| `HelperDrain.Helper.WriteResult` | src-tauri/src/elevated.rs:194-228 | The answer appears whole under its name, or not at all |
| `HelperDrain.Helper.Run` | src-tauri/src/elevated.rs:33-88 | Selection, the drain or the fallback answer, then the flush |
| `HelperDrain.VerifyPayload` | src-tauri/src/util/auth.rs:254-294 | Ok exactly for a valid signature and a fresh timestamp, otherwise the first error in order |
| `HelperDrain.SelectAllPendingCommands` | src-tauri/src/elevated.rs:2683-2745 | The wanted request, or the error, or the requests with a command file and no result: those whose command file the listing shows as older come first, and those of one age as listed |
| `DrainGuarantees.RunAnswersPending` | src-tauri/src/elevated.rs:80-88 | Every request pending at the start ends with exactly the answer it deserves, or none if it could not be written, and its command is gone unless unreadable |
| `DrainGuarantees.RunKeepsTheRest` | src-tauri/src/elevated.rs:117-231 | Every file that belongs to no pending request is unchanged |
| `DrainGuarantees.RunAnswersWanted` | src-tauri/src/elevated.rs:2687-2701 | A helper started for one request answers exactly that one and touches no other file |
| `DrainGuarantees.RunWithoutCommand` | src-tauri/src/elevated.rs:65-77 | Without its command file it executes nothing and leaves only an unsigned error |
| `DrainGuarantees.RunOrder` | src-tauri/src/elevated.rs:80-82 | Each selected request is handled once and the executed commands are, in the order of selection, exactly the accepted ones |
| `DrainGuarantees.DrainExecutes` | src-tauri/src/elevated.rs:129-177 | After k requests the log and the memory are those computed from the initial state: verified, nonce unknown before and not carried earlier in the queue |
| `DrainGuarantees.DrainAnswers` | src-tauri/src/elevated.rs:194-228 | The answer to an earlier request survives the rest of the queue |
| `DrainGuarantees.ProcessedFiles` | src-tauri/src/elevated.rs:117-231 | Handling a request touches only its command, result and temporary file, and leaves them as promised |
| `DrainGuarantees.NoNonceTwice` | src-tauri/src/elevated.rs:149-155 | What a run appends to the log carries pairwise different nonces, none of them in the map the helper had or loaded |
| `DrainGuarantees.FlushStoresExecuted` | src-tauri/src/elevated.rs:86-88 | The final flush stores the nonce of every executed command |
| `Selection.SelectedExactly` | src-tauri/src/elevated.rs:2703-2720 | The selected requests are exactly those with a command file and no result |
| `Selection.SelectedOnce` | src-tauri/src/elevated.rs:2703-2732 | No request is selected twice |
| `Selection.SelectedInOrder` | src-tauri/src/elevated.rs:2722-2744 | The selection is a reordering of the pending requests, oldest first, those of one age as listed, by the times and places of their command files in the listing |
| `Selection.SelectedByAge` | src-tauri/src/elevated.rs:2722-2744 | Of two selected requests the first is the one whose command file the listing shows with the smaller time (an unreadable one is zero), or first when the times are equal |
| `Selection.StableSortIsUnique` | src-tauri/src/elevated.rs:2735 | No other list is sorted by time and stable |
| `Names.RequestIdInjective` | src-tauri/src/elev_bridge.rs:1147-1150 | A request id determines process, time and counter |
| `Names.RequestIdParts` | src-tauri/src/elev_bridge.rs:1147-1150 | Numbers of 32, 64 and 32 bits make eight, sixteen and eight hexadecimal digits with dashes between, and are read back from them |
| `Names.RequestIdsDistinct` | src-tauri/src/elev_bridge.rs:1147-1150 | The ids of one process are pairwise distinct for 2^64 calls, whatever the clock reads |
| `Names.RequestIds.Make` | src-tauri/src/elev_bridge.rs:1147-1150 | The new id is none of those that the process made before, until the counter has gone round once; the counter advances and wraps at 2^64 |
| `Names.HexWidth` | src-tauri/src/elev_bridge.rs:1149 | A number has at least its width in digits and no leading zero beyond it |
| `Names.CmdFileRoundTrip` | src-tauri/src/elevated.rs:2710-2714 | A name parses to an id exactly when it is that id's command file name |
| `Names.OtherNamesNotSelected` | src-tauri/src/elev_bridge.rs:401-408 | Temporary command files, results and their temporary files are never taken for commands |
| `Names.MarkersDoNotOverlap` | src-tauri/src/elevated.rs:2714 | The slice that takes the id is in bounds for every name |
| `Names.NamesApart` | src-tauri/src/elev_bridge.rs:1152-1158 | File names of two ids or of two kinds never coincide |
| `Names.PayloadVersionRoundTrip` | src-tauri/src/elevated.rs:3056-3074 | The canonical name of every version gives it back as spelled |
| `Names.PayloadVersionExact` | src-tauri/src/elevated.rs:3056-3074 | Exactly which names are accepted up to letter case, and which spelling comes back |
| `Names.LowerLetters` | src-tauri/src/elevated.rs:3056-3074 | Lower case changes exactly the letters A to Z |
| `Commands.TimeoutMs` | src-tauri/src/elev_bridge.rs:150-193 | Every timeout is between 15 and 90 s |
| `Commands.TimeoutTable` | src-tauri/src/elev_bridge.rs:150-193 | Which six commands may take 90 s and which fourteen 45 s; all others 15 s |
| `DispatchLadder.PromptsAreBounded` | src-tauri/src/elev_bridge.rs:455-487 | Over every interleaving and outcome a no-prompt call opens no prompt and any call at most two |
| `LadderRuns.AsksWhenAllowed` | src-tauri/src/elev_bridge.rs:455-487 | After any run, and whatever others do next, a call whose task could not be repaired, whose retry failed or whose polling timed out goes on to ask exactly when it allows prompts, and has returned otherwise; before the polling it has opened none, after it at most one |
| `LadderRuns.OpensUnlessDeclined` | src-tauri/src/elev_bridge.rs:1029-1086 | A call at the check opens one more prompt exactly when no decline is recorded then, and returns otherwise |
| `LadderRuns.LoneCall` | src-tauri/src/elev_bridge.rs:285-600 | From any state with the lock free, a call that climbs alone returns for every outcome of every rung, with the lock released; how many prompts it opened, the streak and the memory of a decline are given in closed form |
| `LadderRuns.TwoPrompts` | src-tauri/src/elev_bridge.rs:537-576 | A run from the initial state in which a call opens two prompts |
| `LadderRuns.GivenUpNeverPolls` | src-tauri/src/elev_bridge.rs:1029-1086 | A call that stopped waiting for its prompt never polls and is never counted, whatever the user answers |
| `DispatchLadder.NoPromptAfterDecline` | src-tauri/src/elev_bridge.rs:1029-1086 | After a decline is recorded only calls already past the check open a prompt, one each |
| `DispatchLadder.CommandsAreWrittenAlone` | src-tauri/src/elev_bridge.rs:290-425 | At most one call is between taking the lock and starting the scheduled task |
| `DispatchLadder.TotalFailureIsNotCounted` | src-tauri/src/elev_bridge.rs:455-493 | If no pipe, task, retry or prompt ever works, the breaker's streak stays zero |
| `DispatchLadder.CountedCallsHadAHelper` | src-tauri/src/elev_bridge.rs:470-493 | A step leads to the count exactly when it is a retry that worked, or a first prompt accepted while the call still waits |
| `DispatchLadder.StreakCounts` | src-tauri/src/elev_bridge.rs:246-265 | Over every run the streak is the failures noted since the last success of the pipe, of a result, or of the supervisor |
| `DispatchLadder.OpenBreakerHadHelpers` | src-tauri/src/elev_bridge.rs:246-265 | Over every run, the breaker opens only after at least three such steps |
| `DispatchLadder.OpenBreakerFailsFast` | src-tauri/src/elev_bridge.rs:350-358 | While the streak is three or more and nothing succeeds, no no-prompt call that has not written its command yet ever does |
| `DispatchLadder.PollForResult` | src-tauri/src/elev_bridge.rs:495-537 | The loop stops at the first result or the first check past the timeout, after at most timeout/150 ms + 1 checks, 601 in all |
| `ScancodeMap.BuildMappings` | src-tauri/src/elevated.rs:1035-1090 | The kept mappings are the first eight acceptable entries, or the default one |
| `ScancodeMap.KeptAreFirst` | src-tauri/src/elevated.rs:1035-1084 | For a list the kept mappings are what its first acceptable items ask for, in their order, up to the eighth; without one the right Ctrl key; for anything else none |
| `ScancodeMap.KeptAreAllowed` | src-tauri/src/elevated.rs:1046-1073 | At most eight are kept, all from the Copilot key to a known modifier, none all zero |
| `ScancodeMap.BuildBinary` | src-tauri/src/elevated.rs:1092-1103 | The bytes are header, count, entries and terminator, 16 + 4n in all |
| `ScancodeMap.BytesOfRequest` | src-tauri/src/elevated.rs:1086-1103 | Where each byte of the value comes from: eight zeros, the count, target before source and low before high, four zeros |
| `ScancodeMap.EncodedMappingsReadBack` | src-tauri/src/elevated.rs:1092-1103 | A count-driven reader recovers any entries; a terminator-driven one exactly when none is all zero |
| `ScancodeMap.KeptMappingsReadBack` | src-tauri/src/elevated.rs:1035-1103 | For every request both readers recover the kept entries |
| `Guarantees.UserEstablished` | src-tauri/src/lib.rs:1513-1542 | After the rewrite of a drive every `X:\Users\` is followed by the mark and a backslash or the end |
| `Guarantees.UserPreserved` | src-tauri/src/lib.rs:1610-1614 | The rewrites of other drives, UNC paths and addresses keep that |
| `Guarantees.UserFixedPoint` | src-tauri/src/lib.rs:1513-1542 | The promise holds exactly for the fixed points of the rewrite, so it is idempotent |
| `PlainPromises.NameIsReplaced` | src-tauri/src/lib.rs:1513-1542 | The first user name of a drive, up to the next backslash or the end, becomes the mark, and nothing else does |
| `Guarantees.UncEstablished` | src-tauri/src/lib.rs:1545-1577 | After the UNC rewrite every double backslash is followed by the path marker |
| `PlainPromises.PathIsReplaced` | src-tauri/src/lib.rs:1545-1577 | Of the first UNC path server and share become the mark, or only the server when nothing follows the share |
| `Guarantees.UncPreserved` | src-tauri/src/lib.rs:1610-1614 | The address pass keeps that |
| `Guarantees.AddressesDecideNothing` | src-tauri/src/lib.rs:1582-1607 | The address pass keeps the UNC promise and never repairs it: it holds afterwards exactly when it held before |
| `UserNameRedaction.RedactDrive` | src-tauri/src/lib.rs:1520-1540 | For every input the loop is in bounds and ends with the output of the first-occurrence loop; it keeps the promise, and equals the rewrite, exactly when no later name is a proper prefix of the mark, and otherwise a segment that no other drive's pass changes sets the two apart |
| `UserNameRedaction.RedactPathUsername` | src-tauri/src/lib.rs:1513-1542 | The output is that of the 26 loops in turn; it is that of the 26 rewrites exactly when no drive has a later name that is a proper prefix of the mark, and then all drives are guarded |
| `Segments.StayParted` | src-tauri/src/lib.rs:1517-1541 | Where one drive's loop and rewrite part, the loops and rewrites of all other drives keep them apart |
| `Segments.LoopedPinned` | src-tauri/src/lib.rs:1528 | Another drive's loop, wherever its replacements hit, leaves a segment alone whose last but one predecessor ends in the first drive's letter and colon or in a mark |
| `RedactionWitnesses.LaterDriveSwallows` | src-tauri/src/lib.rs:1517-1541 | An input on which a drive's loop fails and all drives are guarded in the end, because a later drive's names held every missed place |
| `UserNameRedaction.AllDrivesGuarded` | src-tauri/src/lib.rs:1513-1542 | The 26 rewrites in turn guard every drive |
| `UncRedaction.RedactUncPath` | src-tauri/src/lib.rs:1545-1577 | For every input the loop is in bounds and ends with the output of the first-occurrence loop, and what LoopedOutcome says of that holds |
| `UncRedaction.LoopedOutcome` | src-tauri/src/lib.rs:1545-1577 | For every input the loop's output is the rewrite exactly when no match is disturbed, and then the promise holds; unless a round is loose (HarmlessExactly) the promise holds exactly when every round is harmless; and unless a later match begins with the mark and ends in an empty share's separator, exactly when no later match is a proper prefix of the mark |
| `UncRedaction.LoopedExactly` | src-tauri/src/lib.rs:1553-1575 | From any searched text, a disturbed match makes the output differ from the rewrite for good |
| `UncRedaction.HarmlessExactly` | src-tauri/src/lib.rs:1553-1575 | Call a round loose when its match begins with the mark, ends in an empty share's separator, is found in the text before it, and is not followed by a separator and the path marker. Without loose rounds the promise is kept exactly when no proper prefix of the mark is found in the text before it |
| `UncRedaction.ShortMatchLost` | src-tauri/src/lib.rs:1561 | Inputs with a later proper prefix of the mark, whose output breaks the promise |
| `UncRedaction.EmptyShareLost` | src-tauri/src/lib.rs:1561 | An input without one whose output breaks the promise |
| `UncRedaction.EmptyShareKept` | src-tauri/src/lib.rs:1561 | An input whose output is not the rewrite and keeps the promise |
| `FirstOccurrence.LoopedRound` | src-tauri/src/lib.rs:1553-1575 | One round on the string with its search offset is one round of the loop function, whichever occurrence is hit |
| `FirstOccurrence.UndisturbedIsRewrite` | src-tauri/src/lib.rs:1520-1540 | For either pass, a loop whose matches are the mark or first occurrences is the rewrite |
| `UncRedaction.MatchEnd` | src-tauri/src/lib.rs:1556-1571 | The three end cases compute the length of the reference match |
| `Ipv6Redaction.RedactIpv6` | src-tauri/src/lib.rs:1582-1607 | The rescanning loops equal the rewrite and the split into maximal runs; no stretch of more than four of the characters `0123456789abcdefABCDEF:` that begins with a digit and has two colons remains, and the text is unchanged exactly when it has none |
| `Ipv6Redaction.ScanIsRunSplit` | src-tauri/src/lib.rs:1582-1607 | The rewrite replaces, in each maximal run of hex digits and colons, everything from the first hex digit when that is long enough and has two colons |
| `Ipv6Redaction.RunTail` | src-tauri/src/lib.rs:1586-1604 | When the first start of a run fails, its character is copied and the rest of the run is redacted as a run of its own |
| `Ipv6Redaction.RunIsRewritten` | src-tauri/src/lib.rs:1586-1604 | Scanning a maximal run start by start redacts it as a whole |
| `Ipv6Redaction.Ipv6Established` | src-tauri/src/lib.rs:1582-1607 | No redactable stretch remains after the rewrite; AddressesRedacted says the same in plain characters |
| `Ipv6Redaction.AddressesRedacted` | src-tauri/src/lib.rs:1582-1607 | The rewrite leaves no such stretch and changes exactly the texts that have one |
| `Ipv6Redaction.AddressIsReplaced` | src-tauri/src/lib.rs:1586-1604 | A stretch that no address character follows and none but colons precede becomes `[REDACTED_IP]` as a whole; the colons are kept and the text on either side is rewritten by itself |
| `RedactionWitnesses.AddressExamples` | src-tauri/src/lib.rs:1579-1597 | `2001:db8::1` is redacted and `::1` is not |
| `Ipv6Redaction.Ipv6FixedPoint` | src-tauri/src/lib.rs:1582-1607 | Texts without one are exactly the fixed points |
| `RedactPii.RedactPii` | src-tauri/src/lib.rs:1610-1614 | For every input the output is the composition of the loops and keeps the third promise; it keeps the UNC promise exactly when the UNC loop does, with that loop's conditions, and the user promise of every drive for which the user-name loops achieved it, so of all when every drive's loop is faithful; on clean input it is the composed rewrite, and on input without an address-like stretch the output of the UNC loop; the third promise, and the others where they hold, also in plain characters |
| `RedactPii.UncDecides` | src-tauri/src/lib.rs:1610-1614 | The UNC promise of the whole pass, in terms of the text that the UNC loop gets |
| `RedactPii.UsersKept` | src-tauri/src/lib.rs:1610-1614 | A drive guarded after the user-name loops is guarded in the end, whatever the UNC loop does |
| `RedactPii.WithoutAddresses` | src-tauri/src/lib.rs:1610-1614 | On input without an address-like stretch the address pass changes nothing: the loops before it bring none to light |
| `RedactionWitnesses.UserNameLost` | src-tauri/src/lib.rs:1528 | For every drive an input on which the whole pass breaks the user promise |
| `RedactionWitnesses.AddressesSwallow` | src-tauri/src/lib.rs:1610-1614 | An input on which the user-name loops break it and the address pass repairs it |
| `RedactionWitnesses.UncPathLost` | src-tauri/src/lib.rs:1561 | Inputs on which the whole pass breaks the UNC promise, one for every proper prefix of the mark |
| `RedactionWitnesses.EmptySharePathLost` | src-tauri/src/lib.rs:1561 | And one without such a prefix |
| `RedactPii.AllPromises` | src-tauri/src/lib.rs:1513-1614 | The composed rewrite keeps all three promises for every input, also in plain characters: behind every `X:\Users\` comes `<redacted>` and then a backslash or the end, behind every double backslash `[REDACTED_PATH]`, and no address-like stretch is left |
| `RedactPii.PlainlyProtected` | src-tauri/src/lib.rs:1513-1607 | Each of the three promises is what it says in plain characters |
| `RedactPii.PlainIsClean` | src-tauri/src/lib.rs:1513-1577 | Input without `<`, `[`, empty user names, triple backslashes or a final double one is clean |
| `RedactPii.UserNamesOnceIsEnough` | src-tauri/src/lib.rs:1513-1542 | On guarded text the user-name pass changes nothing |
| `RedactionWitnesses.SecondNameLost` | src-tauri/src/lib.rs:1528 | A second path whose name is a proper prefix of the mark is not faithful |
| `RedactionWitnesses.UncNotIdempotent` | src-tauri/src/lib.rs:1545-1577 | A second UNC pass loses one more segment |
| `HealthSupervisor.ComponentHealth.MarkFailure` | src-tauri/src/health_supervisor.rs:102-111 | The record after a failure, field by field, the count up to u32::MAX; a repair is due exactly when none was made or the last is 60 s old |
| `HealthSupervisor.ComponentHealth.MarkHealthy` | src-tauri/src/health_supervisor.rs:95-100 | The record after a success; the cooldown is as it was |
| `HealthSupervisor.ComponentHealth.MarkRecovering` | src-tauri/src/health_supervisor.rs:113-116 | The record when a repair starts; the next one may start a minute later and no sooner |
| `HealthSupervisor.CheckComponent` | src-tauri/src/health_supervisor.rs:141-184 | The record after a whole undisturbed check, for each outcome: success, failure within 60 s of a repair, repair that worked, repair that did not |
| `HealthSupervisor.CheckAmbientSensor` | src-tauri/src/health_supervisor.rs:284-314 | The same for the ambient sensor, which has no repair |
| `HealthSupervisor.SnapshotsAreConsistent` | src-tauri/src/health_supervisor.rs:91-130 | After every interleaving: state, error, failure count and repair time agree, the count is the failed checks since the last healthy mark up to u32::MAX, and components are at most one check apart |
| `HealthSupervisor.RecoveriesAreThrottled` | src-tauri/src/health_supervisor.rs:102-116 | The j-th repair is recorded at least 60 000 (j − i) ms after the i-th, for any clock |
| `HealthSupervisor.FailedCheckDecides` | src-tauri/src/health_supervisor.rs:102-111 | A failed check is followed by a repair exactly when none was made or the last is 60 000 ms old, and never for the ambient sensor |
| `HealthSupervisor.AmbientNeverRecovers` | src-tauri/src/health_supervisor.rs:284-314 | The ambient sensor is never repaired and never Recovering or Failed |
| `HealthSupervisor.InterleavingIsIrrelevant` | src-tauri/src/health_supervisor.rs:118-130 | Every component ends as if its checks had run alone |
| `HealthSupervisor.CyclesAreCounted` | src-tauri/src/health_supervisor.rs:118-130 | The snapshot shows the time of the last cycle's end, and a cycle ends exactly when all four checks are done |
| `HealthSupervisor.StepsMakeTheCheck` | src-tauri/src/health_supervisor.rs:141-184 | The lock-by-lock steps of a check make up the whole check |
| `Polling.Tier.Begin` | src/hooks/useHardware.ts:157-170 | Whether a tick starts a leg, and the flag and start time afterwards, which are those of the machine after a tick |
| `Polling.Tier.Finish` | src/hooks/useHardware.ts:177-179 | The end of a leg, whichever it is, leaves the flag and start time of the machine after it settled |
| `Polling.AtMostOneLeg` | src/hooks/useHardware.ts:157-257 | If legs settle within the stall window, at most one runs at a time |
| `Polling.StalledTierRestarts` | src/hooks/useHardware.ts:160-168 | With any legs outstanding, exactly which ticks start a new one: flag down, or more than 8000 ms since the last start |
| `Polling.TickLeavesALiveLeg` | src/hooks/useHardware.ts:160-168 | Once the load is released, no tick leaves the tier idle or stalled |
| `Polling.LoadTimerReleases` | src/hooks/useHardware.ts:358-373 | After any run in which its timer fired, the initial load is released for good |
| `Polling.LoadTimerFires` | src/hooks/useHardware.ts:358-373 | The load timer can fire from 15 000 ms after the load began on, and then releases it whatever happened before |
| `Polling.LateLegFreesItsSuccessor` | src/hooks/useHardware.ts:177-179 | A late leg frees its successor's flag and the next tick starts a third |
| `Polling.ThreeLegsAtOnce` | src/hooks/useHardware.ts:157-180 | A run from the initial state after which three legs of a tier run at once, two of them younger than the stall window |
| `PerformanceMode.ShownIsRight` | src/hooks/useHardware.ts:408-433 | With writes answered within 8000 ms and legs within 1500 ms, the requested mode is shown during a write and the machine's at all other times |
| `PerformanceMode.SlowLegBringsBack` | src/hooks/useHardware.ts:245-249 | A leg as long as the grace period brings the old mode back |
| `PerformanceMode.FailureEndsTheGrace` | src/hooks/useHardware.ts:424-426 | So does any leg when a second write fails in the grace period |
| `PerformanceMode.WindowEnds` | src/hooks/useHardware.ts:413 | A write longer than its window can be overwritten by a poll |
| `FaceCredential.AuthState.RunAuthThread` | src-tauri/cp/src/credential.rs:59-102 | What an undisturbed attempt sends and stores |
| `FaceCredential.PollsUntil` | src-tauri/cp/src/credential.rs:76-100 | An attempt polls until the first reply that is not pending, at most forty times, and ends with it |
| `FaceCredential.ThreadIsMethod` | src-tauri/cp/src/credential.rs:59-102 | From any state, an undisturbed thread of the machine sends and stores what the method does |
| `FaceCredential.OneAttempt` | src-tauri/cp/src/credential.rs:59-102 | Over every interleaving the messages are a prefix of one auth_start and forty auth_poll |
| `FaceCredential.SubmittedUserWasRecognised` | src-tauri/cp/src/credential.rs:222-256 | A submitted user is the one named by the single reply, a success, that ended the attempt |
| `FaceCredential.RecognisedUserIsSubmitted` | src-tauri/cp/src/credential.rs:59-102 | For each of the forty polls a run in which the user recognised there is submitted |
| `FaceCredential.SubmittedByPassword` | src-tauri/cp/src/credential.rs:222-256 | Over every run the submissions are exactly those of calls that found a password |
| `FaceCredential.NoSecondAttempt` | src-tauri/cp/src/credential.rs:59-66 | After a failed attempt nothing more is sent and no user is ever submitted |

## Left out

- Hardware, WMI, registry, PowerShell, service and scheduler calls, and the arms of `dispatch`: foreign code.
- HMAC computation, key files, key rotation and file ACLs: replaced by an ideal signature.
- The bridge service and the pipe's overlapped I/O: one arbitrary outcome.
- The file system below whole operations: durability across power loss, and removals that fail.
- The cleanup of stale queue files before a call (it appears only as arbitrary removals of files).
- A store torn by two helpers that save at once: writing the store and renaming it is one step.
- Elapsed time in `DispatchLadder`: its steps are ordered but not timed; the poll loop is timed alone.
- UncRedaction.RedactUncPath: with a loose round (a match that begins with the mark, ends in the separator of an empty share, is found in the text before it, and is not followed by `\[REDACTED_PATH]`) the promise about double backslashes is left undecided; it depends on how often such matches recur and on what follows each, and both outcomes occur.
- UserNameRedaction.RedactPathUsername: equality with the 26 rewrites is exact; for the promise that all drives are guarded the condition is sufficient only, and `LaterDriveSwallows` shows that it is not necessary.
- RedactPii.RedactPii: the promise about user names is stated one way, because the address pass may remove a place where a user-name loop failed (`AddressesSwallow`); that the output is the composed rewrite is stated one way, too.
- UTF-8 byte offsets in the redactor: every search text is ASCII and strings are character sequences here.
- The mode change assumes one write at a time, after the initial load, and a machine that changes mode only by writes.
- PerformanceMode.ShownIsRight: assumes that a failed write left the machine unchanged and did not begin in the grace period of the one before; `FailureEndsTheGrace` shows the latter is needed.
- Charging, touchpad and audio state of the hook: the same pattern with less state.
- The other credential-provider methods, and the password lookup except for its failure.
- Bootstrap, logging, trays, windows, settings and the React components: plumbing and user interface.
