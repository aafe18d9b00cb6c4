# Job Apply Pro: a verified model of its hardest cores

This project models, in Dafny 4.11, the parts of Job Apply Pro that carry real state, loops or
interleavings, and proves what they promise.  Each part is modelled in the form its source has:
objects that update their fields are classes, loops are loops, pure code is functions.  A loop or
a state-changing method is proved against a specification function, transition function or
predicate, and the promises are proved about those.

`dafny verify dfyconfig.toml` checks the whole project.

## What is modelled

**The backend lifecycle supervisor** (`Lifecycle`, `LifecycleInvariant`, `LifecycleSafety`,
`LifecyclePromises`, `LifecycleProgress`, `LifecycleSteps`, `LifecycleOvertaking`, `LifecycleLaws`,
`LifecycleSuccess`, `BackendSupervisorObject`).  Start, stop, shutdown, prepareUpdate and offline restore share three
slots, a generation counter with an abort controller, a set of owned children and two sticky flags.  Every `await` and every status update
is a program counter at which any other event may happen: further calls, child exits and errors,
the passing of time, the settling of promises.  One inductive invariant holds in every reachable
state; the safety promises, the meaning of settled promises, progress and a bound on the steps of
every operation follow from it.  `LifecycleLaws` says over runs, with all times in figures, which
event may do what: which child is launched behind which, how a startup, restore, stop or
termination ends, and what is reported; `LifecycleSuccess` says what can always still be achieved.
The class `BackendSupervisor` performs the same steps by
assignments to its fields: the events performed on it are a run of the system, and every run of
the system can be performed on it.

**The image gate** (`Bytes`, `JpegFraming`, `PngChunks`, `RiffChunks`, `ImageGate`).  The
byte scanners are proved to accept exactly the byte strings of a declarative grammar (section
B.1.1 of ITU-T T.81, sections 5.3 and 5.6 of the W3C PNG Specification, sections 2.3 and 2.4 of
RFC 9649): they invert a printer, and a reading is unique.  The two special verdicts, several
frames and animation, are characterised exactly as well.

**Provider synchronisation** (`Pagination`, `GmailSync`, `GmailNothingLost`, `MimeWalk`,
`CalendarPost`).  Servers are arbitrary functions of time and request.  The mailbox of the
no-loss theorem receives and deletes messages between any two requests.

**Gemini media ownership** (`GeminiMedia`, `GeminiInvocation`).  One invocation with its work
budget, its journal and a trace of events.  The clock reads what it likes, and every call to the
journal, the network and the repository may return or raise any exception.  Exceptions are
results, told apart exactly as far as the handlers of the source tell them apart; one that no
handler names leaves the invocation as it is.

**At-most-once dispatch** (`Dispatch`, `DispatchSafety`, `DispatchScript`, `DispatchHandlers`).
Any number of handler invocations of the calendar and mail handlers interleave over one `attempts`
map.  `DispatchScript` says from the answers alone, without the handlers' own log or phases, when
an invocation has dispatched and how it ends.

**PDF columns** (`PdfColumns`, `PdfGeometry`, `PdfLayout`; the geometry of a page says when it has
columns, and which), **notification delivery** (`Notifications`) and
**reply chains** (`ReplyReferences`, `ReplyContext`).

## Promises the code does not keep in full

* A `stop()` promise is meant to resolve with nothing owned.  The slot is freed before the
  promise settles, so a startup admitted in between launches under it:
  `StopCanSettleOverNewStartup` is such a run.  Nothing is owned when the slot is freed
  (`ReleasedStopOwnsNothing`).  Whatever else is in progress at that moment, the promise can
  still settle over a child exactly when the gate is not shut (`StopSettlesOverChildExactly`): no
  shutdown has begun, no recovery is required, and no restore is in progress that awaits this
  very promise or can only end in a required recovery.  With no more than one call of `start`
  before it settles, it can exactly when the gate is open and nothing else is in progress
  (`StopIsOvertakenAtOnceExactly`).  `shutdown` and `prepareUpdate` do keep the promise.
* An upload that fails before its bytes were sent is meant to be abandoned.  It is abandoned
  exactly when the exception is a provider, transport or value error (`SettledOne`, kept on every
  exit of `Invocation.Complete`).  Any other one, such as a failure to make the client, leaves the
  record begun, unsent and open: `UnsentCanStayOpen` is such a run.  With the journal the
  application ships it ends in a retention error all the same.
* A retention error of the body of `complete()` is lost when the cleanup of a journal raises
  another exception.  It is kept exactly for the journals of `KeepsRetention`
  (`Invocation.Complete`), among them the one the application ships; for every other journal
  `RetentionCanBeMasked` runs an invocation that loses it.
* An incremental cursor is meant to stand behind nothing that was not imported.  A message whose
  payload is no JSON object is passed over while the cursor moves on: `AMessageCanBeLost` is such
  a history.  Nothing else is lost (`NothingElseIsLost`), and nothing at all exactly when each
  message so passed over is imported otherwise or gone (`LostExactly`).

## Assumptions

* A status listener may call back into the supervisor but does not throw; an exit is known by its
  code, not its signal; the timer of `waitForChild` may fire at any time once it is due.
* Between the release of a slot and the settling of its promise any number of events may happen.
  The source leaves a few microtasks there: enough for one call of `start`, which launches within
  the call, but perhaps not for driving another operation out of its slot first, as the wider half
  of `StopSettlesOverChildExactly` may have to.
* Checksums, hashes, address parsing, JSON decoding, the taking apart of URLs and the classification of
  characters beyond ASCII are arbitrary functions.
* The Gmail no-loss theorem assumes of the provider that an unfiltered listing returns all that was
  there when it began, that a history listing is complete up to the history id of its last page,
  that a 404 means deleted, and that a fetched message comes under its own id; and of the caller
  that the messages of a batch and its cursor are stored together.
* The clock and the sleeper of the Gemini adapter do not raise, and nothing interrupts it from
  outside (`KeyboardInterrupt` and the like); a journal that is not the shipped one keeps its own
  records and asks for deletions by name.
* Means of sequences of starts are exact; the source computes them in floating point.

## Model

| member | source | states |
|---|---|---|
| LifecycleInvariant.StepKeeps | apps/desktop/src/main/backend-supervisor.ts:91-566 | Every event, whatever the environment chooses, keeps one inductive invariant over processes, gate, slots, operations, status and timer. |
| LifecycleSafety.RunKeepsInv | apps/desktop/src/main/backend-supervisor.ts:56-566 | The invariant holds in every state of every run of interleaved calls, exits, errors, timeouts and re-entrant listeners. |
| LifecycleSafety.AtMostOneLiveChild | apps/desktop/src/main/backend-supervisor.ts:113-113 | In every reachable state at most one child is live, and it is the owned one. |
| LifecycleSafety.EveryLaunchIsExclusive | apps/desktop/src/main/backend-supervisor.ts:209-251 | Each launch adds one child, when none is live, by an operation of the current generation whose controller is not aborted. |
| LifecycleSafety.LaunchesAreExclusive | apps/desktop/src/main/backend-supervisor.ts:497-536 | An event that launches is the continuation of an admitted operation; no public call, child event or timer launches. |
| LifecycleSafety.NothingIsUndone | apps/desktop/src/main/backend-supervisor.ts:121-133 | Generations never fall, the sticky flags stay set, and operations keep identity and verdict. |
| LifecycleSafety.ExitsAreFinal | apps/desktop/src/main/backend-supervisor.ts:537-564 | A recorded exit never changes and children never change kind. |
| LifecycleSafety.StopSilencesEarlierOperations | apps/desktop/src/main/backend-supervisor.ts:121-127 | After `stop` or `shutdown` has returned control, whatever launches was admitted after it. |
| LifecycleSafety.ClosingAndRecoveryAreFinal | apps/desktop/src/main/backend-supervisor.ts:97-105 | After `shutdown`, and once a recovery is required, no child is ever launched again. |
| LifecycleSafety.RestoreWriterIsUndisturbed | apps/desktop/src/main/backend-supervisor.ts:384-385 | From its launch to its exit a restore child is never killed and nothing else is launched, also after its observation timed out. |
| LifecyclePromises.TimerMeansServing | apps/desktop/src/main/backend-supervisor.ts:312-352 | A backup timer implies status ready and a live, current, unstopped serving child. |
| LifecyclePromises.ReadyMeansServing | apps/desktop/src/main/backend-supervisor.ts:282-291 | Status ready implies a live serving child or a stop in progress. |
| LifecyclePromises.ReleasedStopOwnsNothing | apps/desktop/src/main/backend-supervisor.ts:359-378 | When a successful stop frees its slot nothing is owned. |
| LifecyclePromises.StopCanSettleOverNewStartup | apps/desktop/src/main/backend-supervisor.ts:200-202 | A concrete run in which a stop promise resolves over a freshly launched child. |
| LifecycleOvertaking.StopSettlesOverChildExactly | apps/desktop/src/main/backend-supervisor.ts:91-116 | At the release of any successful stop: its promise can still settle over a child exactly when no shutdown has begun, no recovery is required, and no restore in progress awaits it or can only end in a required recovery; any number of events may lie in between. |
| LifecycleOvertaking.StopIsOvertakenAtOnceExactly | apps/desktop/src/main/backend-supervisor.ts:190-213 | With one call of `start` in between, which launches within the call, it settles over a child exactly when the gate is open and no startup or restore is in progress. |
| LifecycleOvertaking.OvertakenByALaunch | apps/desktop/src/main/backend-supervisor.ts:190-207 | When the promise does settle over a child, that child was launched since the release, under a newer generation and past an open gate. |
| LifecyclePromises.ShutdownDrains | apps/desktop/src/main/backend-supervisor.ts:129-133 | Once the promise of a shutdown has resolved nothing is owned, then and at any later time. |
| LifecyclePromises.PreparedUpdateIsSafe | apps/desktop/src/main/backend-supervisor.ts:135-146 | `prepareUpdate` resolves only when no recovery is required, and with nothing owned and the gate closed, then and at any later time. |
| LifecycleProgress.NoOperationWaitsInVain | apps/desktop/src/main/backend-supervisor.ts:568-594 | In every reachable state each unsettled operation, or what it awaits, has a next step within 120 seconds without any further call or child exit; a health request counts as answered, one way or the other. |
| LifecycleSteps.OperationsSettleInSteps | apps/desktop/src/main/backend-supervisor.ts:190-566 | In no run, whatever is answered or called, does a startup take more than 168 steps of its own until it has settled, a stop more than 4, and a restore with the startup behind it more than 172. |
| LifecycleSteps.TerminationsSettleInSteps | apps/desktop/src/main/backend-supervisor.ts:380-424 | No termination takes more than three steps: two waits at most, and its settling. |
| LifecycleLaws.EveryLaunchIsInOrder | apps/desktop/src/main/backend-supervisor.ts:209-251 | In every run: a migration is launched by an announced startup, a server only behind a migration of the same generation that exited with zero, a restore child only behind a resolved stop; never while admission is blocked; and each is then awaited for 60, 20 or 120 seconds. |
| LifecycleLaws.FailedMigrationEndsStartup | apps/desktop/src/main/backend-supervisor.ts:229-233 | A startup whose migration ended in any other way than an exit with zero launches nothing any more, and is rejected if it is still current when it ends. |
| LifecycleLaws.StartupEndsExactly | apps/desktop/src/main/backend-supervisor.ts:209-310 | A startup resolves exactly when it was superseded, has reported ready, or finds its answering server gone; it is rejected only while it is the current one. |
| LifecycleLaws.StartupReasons | apps/desktop/src/main/backend-supervisor.ts:252-263 | Why a current startup is rejected: its admission, its own failure, or a child that could not be stopped. |
| LifecycleLaws.ReadyExactly | apps/desktop/src/main/backend-supervisor.ts:271-291 | Ready is reported exactly on a healthy answer, before the deadline, for the current live server. |
| LifecycleLaws.PollsExactly | apps/desktop/src/main/backend-supervisor.ts:292-309 | The next poll is due in 250 milliseconds or at the deadline; past it, or when the server ended or failed, there is none and the server is stopped. |
| LifecycleLaws.RestoreEndsExactly | apps/desktop/src/main/backend-supervisor.ts:427-495 | A restore goes on to start the backend exactly when it is current as its child has exited with zero, resolves without that only when it is not, and is rejected in every other end. |
| LifecycleLaws.RecoveryExactly | apps/desktop/src/main/backend-supervisor.ts:465-486 | A recovery becomes required exactly when a restore child could not be started, was refused, or ended in anything but an exit with zero; that restore is rejected. |
| LifecycleLaws.FailuresAreReported | apps/desktop/src/main/backend-supervisor.ts:359-486 | A startup, restore or stop that fails behind its last update has published exactly the reason it is rejected for, as a degraded status. |
| LifecycleLaws.CrashIsReported | apps/desktop/src/main/backend-supervisor.ts:537-555 | The serving child that exits unasked is reported at once, the timer stops, and its generation goes on no more. |
| LifecycleLaws.OtherExitsAreSilent | apps/desktop/src/main/backend-supervisor.ts:537-563 | Every other exit changes no status, but for that of a restore child behind which a recovery is required; an error proves an exit only for a child without a process id. |
| LifecycleLaws.StopTerminatesOwned | apps/desktop/src/main/backend-supervisor.ts:359-378 | A new stop terminates the one owned child and awaits just that, and refuses when it is a restore child. |
| LifecycleLaws.StopResolvesExactly | apps/desktop/src/main/backend-supervisor.ts:365-377 | A stop resolves exactly when every termination it awaited succeeded and nothing is owned, and reports which. |
| LifecycleLaws.TerminationsBegin | apps/desktop/src/main/backend-supervisor.ts:380-393 | A termination begins with a first kill and five seconds, never for a restore child. |
| LifecycleLaws.TerminationsEscalate | apps/desktop/src/main/backend-supervisor.ts:395-424 | The first wait that runs out brings the second kill and two more seconds, the second one a failure; an exit in time is a success. |
| LifecycleLaws.UpdateResolvesExactly | apps/desktop/src/main/backend-supervisor.ts:135-146 | An update is prepared exactly when its stop has resolved, admission is not blocked and no recovery is required. |
| LifecycleLaws.CallsReply | apps/desktop/src/main/backend-supervisor.ts:91-188 | What the public calls hand back, when exactly they refuse, and that a refusal begins nothing. |
| LifecycleSuccess.StartCanSucceed | apps/desktop/src/main/backend-supervisor.ts:91-291 | From every reachable idle state that is open, a call of `start` can end resolved, with a live server reported ready and its backups scheduled. |
| LifecycleSuccess.RestoreCanSucceed | apps/desktop/src/main/backend-supervisor.ts:148-495 | From the same states a restore can be applied by a child that exits with zero, and bring the backend up behind it. |
| BackendSupervisorObject.BackendSupervisor.Play | apps/desktop/src/main/backend-supervisor.ts:56-566 | Whatever events are performed on the object, in any order, are a run of the modelled system, and every run of that system is performed by the object as it stands. |
| BackendSupervisorObject.BackendSupervisor.Perform | apps/desktop/src/main/backend-supervisor.ts:91-566 | Each public call, child event and continuation changes the fields as the modelled event does and keeps the invariant. |
| BackendSupervisorObject.BackendSupervisor.TerminateEvery | apps/desktop/src/main/backend-supervisor.ts:359-378 | The loop over a snapshot of the owned children terminates each of them once and collects what has to be awaited. |
| JpegFraming.ScanIsComplete | backend/src/job_apply_pro/ai/media_normalization.py:215-267 | Every printed well-formed list of markers is accepted. |
| JpegFraming.ScanIsSound | backend/src/job_apply_pro/ai/media_normalization.py:215-267 | Whatever is accepted is the print of a well-formed list of markers. |
| JpegFraming.ReadingIsUnique | backend/src/job_apply_pro/ai/media_normalization.py:229-240 | The decomposition into markers is unique. |
| JpegFraming.StateMeaning | backend/src/job_apply_pro/ai/media_normalization.py:222-225 | The three loop variables say whether a scan is open, has been seen, and whether a frame has. |
| JpegFraming.AcceptsExactlyImages | backend/src/job_apply_pro/ai/media_normalization.py:215-267 | Acceptance is exactly membership in the marker grammar, with the first EOI as the last two bytes. |
| JpegFraming.MultiFrameExactly | backend/src/job_apply_pro/ai/media_normalization.py:255-260 | The multi-frame verdict is given exactly to what begins as an image may and goes on with a second frame header or a Multi-Picture Format segment. |
| JpegFraming.ScanMarkers | backend/src/job_apply_pro/ai/media_normalization.py:222-267 | The loop terminates, reads in bounds, and computes the verdict of the scanner. |
| JpegFraming.ValidateFraming | backend/src/job_apply_pro/ai/media_normalization.py:215-267 | Accepts exactly the images of the grammar, and names the multi-frame ones exactly. |
| PngChunks.ScanIsComplete | backend/src/job_apply_pro/ai/media_normalization.py:169-212 | Every printed well-formed list of chunks with matching checksums is accepted. |
| PngChunks.ScanIsSound | backend/src/job_apply_pro/ai/media_normalization.py:169-212 | Whatever is accepted tiles into such chunks. |
| PngChunks.ReadingIsUnique | backend/src/job_apply_pro/ai/media_normalization.py:174-182 | The tiling is unique. |
| PngChunks.LastAllowed | backend/src/job_apply_pro/ai/media_normalization.py:185-206 | For the next chunk the checks on four flags are the grammar's rules about all chunks before it. |
| PngChunks.AnimatedExactly | backend/src/job_apply_pro/ai/media_normalization.py:169-204 | The animated verdict is given exactly to what begins as a still image may and goes on with an acTL, fcTL or fdAT chunk. |
| PngChunks.ScanChunks | backend/src/job_apply_pro/ai/media_normalization.py:169-212 | The loop terminates, reads in bounds, and computes the verdict of the scanner. |
| PngChunks.ValidateChunks | backend/src/job_apply_pro/ai/media_normalization.py:169-212 | Accepts exactly: one leading 13-byte IHDR, at most one PLTE before contiguous IDATs, nothing unknown and critical or animated, an empty final IEND; and calls animated exactly the animated ones. |
| RiffChunks.ScanSkipsPrinted | backend/src/job_apply_pro/ai/media_normalization.py:157-166 | The scanner walks over any printed still chunks to what follows them. |
| RiffChunks.ReadingIsUnique | backend/src/job_apply_pro/ai/media_normalization.py:160-164 | The tiling into padded chunks is unique. |
| RiffChunks.ValidateChunks | backend/src/job_apply_pro/ai/media_normalization.py:153-167 | Accepts exactly padded-chunk tilings of the declared size without ANIM or ANMF, and calls animated exactly those with one behind a valid prefix. |
| ImageGate.GrammarGivesSignature | backend/src/job_apply_pro/ai/media_normalization.py:126-131 | The third signature byte of a JPEG follows from the grammar. |
| ImageGate.Gate | backend/src/job_apply_pro/ai/media_normalization.py:51-73 | Exactly the files of the declared format's grammar within 5 MiB pass, and none while decoding is lenient; each rejection has its exact cause. |
| Pagination.GoogleCollection | backend/src/job_apply_pro/integrations/provider_clients.py:346-377 | For any server: the whole chain in order if it ends within ten pages and 1,000 items with distinct tokens of 1 to 8,000 characters, and an error otherwise; at most ten requests, each the continuation of the last. |
| Pagination.GraphCollection | backend/src/job_apply_pro/integrations/provider_clients.py:380-434 | The same within the limits given, for next links that lead over https, without credentials or fragment, to the same path of the one known host. |
| Pagination.NeverComplete | backend/src/job_apply_pro/integrations/provider_clients.py:358-377 | Each of the loop's failures rules out every complete chain, so no error hides a result. |
| Pagination.ChainExactly | backend/src/job_apply_pro/integrations/provider_clients.py:346-377 | The two ways of stating completeness agree: over the recursively defined chain, and reply by reply over any sequence of requests. |
| Pagination.ObjectsExactly | backend/src/job_apply_pro/integrations/provider_clients.py:339-343 | Of each list exactly the objects are collected, part by part, once and in order. |
| Pagination.ValidatedGraphNextLink | backend/src/job_apply_pro/integrations/provider_clients.py:380-400 | A next link is followed exactly when it is short, over https, to graph.microsoft.com at the standard port and to the same path, with nothing else in it; which of the two errors it is otherwise. |
| Pagination.HonestCollectionIsWhole | backend/src/job_apply_pro/integrations/provider_clients.py:346-377 | A server that cuts one collection into pages gets it back whole and once, exactly when it fits the limits. |
| MimeWalk.PayloadNodes | backend/src/job_apply_pro/integrations/provider_clients.py:489-500 | The stack walk yields the recursive preorder of every finite tree, and fails exactly beyond 500 nodes. |
| MimeWalk.PushedReversed | backend/src/job_apply_pro/integrations/provider_clients.py:497-499 | Pushing the children reversed makes them next to be visited, left to right. |
| MimeWalk.PreorderExactly | backend/src/job_apply_pro/integrations/provider_clients.py:489-500 | The preorder, part by part: each object right before its own parts, lists one after the other, anything else passed over. |
| GmailSync.FullSync | backend/src/job_apply_pro/integrations/provider_clients.py:627-644 | Succeeds with position, listing and messages taken in that order, or there is no such outcome. |
| GmailSync.IncrementalSync | backend/src/job_apply_pro/integrations/provider_clients.py:572-625 | Succeeds exactly when the history ends within the limits, with the position of its last page. |
| GmailSync.IncrementalExactly | backend/src/job_apply_pro/integrations/provider_clients.py:572-625 | Its outcomes are exactly those of at most ten requests behind the cursor, each with the token the page before it named, up to a page without one, with at most 1,000 distinct additions and the position of that last page. |
| GmailSync.SyncMessages | backend/src/job_apply_pro/integrations/provider_clients.py:553-625 | Initial, incremental or, after a 404 on the first history page, recovery, with a log of what was asked for; it fails only when no outcome exists. |
| GmailSync.FetchMessages | backend/src/job_apply_pro/integrations/provider_clients.py:646-700 | One request per distinct id in order; missing messages and those without a payload object are passed over, any other failure fails the whole. |
| GmailSync.CollectAdditions | backend/src/job_apply_pro/integrations/provider_clients.py:580-597 | Collects each added id once, in order of first occurrence, up to 1,000. |
| GmailSync.DistinctExactly | backend/src/job_apply_pro/integrations/provider_clients.py:580-597 | No id twice, all ids, and in the order in which they first come. |
| GmailNothingLost.FetchExactly | backend/src/job_apply_pro/integrations/provider_clients.py:646-700 | Each id is asked for once; it is brought exactly when a message object was delivered, and otherwise it is gone or was answered without a payload object. |
| GmailNothingLost.FullSyncCovers | backend/src/job_apply_pro/integrations/provider_clients.py:627-644 | Because the position is read before the listing, everything before it is imported, passed over for want of a payload object, or gone. |
| GmailNothingLost.NothingElseIsLost | backend/src/job_apply_pro/integrations/provider_clients.py:553-644 | After any sequence of successful and failed synchronisations with arrivals and deletions at any time, everything added before the stored cursor is imported, deleted, or was answered during a fetch without a payload object. |
| GmailNothingLost.AMessageCanBeLost | backend/src/job_apply_pro/integrations/provider_clients.py:661-663 | A history in which the cursor stands behind a message that is neither imported nor deleted. |
| GmailNothingLost.LostExactly | backend/src/job_apply_pro/integrations/provider_clients.py:661-663 | Everything before the stored cursor is imported or gone if and only if every message passed over before it is imported otherwise or gone. |
| GmailNothingLost.NothingIsLost | backend/src/job_apply_pro/integrations/provider_clients.py:553-644 | When every fetched message has a payload object, everything before the stored cursor is imported or deleted. |
| CalendarPost.CalendarPost | backend/src/job_apply_pro/integrations/provider_clients.py:84-190 | Under every fault schedule exactly one of id, not applied and uncertain: sent exactly when key, payload and token are in order; not applied exactly when not sent or answered with one of eight statuses, cleanly and in time; created exactly when the whole, bounded, timely body with status 200 or 201 named a valid id, and under that id, which on Google is the attempt's own key. |
| CalendarPost.ValidIdExactly | backend/src/job_apply_pro/integrations/provider_clients.py:105-113 | The two identifier patterns, read off character by character. |
| CalendarPost.ReadResponse | backend/src/job_apply_pro/integrations/provider_clients.py:140-180 | The body is bounded, whole and on time, or nothing is concluded from it. |
| CalendarPost.LostConnectionIsUncertain | backend/src/job_apply_pro/integrations/provider_clients.py:181-187 | A connection lost or late at any point after sending leaves the outcome uncertain. |
| GeminiInvocation.Invocation.Complete | backend/src/job_apply_pro/ai/providers.py:236-373 | On every exit: each record was sent or stopped, and abandoned exactly when it was stopped by a provider, transport or value error; nothing is begun without consent, durable storage and an admitted model; cleanup ran once exactly when a journal was opened; all parts are registered on success, and what nothing speaks against succeeds when nothing fails; a retention error survives exactly the journals of `KeepsRetention`; with the shipped journal, without a retention error nothing uploaded or left open remains. |
| GeminiInvocation.Invocation.UploadMedia | backend/src/job_apply_pro/ai/providers.py:375-459 | Begun, sent, registered, and only then looked at; a record that was not sent is abandoned or left open as the exception demands. |
| GeminiInvocation.Invocation.SendMedia | backend/src/job_apply_pro/ai/providers.py:398-441 | The transfer flag tells whether the bytes were ever sent, whatever exception any step raises; once they were, a failure the handlers know is a retention error. |
| GeminiInvocation.Invocation.AwaitActiveMedia | backend/src/job_apply_pro/ai/providers.py:461-485 | Polls terminate, at most 30 per invocation, always of the registered name; the address it yields is that of an active, trusted file under that name and type. |
| GeminiInvocation.Invocation.Pause | backend/src/job_apply_pro/ai/providers.py:475-478 | Each sleep has a positive length and ends by the deadline. |
| GeminiInvocation.Invocation.CleanUp | backend/src/job_apply_pro/services/media_cleanup.py:103-145 | Visits every record within 30 seconds; without an error each is closed unsent or confirmed deleted, and where the repository takes none over, each is asked to be deleted under its own name. |
| GeminiInvocation.Invocation.CleanUpOne | backend/src/job_apply_pro/services/media_cleanup.py:105-139 | A record counts as resolved only by a confirmed deletion of its registered name. |
| GeminiInvocation.Invocation.AbandonBeforeUpload | backend/src/job_apply_pro/services/media_cleanup.py:84-91 | A record leaves the table only when it could be closed. |
| GeminiMedia.StrandedIsUnresolved | backend/src/job_apply_pro/ai/providers.py:441-448 | A record left behind by an exception nobody catches is neither closed nor confirmed deleted, so the shipped cleanup reports it. |
| GeminiInvocation.UnsentCanStayOpen | backend/src/job_apply_pro/ai/providers.py:399-448 | For every exception the handlers do not catch, a run in which making the client raises it: the record stays open, and the invocation ends in a retention error. |
| GeminiInvocation.RetentionCanBeMasked | backend/src/job_apply_pro/ai/providers.py:365-372 | For every journal outside `KeepsRetention`, a run that ends without the retention error of its body. |
| GeminiInvocation.AllResolved | backend/src/job_apply_pro/services/media_cleanup.py:103-145 | If every entry of the table is confirmed deleted, no begun record is unresolved. |
| DispatchSafety.StepKeeps | apps/desktop/src/main/calendar-event-ipc.ts:510-613 | Every call and every answer keeps the invariant of the attempts map, the phases and the log. |
| DispatchSafety.DispatchedAtMostOnce | apps/desktop/src/main/mail-draft-ipc.ts:405-476 | For any number of interleaved invocations each id is dispatched at most once. |
| DispatchSafety.EveryDispatchWasApproved | apps/desktop/src/main/calendar-event-ipc.ts:557-600 | Each dispatch follows a confirmed dialog whose details equal those of the last document read, and for calendars a fresh history without an earlier attempt. |
| DispatchSafety.QuietOutcomesDispatchedNothing | apps/desktop/src/main/calendar-event-ipc.ts:601-611 | When null or NOT_DISPATCHED is returned nothing was dispatched for the id, which is free again. |
| DispatchSafety.BlockedForGood | apps/desktop/src/main/mail-draft-ipc.ts:425-456 | Once dispatched, or found to have been, an id is never dispatched again. |
| DispatchScript.DispatchedExactlyWhenApproved | apps/desktop/src/main/calendar-event-ipc.ts:533-600 | In every run: an invocation that was not turned away has dispatched exactly when its first answers were the reviewed document, for a calendar the capability, a clean history, the second button, the same document and for a calendar the same capability and a clean history again. |
| DispatchScript.OutcomeFollows | apps/desktop/src/main/calendar-event-ipc.ts:533-612 | How it ends follows from its answers alone: among others an invalid calendar result ends unresolved and a valid one audited. |
| DispatchScript.SentWasConfirmed | apps/desktop/src/main/mail-draft-ipc.ts:438-447 | Whatever was dispatched, the second button of the dialog of just that invocation was pressed before. |
| DispatchScript.OtherButtonsCancel | apps/desktop/src/main/calendar-event-ipc.ts:565-568 | Any other button cancels the invocation, which then never dispatches. |
| DispatchScript.HeldExactly | apps/desktop/src/main/mail-draft-ipc.ts:405-476 | An id is held exactly while one invocation of it runs, or once one has dispatched or found an earlier attempt. |
| DispatchHandlers.Handlers.Handle | apps/desktop/src/main/calendar-event-ipc.ts:519-532 | A call is turned away while its id is under review or dispatched, and otherwise takes the id. |
| DispatchHandlers.Handlers.Continue | apps/desktop/src/main/calendar-event-ipc.ts:533-612 | Each stretch between two awaits is the modelled step and keeps the invariant. |
| DispatchHandlers.Handlers.Send | apps/desktop/src/main/mail-draft-ipc.ts:456-461 | The id is marked before the request leaves. |
| PdfColumns.ColumnsAreApart | backend/src/job_apply_pro/documents/extractors.py:312-328 | Columns come in twos or more, pairwise at least 12 apart, and start among the segments they were found from. |
| PdfColumns.ClustersConserve | backend/src/job_apply_pro/documents/extractors.py:317-322 | Clustering only cuts the sorted starts. |
| PdfColumns.MeanBounds | backend/src/job_apply_pro/documents/extractors.py:323-323 | A mean rounded half to even lies between the values it is the mean of. |
| PdfColumns.NearestIsMonotone | backend/src/job_apply_pro/documents/extractors.py:370-370 | Further right never means a column further left. |
| PdfGeometry.ColumnsOfPage | backend/src/job_apply_pro/documents/extractors.py:312-328 | If at least two rows have several segments and their starts are equal or at least 4 apart, and those taken at least twice are two or more positions pairwise at least 12 apart, the columns found are exactly these positions in order. |
| PdfGeometry.ColumnsOfGroups | backend/src/job_apply_pro/documents/extractors.py:312-328 | The same for starts that scatter: cut by the rule of 4, the columns are the rounded means of the groups of two and more, when these are 12 apart. |
| PdfGeometry.ClustersExactly | backend/src/job_apply_pro/documents/extractors.py:317-322 | The clusters are the one cut of the sorted starts in which each start is less than 4 behind the rounded mean of its group so far and each group at least 4 behind that of the group before. |
| PdfGeometry.SeparatedCovers | backend/src/job_apply_pro/documents/extractors.py:324-327 | The first center is kept, kept ones are at least 12 apart, and one is left out only less than 12 behind one that is kept. |
| PdfGeometry.MeanIsNearest | backend/src/job_apply_pro/documents/extractors.py:323-323 | A rounded mean is a nearest integer, and the even one when two are equally near. |
| PdfGeometry.ColumnsNeedRows | backend/src/job_apply_pro/documents/extractors.py:313-315 | A page with columns has at least two rows of several segments, and at least two columns at least 12 apart. |
| PdfLayout.FindColumnStarts | backend/src/job_apply_pro/documents/extractors.py:312-328 | The loops compute the specified column starts. |
| PdfLayout.ColumnMajorConserves | backend/src/job_apply_pro/documents/extractors.py:367-374 | Every segment appears exactly once in column-major order. |
| PdfLayout.InColumnInOrder | backend/src/job_apply_pro/documents/extractors.py:368-372 | A column holds exactly its segments, in row and then left-to-right order. |
| PdfLayout.RowsReadBack | backend/src/job_apply_pro/documents/extractors.py:362-374 | From the column-major order every row can be read back whole and in its own order. |
| PdfLayout.BlocksAreColumnMajor | backend/src/job_apply_pro/documents/extractors.py:373-387 | The blocks are the segments in that order, each with its column and cut to 20,000 characters. |
| PdfLayout.PageConserves | backend/src/job_apply_pro/documents/extractors.py:360-387 | For the columns found on any page: column-major order keeps every segment once, each row reads back whole, and each column holds exactly the segments nearest to it in the order of the page. |
| PdfLayout.LinesExactly | backend/src/job_apply_pro/documents/extractors.py:345-356 | Each row with text has its line behind those of the rows above it, cut at 20,000 characters. |
| PdfLayout.JoinedSplits | backend/src/job_apply_pro/documents/extractors.py:353-353 | A line holds the texts of its segments in order with one space between any two. |
| PdfLayout.ExtractLayoutPage | backend/src/job_apply_pro/documents/extractors.py:331-387 | By columns where there are columns, line by line where there are none, one empty line for an empty page; a page set at some positions is read by exactly these columns, and one with fewer than two rows of several segments by none. |
| Notifications.ShownAtMostOnce | apps/desktop/src/main/notification-manager.ts:441-453 | With an unchanging snapshot each active notification is shown at most once more, at most five per refresh. |
| Notifications.ShownExactly | apps/desktop/src/main/notification-manager.ts:440-453 | A refresh shows the next ones that are not delivered, in order, and fewer than its budget only when none is left. |
| Notifications.UntilExactly | apps/desktop/src/main/notification-manager.ts:448-466 | When a show throws, what was shown is what came before it, and nothing else is lost. |
| Notifications.FivePerRefresh | apps/desktop/src/main/notification-manager.ts:441-453 | While no delivered id has to be cut, one refresh for every five active notifications delivers all. |
| Notifications.AllDeliveredInTime | apps/desktop/src/main/notification-manager.ts:436-461 | Within as many refreshes as there are active notifications all are delivered, and nothing more is shown. |
| Notifications.StaysConsistent | apps/desktop/src/main/notification-manager.ts:472-479 | Whatever is evicted at 500, all that was shown stays recorded. |
| Notifications.NotificationManager.PerformRefresh | apps/desktop/src/main/notification-manager.ts:436-470 | What is shown, recorded, stored and reported, also when loading, showing or saving fails: the next ones in order, five at most, up to the first that throws. |
| Notifications.NotificationManager.Persist | apps/desktop/src/main/notification-manager.ts:472-479 | Keeps the newest 500 ids. |
| Notifications.NotificationManager.RefreshRepeatedly | apps/desktop/src/main/notification-manager.ts:436-479 | Refreshes of the object on end show and record what the delivery theorems say, also when saving fails. |
| ReplyReferences.ReferencesOfPrint | backend/src/job_apply_pro/domain/mail_threading.py:63-97 | Parsing inverts printing for any folding white space between the identifiers. |
| ReplyReferences.ReferencesOfJoined | backend/src/job_apply_pro/domain/mail_threading.py:91-97 | Parsing inverts joining with single spaces. |
| ReplyReferences.ParsedPrintsBack | backend/src/job_apply_pro/domain/mail_threading.py:91-97 | Whatever parses can be printed within the limit and parses to itself again. |
| ReplyReferences.SubstituteFolding | backend/src/job_apply_pro/domain/mail_threading.py:63-67 | A fold unfolds to spaces and nothing else. |
| ReplyReferences.MessageIdOfId | backend/src/job_apply_pro/domain/mail_threading.py:83-88 | A valid identifier is what it parses to. |
| ReplyReferences.MessageIdOfPadded | backend/src/job_apply_pro/domain/mail_threading.py:63-88 | White space around an identifier, even folded in front of it, does not matter. |
| ReplyReferences.DotAtomExactly | backend/src/job_apply_pro/domain/mail_threading.py:19-22 | The dot-atoms are exactly the atoms of section 3.2.3 of RFC 5322 with single dots between them. |
| ReplyReferences.AcceptedIsOneHeader | backend/src/job_apply_pro/domain/mail_threading.py:63-97 | What is accepted is within 985 or 8,192 characters and one header: lone line breaks and injected lines are refused. |
| ReplyReferences.NothingIsDropped | backend/src/job_apply_pro/domain/mail_threading.py:91-97 | No part of an accepted chain is dropped: between spaces, the unfolded header is as many words as there are identifiers, and each word is its identifier. |
| ReplyReferences.IdentifierIsWhole | backend/src/job_apply_pro/domain/mail_threading.py:83-88 | An accepted identifier is all there is to its unfolded header, but for white space around it. |
| ReplyContext.GmailReplyEndsWithSource | backend/src/job_apply_pro/domain/mail_threading.py:227-234 | A built Gmail context answers its source, carries its valid identifiers, subject and keys, and extends the chain of its source by the source itself. |
| ReplyContext.GmailReplyExactly | backend/src/job_apply_pro/domain/mail_threading.py:175-259 | A reply to a parsed Gmail message is built exactly when identifiers, subject and keys are valid, the mailboxes have canonical spellings, at most one reply address is named, and the chain stays within 50 identifiers and 8,192 characters. |
| ReplyContext.ReplyExactly | backend/src/job_apply_pro/domain/mail_threading.py:216-259 | For both providers: a context is built exactly when it answers the Reply-To address, or else the From address, from the own account, carries chain, identifiers and facts of its source, supports MIME replies for Gmail or when sender, from and recipient are one mailbox, and satisfies every limit. |
| ReplyContext.GmailHeadersExactly | backend/src/job_apply_pro/domain/mail_threading.py:100-131 | Each field of the reply headers is read from the critical header of the same name, and the message is refused exactly when one of them does not parse. |
| ReplyContext.PrintedChainParsesBack | backend/src/job_apply_pro/integrations/provider_clients.py:305-310 | The printed References header parses back to the chain exactly when its entries carry no surrounding white space. |
| ReplyContext.GmailReplyRoundTrip | backend/src/job_apply_pro/domain/mail_threading.py:100-259 | From received headers to the printed chain of the reply and back nothing changes. |

## Left out

- CalendarPost.CalendarPost: the wire encoding of the payload is a size, and the response body is decoded by an arbitrary function.
- GmailSync.FetchMessages: the normalised message is its id; headers, bodies and attachment names of a message are not modelled.
- Notifications.NotificationManager.PerformRefresh: collecting the active notifications, the reported times and the sharing of a refresh in flight.
- Backup runs started by the timer, and the message texts of the supervisor beyond telling them apart.
- Suppression of a repeated status update while admission is blocked: the model allows an interleaving there that the source does not have.
- The Outlook delta synchronisation, sending of mail, and updating of calendar events.
- The decoding and re-encoding of images behind the gate.
- Calendar plan preparation, and the validators of handler arguments, plans, drafts and audits, which enter as arbitrary functions or conditions.
- The regular expression that splits a line into segments; pages start from segments in left-to-right order.
- Interpretation of a completed Gemini interaction beyond its failure, and validation of upload and file addresses, which is a condition.
- The mailbox grammar, headers other than those of the reply chain, and the gathering of these by name.
- Real processes, timers, dialogs, HTTP, storage and encryption, which are choices of the environment.
