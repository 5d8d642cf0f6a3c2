# A verified model of the recon platform's hard parts

This project models, in Dafny 4.11, the parts of the JavaScript recon platform and its browser
extension whose correctness is hard to see from any one function, and proves what they promise. The
verifier checks everything with `dafny verify dfyconfig.toml`.

| File | What it models |
| --- | --- |
| `ConstFold.dfy`, `BindingAnalysis.dfy`, `FoldSoundness.dfy` | folding URL expressions in bundles: the resolver with its memo table, cycle guard and depth cap; the pass that refuses names bound more than once; what a folded URL says about run time |
| `UploadProtocol.dfy`, `UploadOrder.dfy`, `UploadSafety.dfy`, `UploadDurability.dfy`, `BatchUploader.dfy` | the extension's durable upload protocol as a state machine over interleaved events, and the object whose methods are its steps |
| `SessionProtocol.dfy`, `UploadGate.dfy` | the capture session that drives it: which session id a file carries, rotating the id, dropping the outbox; what the analysis gate says about everything the outbox ever took |
| `ModuleCrawl.dfy` | the bounded breadth-first crawl of a module graph and the loop over a run's assets |
| `Correlation.dfy`, `Specificity.dfy` | matching observed requests to endpoint templates, and which of two templates wins |
| `EventPump.dfy`, `CaptureOutcomes.dfy`, `CaptureContext.dfy` | the browser-capture event pump as a state machine; what a capture has recorded, told from the messages alone; and the objects that run it |
| `SealProtocol.dfy`, `CaptureIngest.dfy`, `Utf8.dfy` | sealing capture rounds under concurrency; capping untrusted bodies on a code-point boundary |
| `Base64Url.dfy`, `AuthToken.dfy` | the signed login token, on the server and in the extension |
| `RateLimit.dfy`, `RateSpacing.dfy`, `RateBudget.dfy` | the two-gate fetch limiter shared by all workers; how far apart it keeps the fetches of one host; how many it grants in a second |
| `HostScope.dfy`, `BaseUrl.dfy`, `Text.dfy` | host scope and hook patterns; the base-URL overlay; splitting and joining text |
| `Basics.dfy` | small shared vocabulary |

Code that changes state is modelled by classes and methods, each proved to do what a pure transition
or specification function says; the theorems are about those functions, over every input, run or
interleaving. Where several parties interleave, one event is one stretch that nothing can interrupt:
a synchronous stretch between two `await`s, one store command, or one committed transaction.

The parsers of JavaScript and URLs, JSON, regular expressions over whole bodies, the keyed digest, the
content hash, `fetch` and the module enumerators are functions given as parameters, with only the laws
stated where they are used. History that no branch reads (what was acknowledged, which ids were issued,
how each parsed script ended) is carried in the models' states so that theorems can speak of it.

## What was found

Some promises do not hold of the code as written. In each case the code is modelled as it is, and the
condition under which the promise holds and a concrete failing case are both proved.

* **A sink's `+` chain keeps substitutions as text.** `_resolve_concat_operand` falls through to the
  plain string value of a template, which leaves `${name}` in place. The fold is the run-time value
  exactly when no template in the chain has a substitution (`FoldSoundness.SinkFoldSoundIff`; failing
  case `SubstitutionKeptAsWritten`).
* **A leading-name template is re-joined at a slash and keeps its other substitutions as text.** The fold
  is the run-time value exactly when the name's value does not end in a slash that meets one at the
  beginning of the rest, and the rest stays as written when the table's values are put in
  (`FoldSoundness.PrefixFoldSoundIff`; failing cases `BoundarySlashCollapsed`, `SecondSubstitutionKept`).
  For values without a dollar sign the latter means that the rest has no substitution
  (`PlainPrefixFoldSoundIff`).
* **Some binders are not counted.** A parenthesised target that also holds a comment, a generator
  declaration and the name of a function expression escape the count (failing case
  `FoldSoundness.CommentedAssignmentIsMissed`).
* **A name is folded outside its declarator's scope**, although
  apps/platform/src/recon/findings/_base_env.py:365-371 says that it cannot differ at the sink. There it
  may have a value from elsewhere, such as the browser's `origin` (`FoldSoundness.ReadOutOfScope`). Both
  taken together: the table is right in every execution exactly when every site that binds a folded name
  is counted and no folded name has another value from outside (`FoldSoundness.TableSoundIff`).
* **The depth cap does not bound chains of references.** It restarts at every name, although the comment
  at apps/platform/src/recon/findings/_dataflow.py:32-36 says that it bounds such chains; as far as the
  interpreter's stack reaches, a chain of any length resolves (`ConstFold.ChainOfAnyLengthResolves`).
  Termination does not need the cap (`ConstFold.Resolver.ResolveName`).
* **A stale batch can delete a newer file's outbox entry.** A batch taken before a clear is forgotten by
  key when it fails; a file enqueued after the clear under the same key is then lost from the store.
  Enqueueing stays durable exactly when the key is not one such a batch will still delete
  (`UploadDurability.EnqueueDurableIff`).
* **Rotating the session id first does not always prevent that.** Between the rotation and the clear of
  the outbox the session waits for storage (apps/capture/chrome-extension/modules/capture-session.js:79-91),
  and a file captured meanwhile carries the new id. Without such a capture no run of any length loses a
  persisted file (`SessionProtocol.RotatingSessionsLoseNothing`). A clear loses nothing for good exactly
  when the batch on its way then holds no file of the current session (`DropIsSafeIff`); with a capture
  in the gap a whole run from installation loses one (`CaptureBeforeDropLoses`).
* **A failed read-back opens the analysis gate**, against "Don't analyze on a PARTIAL set". A new worker
  that cannot read the outbox has an empty queue, so nothing holds an analysis back while files wait on
  disk (`UploadGate.FailedReadBackOpensGate`). In what follows in that worker the gate is sound exactly
  when the read-back completed or nothing was left to read (`StartUpDecides`). It is sound in any run
  without a respawn (`GateSoundWithoutRespawn`), and in any that reuses no doomed key and has read the
  outbox back since its last respawn (`GateSeesEverything`).
* **A failed clear is swallowed.** Isolation holds for clears that complete
  (`UploadSafety.NoSendAcrossClear`); if the store fails one, an old file can go out under a token installed
  afterwards (`FailedClearLeaks`).
* **Reading the outbox back ignores the epoch.** It is safe only because messages wait until start-up is
  over; a clear in between would leak (`UploadSafety.ClearDuringReadBackWouldLeak`).
* **A zero remaining time opens the host gate.** A worker that loses the slot and then reads a remaining
  time of 0 ms is told to go ahead without taking the slot, and so is everyone else in that millisecond.
  Without such a reading any two passes of the host gate are more than the interval apart
  (`RateSpacing.PassesAreSpaced`); after one, two passes can fall in the same millisecond from any state
  (`ZeroReadUnspaces`, `ZeroTtlLetsTwoThrough`).
* **The interval is kept at the host gate, not when the check returns.** The budget is counted in
  between. Short of such a reading, the returns of two checks are the interval apart in every run exactly
  when both gates are passed in the same millisecond, or at most one apart for an interval of whole
  milliseconds
  (`RateSpacing.IntervalKeptIff`; failing case `SlowThenQuickTooClose`).
* **The per-second budget is counted by the second a worker read, not the second it is let go.** A
  second sees no more than the budget in every run exactly when increments do not lag behind the readings
  at all (`RateBudget.BudgetKeptIff`; failing case `BoundAttained`), and whenever each increment falls
  in the second its worker read (`SameSecondKeepsBudget`). With a lag it is bounded by the budget for each
  second that can have been read, and by twice that once a counter can expire under a late increment
  (`BudgetBound`, attained by `BoundAttained` for every lag from 1 ms to a second), which takes a lag of more
  than 1001 ms (`CounterOutlivesItsCalls`,
  `LateIncrementOverruns`).
* **A batch can land on a sealed run.** `save-files` finds the open run in one transaction and appends in
  a later one, although apps/platform/src/recon/api/capture_router.py:316-331 says that the next batch
  after a seal opens a fresh run. It lands on an open run exactly when no analyze has sealed that run in
  between (`SealProtocol.LandsOnOpenRunIff`; failing case `BatchLandsAfterSeal`).
* **One bad item fails a whole batch of observations**, against the documented "a bad item is skipped,
  never the whole batch". The call raises exactly when the cap still lets in an item with a verb and a URL
  that the URL parser refuses, such as `http://[x`, or a first sighting with a body that holds a code point
  that cannot be encoded (`CaptureIngest.NormalizeObservations`; failing cases `RefusedUrlRaises`,
  `LoneSurrogateRaises`).
* **A kept scope entry may carry a blank**, as `*. acme.io` does. It is in normal form exactly when no
  blank follows the removed wildcard and none came before the removed dots (`HostScope.KeptEntry`;
  failing case `WildcardLeavesBlank`).

One thing is not promised and worth knowing: applying a base-URL rule again changes nothing
(`BaseUrl.SameRuleTwice`), and resolving twice changes nothing for rules whose bases do not lead to each
other's prefixes (`IndependentRulesTwice`), but bases of rules that chain stack up (`RulesCanChain`).

## Model

| member | source | states |
|---|---|---|
| ConstFold.LfpIsFixpoint | apps/platform/src/recon/findings/_dataflow.py:100-127 | the meaning given to resolution solves the bindings: a name has a value exactly when its own expression evaluates to it |
| ConstFold.LfpIsLeast | apps/platform/src/recon/findings/_dataflow.py:40-55 | and is the least solution: it is contained in every table closed under evaluating the bindings |
| ConstFold.ResolvesIffWellFounded | apps/platform/src/recon/findings/_dataflow.py:40-123 | a name resolves exactly when its reads are well founded through foldable bindings |
| ConstFold.RankDecreases | apps/platform/src/recon/findings/_dataflow.py:51-59 | a resolved name reads only names resolved strictly earlier |
| ConstFold.SelfSupportingNeverResolves | apps/platform/src/recon/findings/_dataflow.py:54-55 | no member of a set in which every binding reads another member ever resolves |
| ConstFold.CycleNeverResolves | apps/platform/src/recon/findings/_dataflow.py:54-55 | a name on a cycle, or leading to one in any number of steps, does not resolve |
| ConstFold.ChainResolves | apps/platform/src/recon/findings/_dataflow.py:32-59 | a chain of bindings, each the next name, resolves to its string at any length |
| ConstFold.ChainOfAnyLengthResolves | apps/platform/src/recon/findings/_dataflow.py:32-59 | and for any number of distinct names there is such a chain, the interpreter's stack aside |
| ConstFold.DeepestNesting | apps/platform/src/recon/findings/_dataflow.py:100-123 | one expression is followed forty parentheses deep and no further, and a template up to 8192 bytes |
| ConstFold.Resolver.ResolveName | apps/platform/src/recon/findings/_dataflow.py:51-59 | with any sound memo table and active set, the recursion terminates and returns the least-fixpoint value, keeping the table sound |
| ConstFold.Resolver.ExpandTemplate | apps/platform/src/recon/findings/_dataflow.py:61-98 | a template resolves, all or nothing, to its pieces joined in order |
| ConstFold.Resolver.ResolveNode | apps/platform/src/recon/findings/_dataflow.py:100-123 | an expression resolves to its value under the least fixpoint, within the depth cap |
| ConstFold.ResolveLocalConsts | apps/platform/src/recon/findings/_dataflow.py:40-127 | the whole call returns the least fixpoint, whatever the iteration order over the bindings |
| BindingAnalysis.MarkerExact | apps/platform/src/recon/findings/_base_env.py:73-111 | the marker counts exactly the names a target binds if and only if no commented parenthesis in it hides a name, and never counts more |
| BindingAnalysis.CommentedParenthesisEscapes | apps/platform/src/recon/findings/_base_env.py:104-111 | the hidden case: a bound name that is not counted |
| BindingAnalysis.Mark | apps/platform/src/recon/findings/_base_env.py:73-111 | the explicit stack adds exactly the binding leaves of the pattern to the counts, and terminates |
| BindingAnalysis.DeclaredNames | apps/platform/src/recon/findings/_base_env.py:41-158 | the result is the set of names counted more than once over the whole walk |
| BindingAnalysis.CollectBaseEnv | apps/platform/src/recon/findings/_base_env.py:161-231 | the bindings kept are those of names not refused, and the table is their least fixpoint, or empty when the file has a `with` |
| BindingAnalysis.FoldableNameIsBoundOnce | apps/platform/src/recon/findings/_base_env.py:113-158 | a kept name is counted at its own declarator and nowhere else |
| BindingAnalysis.TwoSitesPoison | apps/platform/src/recon/findings/_base_env.py:113-158 | a name counted at two sites is refused, wherever they are |
| BindingAnalysis.ListedSitesAreExact | apps/platform/src/recon/findings/_base_env.py:113-157 | at every listed kind of site the walk counts exactly what running the site can bind, if and only if no target hides a name |
| BindingAnalysis.SecondWriteRefuses | apps/platform/src/recon/findings/_base_env.py:113-158 | a name written at two sites, of whatever listed kinds, is refused |
| BindingAnalysis.CompoundAssignmentRefuses | apps/platform/src/recon/findings/_base_env.py:144-148 | a declared name with a compound assignment is refused |
| FoldSoundness.TableSoundIff | apps/platform/src/recon/findings/_base_env.py:161-231 | from any values supplied from outside, the table is right in every state of every execution exactly when every site binding a folded name is counted and the outside values do not contradict it |
| FoldSoundness.PlainFilesAreCounted | apps/platform/src/recon/findings/_base_env.py:113-157 | files whose commented parentheses hide no name and without unlisted binders meet that condition |
| FoldSoundness.CommentedAssignmentIsMissed | apps/platform/src/recon/findings/_base_env.py:104-111 | a file that does not: the name still folds to its first value |
| FoldSoundness.SinkFoldSoundIff | apps/platform/src/recon/findings/_base_env.py:357-408 | a chain that folds is folded to its run-time value, whatever the names hold, exactly when it has no substitution |
| FoldSoundness.SinkFoldsIff | apps/platform/src/recon/findings/_base_env.py:357-429 | exactly the known names, and the `+` chains of foldable operands, within both caps, are folded; a bare name to its value |
| FoldSoundness.SubstitutionKeptAsWritten | apps/platform/src/recon/findings/_base_env.py:357-408 | a chain with a substitution whose fold is not its value |
| FoldSoundness.FoldedSinkIsRuntimeValue | apps/platform/src/recon/findings/_base_env.py:411-429 | end to end: collected, resolved and folded, a sink expression evaluates in any execution whose outside values do not contradict the table to what it was folded to |
| FoldSoundness.ReadOutOfScope | apps/platform/src/recon/findings/_base_env.py:357-408 | a counted file whose sink reads another value than the folded one, unless the outside value is the same text |
| FoldSoundness.PrefixFoldSoundIff | apps/platform/src/recon/findings/_base_env.py:287-347 | every leading-name template folds to its run-time value, in all stores that agree with the table, exactly when no slashes meet at the boundary and putting the table's values into the rest leaves it as written |
| FoldSoundness.PrefixFoldsIff | apps/platform/src/recon/findings/_base_env.py:287-347 | exactly the templates that begin with a known name, within the span cap, are folded by it |
| FoldSoundness.PlainPrefixFoldSoundIff | apps/platform/src/recon/findings/_base_env.py:287-347 | for values without a dollar sign: exactly when no slashes meet and the rest has no substitution |
| FoldSoundness.FoldedPrefixIsRuntimeValue | apps/platform/src/recon/findings/_base_env.py:287-347 | end to end under that condition |
| FoldSoundness.SecondSubstitutionKept | apps/platform/src/recon/findings/_base_env.py:295-299 | a template with a second substitution, whose fold is not its value although no slashes meet |
| FoldSoundness.BoundarySlashCollapsed | apps/platform/src/recon/findings/_base_env.py:287-347 | a template in which two slashes meet, and the two different texts |
| UploadOrder.FirstInFirstOut | apps/capture/chrome-extension/modules/batch-uploader.js:65-253 | in every reachable state the files of the epoch are settled, then in flight, then queued, in arrival order; at most one batch of one to five files is in flight; the counters count |
| UploadOrder.AnalyzeSeesEverything | apps/capture/chrome-extension/modules/workspace-client.js:119-132 | within one worker's life, when no upload runs the queue is empty exactly when everything that entered it in the current epoch has been acknowledged or rejected |
| UploadGate.GateSoundWithoutRespawn | apps/capture/chrome-extension/modules/workspace-client.js:119-132 | without a respawn, whatever else happens, an idle uploader with an empty queue means that everything put into the outbox since the last clear is acknowledged or rejected |
| UploadGate.GateSeesEverything | apps/capture/chrome-extension/modules/workspace-client.js:119-132 | and so it does across any number of respawns, in every run that reuses no doomed key and in which a read-back has completed since the last one |
| UploadGate.SessionGateSeesEverything | apps/capture/chrome-extension/modules/capture-session.js:77-98 | for the session's own runs it is enough that nothing is captured between rotating the id and dropping the outbox |
| UploadGate.HeldKept | apps/capture/chrome-extension/modules/batch-uploader.js:165-253 | every event but a respawn keeps each persisted key settled, queued or on the wire |
| UploadGate.ReadBackHolds | apps/capture/chrome-extension/modules/batch-uploader.js:140-163 | a completed read-back takes every persisted and unsettled key in hand again |
| UploadGate.SettledBatchLeavesTheStore | apps/capture/chrome-extension/modules/batch-uploader.js:87-93 | once a batch is acknowledged or rejected and the store has caught up, none of its keys is in the outbox, whatever else the uploader does meanwhile |
| UploadGate.StartUpDecides | apps/capture/chrome-extension/background.js:207-210 | after a respawn, the gate is sound in all that follows in that worker exactly when its read-back completed or nothing was left to read |
| UploadGate.FailedReadBackOpensGate | apps/capture/chrome-extension/modules/batch-uploader.js:144-149 | a run with a failed read-back after which the gate is open and a persisted file unsettled |
| UploadOrder.PausedSendsNothing | apps/capture/chrome-extension/modules/batch-uploader.js:116-170 | while paused for a login nothing is sent in any run without a resume, an outbox clear or a respawn, and the queue only grows at its end |
| UploadOrder.ResumedSendsTheOldest | apps/capture/chrome-extension/modules/batch-uploader.js:121-182 | the first upload after such a run begins with the file that has waited longest, under the token held by then |
| UploadOrder.SendsUnderTheTokenHeld | apps/capture/chrome-extension/modules/batch-uploader.js:322-326 | what is sent carries the token installed last |
| UploadOrder.ClearedStartsAfresh | apps/capture/chrome-extension/modules/batch-uploader.js:101-112 | after a clear nothing is queued or paused, and the next file goes out by itself |
| UploadOrder.NewItemsOnce | apps/capture/chrome-extension/modules/batch-uploader.js:151-162 | a read-back adds each key once and none that is queued already |
| UploadOrder.NewItemsInOrder | apps/capture/chrome-extension/modules/batch-uploader.js:151-162 | and in the order it was read |
| UploadOrder.DroppedIff | apps/capture/chrome-extension/modules/batch-uploader.js:328-360 | a reply drops its batch exactly when it is a readable 4xx other than 401, 403 and 429, or the batch is stale and was not taken; a batch neither taken nor dropped is back in front |
| UploadOrder.LoginLapseLosesNothing | apps/capture/chrome-extension/modules/batch-uploader.js:199-253 | after a 401 or 403 for a current batch nothing is sent or dropped in any run without a resume, an outbox clear or a respawn, and the first upload once resumed begins with that batch's first file |
| UploadOrder.FlushAll | apps/capture/chrome-extension/modules/batch-uploader.js:255-292 | the flush terminates: the queue length strictly falls from round to round, and it ends drained or after a round that did not shrink the queue |
| UploadSafety.NoSendAcrossClear | apps/capture/chrome-extension/modules/batch-uploader.js:101-112 | in any interleaving, a file enqueued before a clear is never sent with a token installed after that clear completed |
| UploadSafety.FailedClearLeaks | apps/capture/chrome-extension/modules/batch-uploader.js:109-111 | a run in which the store fails the clear and an older file is sent under a token installed afterwards |
| UploadSafety.IsolatedKept | apps/capture/chrome-extension/background.js:1332-1350 | every event keeps the isolation invariant over queue, flight, store, outstanding operations and tokens |
| UploadSafety.ReadBackAfterClear | apps/capture/chrome-extension/modules/batch-uploader.js:140-163 | a read-back that straddles a clear would resurrect the cleared file |
| UploadSafety.ClearDuringReadBackWouldLeak | apps/capture/chrome-extension/modules/batch-uploader.js:140-163 | and that file would then be sent under the next token, were messages not held back until start-up ends |
| UploadDurability.NothingPersistedIsLost | apps/capture/chrome-extension/modules/batch-uploader.js:65-93 | in any run in which no file is enqueued under a key that a stale batch will still delete, across any number of respawns, every key whose put completed since the last clear is on disk, acknowledged or rejected |
| UploadDurability.SafeKept | apps/capture/chrome-extension/modules/batch-uploader.js:165-253 | every event that reuses no doomed key keeps the durability invariant |
| UploadDurability.StaleForgetLoses | apps/capture/chrome-extension/modules/batch-uploader.js:211-218 | from an answered stale batch, a run exists that loses a key it still has to forget |
| UploadDurability.DoomedKeyLoses | apps/capture/chrome-extension/modules/batch-uploader.js:211-218 | a file enqueued under such a key can be lost although its put completed |
| UploadDurability.EnqueueDurableIff | apps/capture/chrome-extension/modules/batch-uploader.js:65-72 | enqueueing keeps everything durable for good exactly when its key is not one a stale batch will still delete |
| UploadDurability.RespawnRequeuesEverything | apps/capture/chrome-extension/modules/batch-uploader.js:140-163 | after a respawn one read-back queues every key persisted and neither acknowledged nor rejected |
| UploadDurability.KeysOfDifferentSessions | apps/capture/chrome-extension/modules/batch-uploader.js:57-63 | files of sessions with different ids never share an outbox key |
| SessionProtocol.RotatingSessionsLoseNothing | apps/capture/chrome-extension/modules/capture-session.js:77-98 | if nothing is captured between rotating the id and dropping the outbox, every run of the session is a run of the upload protocol that reuses no doomed key, and keeps every persisted key |
| SessionProtocol.DropIsSafeIff | apps/capture/chrome-extension/modules/capture-session.js:91-91 | after a run whose drops were clean, one more drop loses nothing in any such continuation exactly when the batch it makes stale holds no file of the current session |
| SessionProtocol.UncleanDropLoses | apps/capture/chrome-extension/modules/capture-session.js:84-98 | after any other drop a continuation loses a file: clear the captured files, capture the same content, let the stale batch fail |
| SessionProtocol.CaptureBeforeDropLoses | apps/capture/chrome-extension/modules/capture-session.js:79-91 | a run from installation, with a capture in the gap, that loses a persisted file |
| SessionProtocol.CaptureIsHygienic | apps/capture/chrome-extension/background.js:573-640 | a capture stamped with the current id shares no key with a stale batch that holds no file of that id |
| SessionProtocol.TidyIsHygienic | apps/capture/chrome-extension/modules/capture-session.js:62-98 | every run of the session whose drops are all of that kind reuses no doomed key |
| SessionProtocol.RunGood | apps/capture/chrome-extension/modules/capture-session.js:62-98 | and keeps durability, the stamps and the separation from stale batches |
| BatchUploaderObject.Outbox.Commit | apps/capture/chrome-extension/modules/batch-uploader.js:65-93 | the oldest outstanding operation takes effect |
| BatchUploaderObject.BatchUploader.Enqueue | apps/capture/chrome-extension/modules/batch-uploader.js:65-72 | the file joins the end of the queue and its put is issued in the same stretch |
| BatchUploaderObject.BatchUploader.ProcessBatch | apps/capture/chrome-extension/modules/batch-uploader.js:165-182 | a batch is taken and sent with the token held at that moment, exactly when idle, non-empty and not paused |
| BatchUploaderObject.BatchUploader.OnReply | apps/capture/chrome-extension/modules/batch-uploader.js:181-253 | the reply settles, re-queues or drops the batch as the protocol's step says, epoch check before the pause |
| BatchUploaderObject.BatchUploader.ForgetNext | apps/capture/chrome-extension/modules/batch-uploader.js:87-93 | one delete per settled file, in order, and then the upload is over |
| BatchUploaderObject.BatchUploader.ClearOutbox | apps/capture/chrome-extension/modules/batch-uploader.js:101-112 | the epoch rises, the queue and the pause go, and a clear is issued, in one stretch |
| BatchUploaderObject.BatchUploader.SetAuthToken | apps/capture/chrome-extension/modules/batch-uploader.js:384-391 | the token becomes the text's printable ASCII, and none exactly when it has none; nothing else of the protocol's state changes |
| AuthToken.CleanedIsSafe | apps/capture/chrome-extension/modules/batch-uploader.js:376-385 | cleaning leaves only printable ASCII, and leaves a text alone exactly when it is nothing else |
| AuthToken.CleaningKeepsMintedTokens | apps/capture/chrome-extension/modules/batch-uploader.js:376-385 | cleaning never changes a token the server minted |
| BatchUploaderObject.BatchUploader.MergeReadBack | apps/capture/chrome-extension/modules/batch-uploader.js:151-162 | stored files whose key is not queued join the queue, each key once, in order |
| ModuleCrawl.EnumerateEsm | apps/platform/src/recon/fetch/fetch.py:1118-1207 | no URL is tried twice, already a row or never referred to; exactly the successes are seeded, all reachable; both ceilings hold; a check precedes each module and each attempt, and it is interrupted exactly at the first check that finds a stop; otherwise, short of a ceiling, the seeds are the exact reachable closure; and it terminates on any graph |
| ModuleCrawl.SearchModules | apps/platform/src/recon/fetch/fetch.py:1128-1199 | the same for the breadth-first loop itself |
| ModuleCrawl.ExpandNext | apps/platform/src/recon/fetch/fetch.py:1139-1199 | one round of it keeps the search's invariant and makes progress |
| ModuleCrawl.ExpandModule | apps/platform/src/recon/fetch/fetch.py:1145-1199 | the inner loop keeps the search's invariant, is interrupted only by a check that finds a stop, and else leaves no joinable specifier untried |
| ModuleCrawl.ContainsIff | apps/platform/src/recon/fetch/fetch.py:1118-1122 | the gates look for a word anywhere in the body |
| ModuleCrawl.SearchComplete | apps/platform/src/recon/fetch/fetch.py:1128-1199 | when everything found has been expanded, seeded and reachable are the same |
| ModuleCrawl.SeedChunks | apps/platform/src/recon/fetch/fetch.py:1022-1064 | the flat loop seeds distinct new URLs, all of them unless a ceiling, a check that finds a stop or a malformed specifier ends it |
| ModuleCrawl.EnumerateWebpack | apps/platform/src/recon/fetch/fetch.py:1009-1069 | the same behind its gates, within the remaining room |
| ModuleCrawl.SeedEsm | apps/platform/src/recon/fetch/fetch.py:1118-1207 | the table grows by the search's successes, interrupted or not, and short of a ceiling by exactly the reachable modules |
| ModuleCrawl.SeedWebpack | apps/platform/src/recon/fetch/fetch.py:1009-1074 | the same for the flat list, which a malformed specifier ends early |
| ModuleCrawl.SeedFrom | apps/platform/src/recon/fetch/fetch.py:774-810 | at most one enumerator has work; whatever was fetched is kept even on an interrupt; short of a ceiling the table grows by exactly what can be found |
| ModuleCrawl.SeedingCount | apps/platform/src/recon/fetch/fetch.py:1065-1068 | distinct new rows are inserted one each |
| ModuleCrawl.FetchOne | apps/platform/src/recon/fetch/fetch.py:690-810 | one fetched asset: its status, its log entry and what its enumeration adds |
| ModuleCrawl.CrawlRow | apps/platform/src/recon/fetch/fetch.py:690-693 | one row: skipped, or fetched unless someone asks to stop before it |
| ModuleCrawl.FetchAssets | apps/platform/src/recon/fetch/fetch.py:685-820 | it is interrupted only where someone asked to stop, before the next asset to be fetched or inside the last one's enumeration, and no asset is fetched past a stop; the asset count never exceeds the larger of its start and the ceiling; each pending asset without input is fetched once and ends with its outcome, the others are untouched; everything new was fetched; short of a ceiling every fetchable reference of a fetched asset is in the table |
| Correlation.AbsorbedIff | apps/platform/src/recon/correlate/match.py:69-90 | alignment succeeds with k exactly when the segments are a k-segment base followed by an instance of the tail, with k = 0 for rooted paths |
| Correlation.Correlate | apps/platform/src/recon/correlate/match.py:108-147 | a finding maps to a URL exactly when it owns that URL and no other |
| Correlation.Gather | apps/platform/src/recon/correlate/match.py:114-132 | one request adds, per URL, exactly the aligned same-verb endpoints' candidates |
| Correlation.Best | apps/platform/src/recon/correlate/match.py:138-138 | a candidate no other one is more specific than |
| Correlation.Winners | apps/platform/src/recon/correlate/match.py:139-139 | all candidates as specific as the best, with multiplicity |
| Correlation.PerFinding | apps/platform/src/recon/correlate/match.py:136-143 | a finding has won exactly the URLs at which it is the strict best |
| Correlation.OwnerIsStrictlyMostSpecific | apps/platform/src/recon/correlate/match.py:134-143 | owning a URL means competing for it and being strictly more specific than every other competitor |
| Specificity.IsParamIff | apps/platform/src/recon/correlate/match.py:30-52 | a wildcard is braces, after a dollar sign for a host variable, with no closing brace between them |
| Specificity.ParseTailIff | apps/platform/src/recon/correlate/match.py:55-66 | a template has a tail exactly when some segment of it is not a wildcard, and a leading host variable is left off |
| Specificity.ConstCountIsConstants | apps/platform/src/recon/correlate/match.py:129-129 | the constants counted are the positions that are not wildcards |
| Specificity.OfferIff | apps/platform/src/recon/correlate/match.py:114-132 | an endpoint is a candidate exactly when the observed path ends in its tail, agreeing at every constant, with nothing before it unless a host variable leaves room |
| Specificity.OwnerBeatsAll | apps/platform/src/recon/correlate/match.py:101-143 | said of segments: the owner contends for the URL and has more constants than every other contender, or as many and a longer tail |
| Specificity.PlainPathBeats | apps/platform/src/recon/correlate/match.py:101-105 | a path without wildcards loses to no template, and beats every one but those that spell out its segments |
| Correlation.OneOwnerPerUrl | apps/platform/src/recon/correlate/match.py:137-143 | no URL resolves two findings |
| Correlation.OrderDoesNotMatter | apps/platform/src/recon/correlate/match.py:108-147 | the result does not change when endpoints or requests are permuted |
| EventPump.RoutedAccounted | apps/platform/src/recon/capture/driver.py:497-532 | every event keeps the accounting of parsed scripts, requests in flight, stored scripts, caps and ids |
| EventPump.EveryScriptAccountedFor | apps/platform/src/recon/capture/driver.py:455-636 | after any event sequence each parsed script has one fate; in-flight fates and pending requests, and captured fates and distinct stored digests, correspond one to one; none in flight belongs to a detached session; stored scripts carry their own digest within the byte cap; both count caps hold |
| EventPump.SettledLeavesNothingInFlight | apps/platform/src/recon/capture/driver.py:485-495 | at settle every parsed script is stored under its digest, was answered without source, or its session is gone |
| EventPump.ReplyReachesItsCommand | apps/platform/src/recon/capture/cdp.py:71-79 | a reply is handed to a waiting command exactly when it answers that command, never when it answers a source request |
| EventPump.LateReplyChangesNothing | apps/platform/src/recon/capture/driver.py:509-532 | a source reply that comes after its session detached changes nothing |
| CaptureOutcomes.SourceDecides | apps/platform/src/recon/capture/driver.py:588-613 | a source reply ends its script without a source exactly when it has an error or no or an empty source; else the source is stored with its URL and type, unless its digest already is |
| CaptureOutcomes.AnsweredIsStored | apps/platform/src/recon/capture/driver.py:497-613 | over any message sequence, every script answered with a source while its request was pending is stored at the end, and one answered without is not |
| CaptureOutcomes.FatesAreExplained | apps/platform/src/recon/capture/driver.py:497-613 | a script is captured, a duplicate or without source only because of the answer it got |
| CaptureOutcomes.StoredComesFrom | apps/platform/src/recon/capture/driver.py:564-613 | every stored script is the answer for a script that was parsed, with its URL and its session's last reported type |
| CaptureOutcomes.RequestsAreReported | apps/platform/src/recon/capture/driver.py:615-636 | the request list holds only reported XHR and fetch requests, each listed when it came, and all of them short of the cap |
| CaptureOutcomes.ScriptsAreParsed | apps/platform/src/recon/capture/driver.py:564-572 | the scripts taken in are the parsed ones, all of them short of the cap |
| CaptureOutcomes.AttachSends | apps/platform/src/recon/capture/driver.py:534-562 | how many commands an attach sends, by type and state, and which of them is the navigation |
| CaptureOutcomes.FirstPageIsNavigated | apps/platform/src/recon/capture/driver.py:553-559 | the first page to attach is navigated and no other |
| CaptureOutcomes.BlockedIff | apps/platform/src/recon/capture/driver.py:670-678 | a navigation error is recorded exactly when the initial navigation's reply says so |
| CaptureOutcomes.LastEventMoves | apps/platform/src/recon/capture/driver.py:500-613 | the quiet window starts again with a new target, a new script or a newly stored source, and with nothing else |
| CaptureOutcomes.SettlesIff | apps/platform/src/recon/capture/driver.py:485-495 | the capture settles exactly when a page was attached, a script parsed, none is waited for, and both times are over |
| CaptureContext.Context.Route | apps/platform/src/recon/capture/driver.py:497-532 | each message moves the state by its event and delivers the reply id only of a command |
| CaptureContext.Context.PumpMessages | apps/platform/src/recon/capture/driver.py:455-483 | the pump plays a prefix of the message sequence through the state machine; it answers at the first message that delivers the wanted reply and at no other; it ends without an answer exactly at the first point where the deadline has passed, the navigation failed or the capture has settled, or at the end of messages |
| Utf8.RoundTrip | apps/platform/src/recon/api/capture_router.py:644-655 | decoding undoes encoding for every sequence of scalar values |
| Utf8.OnlyScalars | apps/platform/src/recon/api/capture_router.py:655-655 | whatever the bytes, ignoring errors yields scalar values only: no surrogate, nothing overlong, nothing too large |
| Utf8.TruncateKeepsLongestPrefix | apps/platform/src/recon/api/capture_router.py:652-655 | encode, cut, decode keeps exactly the longest prefix that fits, and its bytes are a prefix of the original's |
| CaptureIngest.CappedBodyFits | apps/platform/src/recon/api/capture_router.py:644-655 | a kept body fits the cap, is the longest prefix that does, and capping again changes nothing |
| CaptureIngest.CappedBodyCases | apps/platform/src/recon/api/capture_router.py:644-651 | exactly what is not text or empty has no body, and exactly the text with a code point that is no scalar value cannot be encoded |
| CaptureIngest.StoredBytesArePrefix | apps/platform/src/recon/capture/driver.py:595-599 | stored script bytes fit the cap, are a prefix of the script's and encode its longest fitting prefix |
| CaptureIngest.NormalizeObservations | apps/platform/src/recon/api/capture_router.py:658-700 | the result is the first usable sighting of each verb and URL, in order, up to the cap, with capped bodies; the call raises exactly when an item with fewer first sightings than the cap before it, or none, has a verb and an unparsable URL, or is a first sighting with a body that cannot be encoded |
| CaptureIngest.KeysTellApart | apps/platform/src/recon/api/capture_router.py:685-688 | for verbs without blanks, two sightings are the same exactly when verb and URL are |
| CaptureIngest.LoneSurrogateRaises | apps/platform/src/recon/api/capture_router.py:644-655 | one item with one lone surrogate, which makes the call raise |
| CaptureIngest.RefusedUrlRaises | apps/platform/src/recon/api/capture_router.py:682-682 | one item with an unparsable URL makes the call raise, unless the cap is full before it |
| SealProtocol.EveryInterleavingIsSealed | apps/platform/src/recon/api/capture_router.py:316-776 | over all interleavings: one open run per session, marker null exactly when the job exists, never two jobs, every "started" names a run with its job, at most one reply created it |
| SealProtocol.TransactionOk | apps/platform/src/recon/api/capture_router.py:759-770 | each transaction keeps the database invariant and undoes nothing, and a reply that creates a job does so on an open capture run |
| SealProtocol.SealedKept | apps/platform/src/recon/db/models.py:177-190 | every event of any client keeps the invariant |
| SealProtocol.SaveFailsOnlyAfterSeal | apps/platform/src/recon/api/capture_router.py:337-351 | a save that loses the create race and then finds nothing lost to a run sealed in between |
| SealProtocol.LostInsertGoesOn | apps/platform/src/recon/api/capture_router.py:337-351 | a save that loses the insert goes on with the run it lost to unless that has been sealed, and fails exactly when there is no open run when it looks again |
| SealProtocol.LandsOnOpenRunIff | apps/platform/src/recon/api/capture_router.py:316-435 | a save that found or opened a run adds its batch to that run whatever happens in between, and the run is still open exactly when no analyze has sealed it since |
| SealProtocol.BatchLandsAfterSeal | apps/platform/src/recon/api/capture_router.py:405-425 | a run of two saves and an analyze whose second batch lands on the sealed run, behind its job |
| SealProtocol.OtherRoutesRun | apps/platform/src/recon/db/models.py:177-190 | a run made by another route gets one job when asked, and files only after it |
| SealProtocol.CaptureDatabase.OpenRun | apps/platform/src/recon/api/capture_router.py:316-323 | the run holding the marker, if any |
| SealProtocol.CaptureDatabase.CreateOpenRun | apps/platform/src/recon/api/capture_router.py:337-346 | an insert succeeds exactly when the unique index has room |
| SealProtocol.CaptureDatabase.SealRun | apps/platform/src/recon/api/capture_router.py:759-770 | the guarded update elects one winner and inserts its job in the same transaction |
| SealProtocol.CaptureDatabase.AccumulatingRunId | apps/platform/src/recon/api/capture_router.py:326-351 | finds the open run of the session or opens exactly one |
| SealProtocol.CaptureDatabase.AnalyzeStart | apps/platform/src/recon/api/capture_router.py:704-776 | starts exactly when the newest run has files, seals it once, and asking again starts nothing new |
| Base64Url.EncodedIsData | apps/platform/src/recon/auth/token.py:42-43 | what is written holds only data characters: no dot, no padding |
| Base64Url.DecodeUndoesEncode | apps/platform/src/recon/auth/token.py:42-48 | decoding undoes encoding for every byte string (section 5 of RFC 4648) |
| Base64Url.BrowserReadsTheSame | apps/capture/chrome-extension/modules/token-validity.js:12-15 | the extension's decoder reads the same bytes back |
| Base64Url.PadFormulasAgree | apps/capture/chrome-extension/modules/token-validity.js:12-15 | the two padding formulas agree for every length |
| AuthToken.VerifyUndoesMint | apps/platform/src/recon/auth/token.py:56-119 | a minted token verifies to its claims exactly while now is before its expiry, for every non-empty key |
| AuthToken.ForeignKeyIff | apps/platform/src/recon/auth/token.py:51-119 | a token minted under one key verifies under another exactly when the two keyed digests of its payload part are equal and it has not expired |
| AuthToken.TruncatedTowardsZero | apps/platform/src/recon/auth/token.py:72-72 | the expiry drops the fraction of a second |
| AuthToken.VerifyIff | apps/platform/src/recon/auth/token.py:81-119 | verification accepts exactly the tokens of two parts, rightly signed, whose payload is an unexpired login of the claims returned |
| AuthToken.ComparesOnlyAscii | apps/platform/src/recon/auth/token.py:88-97 | no token gets to the signature comparison, which would raise on it, with a part that is not ASCII |
| AuthToken.OneTokenPerPayload | apps/platform/src/recon/auth/token.py:94-99 | two accepted tokens with one payload are one token |
| AuthToken.ClientReadsExpiry | apps/capture/chrome-extension/modules/token-validity.js:17-28 | the extension reads the minted expiry |
| AuthToken.UnknownIsSignedIn | apps/capture/chrome-extension/modules/token-validity.js:17-38 | only an expiry that can be read, on a trusted clock, signs out; any other token that is held is left to the server |
| AuthToken.GateFlipsSixtySecondsEarly | apps/capture/chrome-extension/modules/token-validity.js:30-38 | the sign-in gate flips exactly when the server would refuse the token sixty seconds later, so never after the server does |
| RateLimit.AloneIsCheck | apps/platform/src/recon/fetch/politeness.py:40-57 | a worker on its own does what one call of the check does, host gate before budget |
| RateLimit.HostSlotIsTaken | apps/platform/src/recon/fetch/politeness.py:60-70 | whoever finds the slot free goes at once and holds it for the whole milliseconds of the interval, and no other host is affected |
| RateLimit.HostWaitEndsAtExpiry | apps/platform/src/recon/fetch/politeness.py:71-73 | whoever finds it held is told to wait exactly until it expires |
| RateLimit.BudgetGateCounts | apps/platform/src/recon/fetch/politeness.py:76-89 | each check counts one call of its second; calls within the budget go at once, the others are told to wait for the end of the second |
| RateLimit.GatesSwitchedOff | apps/platform/src/recon/fetch/politeness.py:60-79 | a gate that is off lets everyone through and keeps no record; an interval below a millisecond raises |
| RateSpacing.PassesAreSpaced | apps/platform/src/recon/fetch/politeness.py:60-73 | in any interleaving in which no loser reads its remaining time in the expiry millisecond, any two passes of the host gate for one host are more than the configured interval apart |
| RateSpacing.ZeroReadUnspaces | apps/platform/src/recon/fetch/politeness.py:68-73 | after one such reading, from any state, a continuation has two passes for the host at the same instant |
| RateSpacing.ZeroTtlLetsTwoThrough | apps/platform/src/recon/fetch/politeness.py:68-73 | two grants for one host with no gap at all |
| RateSpacing.EveryGrantItsOwnPass | apps/platform/src/recon/fetch/politeness.py:53-57 | no two calls are let go on one pass of the host gate |
| RateSpacing.GrantsAreSpaced | apps/platform/src/recon/fetch/politeness.py:40-73 | the instants at which two calls for one host are let go are apart by the interval in whole milliseconds and one more, less the time the first spent between the gates |
| RateSpacing.IntervalKeptIff | apps/platform/src/recon/fetch/politeness.py:40-73 | without such a reading, the interval holds between those instants in every run exactly when calls spend no millisecond between the gates, or at most one for an interval of whole milliseconds |
| RateSpacing.SlowThenQuickTooClose | apps/platform/src/recon/fetch/politeness.py:40-73 | a slow call and a quick one, let go too close together by all the slow one dwelt |
| RateBudget.BudgetKeptIff | apps/platform/src/recon/fetch/politeness.py:76-89 | no wall second sees more grants than the budget in every run exactly when increments do not lag behind the clock readings, for every interval that lets anyone through |
| RateBudget.SameSecondKeepsBudget | apps/platform/src/recon/fetch/politeness.py:76-86 | nor in any run in which each increment falls in the second its worker read |
| RateBudget.BudgetBound | apps/platform/src/recon/fetch/politeness.py:76-86 | with increments that lag, a second sees at most the budget for each second that may have been read, or twice that from 1002 ms on |
| RateBudget.CounterOutlivesItsCalls | apps/platform/src/recon/fetch/politeness.py:80-84 | calls that read one second are granted no more than the budget while increments lag at most 1001 ms: the counter never expires under one |
| RateBudget.LateIncrementOverruns | apps/platform/src/recon/fetch/politeness.py:80-86 | one millisecond more, and they can be |
| RateBudget.BoundAttained | apps/platform/src/recon/fetch/politeness.py:76-86 | for every lag from 1 to 1000 ms a second can see as many grants as that bound, twice the budget |
| RateLimit.Limiter.CheckHostInterval | apps/platform/src/recon/fetch/politeness.py:60-73 | the host gate's reply and the slot it takes |
| RateLimit.Limiter.CheckGlobalBudget | apps/platform/src/recon/fetch/politeness.py:76-89 | the budget gate's reply and the counter it leaves |
| RateLimit.Limiter.CheckHost | apps/platform/src/recon/fetch/politeness.py:40-57 | both in order; a throttled host leaves the counters alone |
| HostScope.UnderIffLabels | apps/platform/src/recon/fetch/egress.py:220-220 | equal to an entry or ending in a dot and the entry means: the entry's labels end the host's |
| HostScope.InScopeIffLabels | apps/platform/src/recon/fetch/egress.py:206-220 | a host is in scope exactly when its labels end in those of a valid entry |
| HostScope.ScopeIs | apps/platform/src/recon/fetch/egress.py:93-220 | the whole rule, said of labels: which entries are admitted and which hosts they cover |
| HostScope.NormalizeLosesOnly | apps/platform/src/recon/fetch/egress.py:89-91 | normalising takes off blanks at the ends and then dots at the end, lowers letters, and loses nothing else |
| HostScope.NeverInScope | apps/platform/src/recon/fetch/egress.py:93-123 | whatever the list holds, no host with an all-digit last label, and without the local switch no single-label host, is in scope |
| HostScope.KeptEntry | apps/platform/src/recon/fetch/egress.py:137-153 | a kept entry is valid, and in normal form exactly when no blank follows the removed wildcard and none ends the text once its dots are removed |
| HostScope.WildcardLeavesBlank | apps/platform/src/recon/fetch/egress.py:148-153 | an entry kept with a leading blank |
| HostScope.HookMatchPatterns | apps/capture/chrome-extension/modules/hook-matches.js:38-51 | the loop builds the patterns of the stored hosts in order |
| HostScope.HookedIff | apps/capture/chrome-extension/modules/hook-matches.js:14-51 | for lower-case hosts of pattern labels the hook runs exactly where capture does, except strictly below an IPv4 entry |
| HostScope.HostInScopeIffLabels | apps/capture/chrome-extension/modules/hook-matches.js:24-29 | the extension's rule is label-wise too |
| HostScope.CaptureScopeIs | apps/capture/chrome-extension/modules/hook-matches.js:14-29 | the extension's whole rule: a stored entry covers the host, or without a scope list everything if that was asked for |
| HostScope.StoredLosesOnly | apps/capture/chrome-extension/modules/hook-matches.js:20-20 | a stored entry has lost only the blanks at its ends, and is in lower case |
| HostScope.PatternHostIs | apps/capture/chrome-extension/modules/hook-matches.js:31-36 | pattern hosts and IPv4 addresses, label by label |
| HostScope.NoScopeNoCapture | apps/capture/chrome-extension/modules/hook-matches.js:14-22 | without a usable scope list nothing is in scope unless everything was asked for |
| BaseUrl.Match | apps/platform/src/recon/findings/base_url.py:76-96 | the two loops return the first selecting rule, else the deepest matching prefix rule |
| BaseUrl.ChosenIsBest | apps/platform/src/recon/findings/base_url.py:76-96 | a selection beats every prefix, the most segments win, and nothing is chosen only when nothing applies |
| BaseUrl.FirstSelectionWins | apps/platform/src/recon/findings/base_url.py:76-83 | among selection rules the first one wins |
| BaseUrl.MatchesIff | apps/platform/src/recon/findings/base_url.py:60-62 | a prefix rule applies exactly when its segments begin the path's |
| BaseUrl.PrefixOrderIrrelevant | apps/platform/src/recon/findings/base_url.py:84-96 | the winning prefix's segments do not depend on rule order or repetition |
| BaseUrl.TiesGoToTheFirst | apps/platform/src/recon/findings/base_url.py:84-96 | order matters exactly when two prefixes are the same segments |
| BaseUrl.OnlyEverPrepends | apps/platform/src/recon/findings/base_url.py:99-121 | the original path ends the result; its segments are unchanged or behind the whole base; the result lies under the base |
| BaseUrl.ResolvedSays | apps/platform/src/recon/findings/base_url.py:99-121 | the host and scheme are the base's own or nothing, and the result is marked as changed exactly when it says something new |
| BaseUrl.BasePathIs | apps/platform/src/recon/findings/base_url.py:65-73 | the base is the parsed path of a base with a host, else the base as written, without slashes at its end |
| BaseUrl.SameRuleTwice | apps/platform/src/recon/findings/base_url.py:116-119 | applying the chosen rule again changes nothing |
| BaseUrl.IndependentRulesTwice | apps/platform/src/recon/findings/base_url.py:99-121 | resolving again changes nothing when, for any two prefix rules, the base of one is empty, lies under the other's base or cannot match the other's prefix |
| BaseUrl.OneRuleTwice | apps/platform/src/recon/findings/base_url.py:99-121 | nor does it with one rule, whatever it is |
| BaseUrl.RulesCanChain | apps/platform/src/recon/findings/base_url.py:99-121 | two rules that chain stack both bases, whatever their names |
| BaseUrl.JoinKeepsSegments | apps/platform/src/recon/findings/_base_env.py:278-284 | a relative path keeps its segments behind the base's with one slash between; an absolute one is left alone |
| BaseUrl.AbsoluteIff | apps/platform/src/recon/findings/_base_env.py:275-283 | a path is absolute exactly when it begins with two slashes or a scheme (section 3.1 of RFC 3986) |
| Text.JoinSplit | apps/platform/src/recon/fetch/egress.py:115-116 | joining undoes splitting, and no piece holds the separator |
| Text.SplitJoin | apps/platform/src/recon/auth/token.py:94-97 | splitting undoes joining pieces without the separator |
| Text.SegmentsAround | apps/platform/src/recon/findings/base_url.py:56-57 | a rooted path put behind a base has the base's segments and then its own |
| Text.SegmentsOfJoined | apps/platform/src/recon/findings/base_url.py:56-57 | the segments of pieces put together with slashes are those pieces, with or without a slash first or last |

## Left out

- Timers, alarms and liveness: the models say what may happen and what then holds, not that it happens soon; `isFlushing` and timer re-arming only decide when a step is taken.
- Hoisting of `var`: reading a name before its declarator has run finds only what was supplied from outside, as it is for `let` and `const`; writes from outside the file to a name that it declares are not modelled.
- JavaScript escape decoding, cross-module and webpack constants, dotted object keys and member expressions, receivers, wrappers and client instances in the folder.
- The upload statistics kept across a respawn, and captures already taken off the processing queue when a session is rotated (the gap noted at apps/capture/chrome-extension/modules/capture-session.js:62-64).
- ConstFold.ChainOfAnyLengthResolves: does not model the interpreter's recursion limit; a chain looked up from its far end nests two calls a binding, and a long enough one raises instead of resolving.
- UploadGate.GateSeesEverything: speaks of what has been put into the outbox; a capture still in the processing queue, or one whose put never completed before its worker died, is not part of it.
- UploadProtocol.ForgetNext: the first delete after a reply is an event of its own, so the model allows interleavings that the code does not; the failing runs await every delete before the next, as the code does.
- BatchUploaderObject.BatchUploader.SetAuthToken: does not model the reset of the paired verdict, which only the popup reads.
- SessionProtocol.SessionStep: a new session id is taken to be one never used before and without a colon, as a UUID is; a worker that dies after saving the id and before the rest of the rotation is a respawn followed by the rotation. Which file of a URL was captured last, and the limits on captures, are left out.
- Regular expressions over whole bodies; source-map recovery, heartbeats, host slots and the fingerprint signal inside the crawl; the enumerators' own cap on specifiers.
- ModuleCrawl.EnumerateWebpack: a failure outside the fetch (parsing, listing rows, storing a blob) is not modelled, only a specifier that cannot be joined.
- Response headers, cookies and source-map URLs in the pump, and script sources holding a lone surrogate, which would raise when encoded.
- Session deletion during analyze/start and the jobs of later stages; what `create_run`, `seed_captured` and the coordinator do beyond the one atomic operation used.
- RateLimit.Incr: the expiry is set with the increment that creates the counter; a worker dying between the two leaves a counter that never expires, which only throttles more.
- Python's `int()` is modelled on reals, and whole numbers above 2^53, which the extension would round, are not.
- HostScope.Normalize: blanks and letter case are those of ASCII, here and in `HostScope.Stored`; the label expression's final line feed is kept.
- IP classification, DNS pinning and redirects; wall-clock lease budgets.
- HostScope.PatternMatches: what a browser takes a pattern to match is written down from its documentation, by host only.
- BaseUrl: `validate_base_url` and the service layer that stores rules.
