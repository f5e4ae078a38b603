# A verified model of the evaluation runner

The runner under `evals/runner` drives an agent through scenario conversations,
schedules those conversations as a crash-resumable campaign, grades what the agent
did, and decides which routes (model and effort) survive. This project models that
core in Dafny and proves what it keeps over every input, every run and every
reachable state.

* **Protocol.** `Framing` cuts a byte stream into frames under budgets, `Session`
  waits for responses while other messages queue and refuses server requests,
  `TurnCollector` checks one turn message by message. `TurnTrace` says what a clean
  trace is without any collector state and proves that the collector accepts exactly
  the clean traces; `TurnRoutes`, `TurnContents` and `TurnTables` read route history,
  records, violations and open items off the messages alone and prove that the
  transcript says the same; `TurnVerdict` puts it together. `TurnLedger` and `Conversation` prove what every
  collected turn keeps, and what follows for pinned routes and captured evidence.
* **Campaign.** `Campaign` is a step machine over one disk: stage an attempt, rename
  it, run the child, publish, persist, crash anywhere, resume. `CampaignTimes`,
  `CampaignRecords`, `Inspection`, `CampaignRunner`, `CampaignResume`, `CampaignLimit`
  and `AttemptIds` connect it with the imperative runner, with resuming, and with the
  inspector that later reads the disk; `AcceptedHistories` says what the inspector's
  acceptance is worth on any disk. `Plan` is the interleaved plan, `ProcessTracker` the
  process-tree tracker.
* **Decisions.** `Qualitative` and `RouteDecisions` say which routes survive and what
  that means about the votes; `Finalization` is the publish-then-bind protocol.
* **Grading.** `PathSelection`, `Json` and `Assertions` hold the two independent
  evaluators, `PathMeaning` what a path selects and when selecting raises;
  `ClaimCoverage`, `ClaimGrading`, `ClaimBudget` and `CanonicalSize` the location
  tracking, the verdict over a conversation and the bounded traversals; `PrivatePaths`
  the span scan, merge and redaction; `Commands` and `Requirements` the command
  matching.

Digests are injective identifiers, so a digest is modelled as the value it names;
files are values on a disk whose single steps are atomic; times are integers. Code
that updates state in place is a class or a method with loops, proved against a
function; pure code is functions and lemmas.

Four promises turn out not to hold on all inputs. Each is kept as the code has it,
with a failing input and the exact condition under which it holds:

* the canonical size counter is exact if and only if no string holds U+007F
  (`CanonicalSize.CounterIsExact`, `CanonicalSize.DeleteIsMiscounted`);
* every history the runner leaves can be resumed and is accepted by the inspector if
  and only if no attempt directory and no staging directory is numbered above 999999
  (`Inspection.RunnerHistoriesAreAccepted`, `CampaignResume.EveryHistoryResumes`); it
  fails when the millionth attempt of an item is committed
  (`CampaignLimit.MillionthAttemptIsRefused`), and already when a crash leaves that
  attempt's staging directory behind (`CampaignLimit.StagedMillionthIsStuck`);
* every character of a private path is redacted if and only if no path that begins
  inside a reported one hangs over its end (`PrivatePaths.ExposedIsCoveredExactly`,
  `PrivatePaths.OverhangIsKept`); what is redacted is known exactly in any case;
* the command disclosed for a requirement satisfies it if and only if the requirement
  is disclosable, names a command and declares its options well
  (`Requirements.DisclosedSatisfiesExactly`, `Requirements.EmptyInlineIsNotDisclosable`).

## Model

| member | source | states |
|---|---|---|
| `TurnCollector.CollectTurn` | evals/runner/codex_driver.py:1401-1825 | The collecting loop returns, raises or runs out exactly as the transition function says for the messages consumed |
| `TurnCollector.Consume` | evals/runner/codex_driver.py:1428-1535 | One iteration over an in-place item table is one transition, for malformed, denied, resolved, raw and notification messages alike |
| `TurnCollector.Dispatch` | evals/runner/codex_driver.py:1534-1825 | Every notification method, valid or not, moves table, transcript and activity flag as the transition says |
| `TurnCollector.ObserveSettings` | evals/runner/codex_driver.py:1634-1660 | A settings update becomes the effective and last observed route, and pre-activity only before activity, whatever the item table |
| `TurnCollector.ObserveReroute` | evals/runner/codex_driver.py:1661-1677 | A reroute must start from the effective model, or it raises; the model it leads to becomes the effective and last observed one (`TurnRoutes.RouteIsRead`) |
| `TurnCollector.TurnCollectionState.constructor` | evals/runner/codex_driver.py:164-172 | A fresh table holds nothing |
| `TurnCollector.TurnCollectionState.StartItem` | evals/runner/codex_driver.py:180-208 | An item starts exactly when in scope, shaped right and never seen; otherwise nothing changes |
| `TurnCollector.TurnCollectionState.CompleteItem` | evals/runner/codex_driver.py:210-242 | A completion closes exactly a matching open item, or raises on an unhashable lookup, or changes nothing |
| `TurnCollector.TurnCollectionState.AppendCommandOutputDelta` | evals/runner/codex_driver.py:244-266 | A delta lands only on an open command, within the event and byte limits |
| `TurnVerdict.CollectJudgedTurn` | evals/runner/codex_driver.py:1401-1825 | For every message sequence on which collecting returns: no violation is recorded iff the consumed trace is clean; accepted starts = accepted completions + items reported incomplete; events stand at wire positions; the route history is what the messages name, in wire order; every recorded command and message is what its completion and the streamed output say; status and error are the closing message's |
| `TurnVerdict.RaisesExactly` | evals/runner/codex_driver.py:1428-1825 | Collecting raises exactly on an error notice, an unhashable method, invalid settings in scope, a reroute in scope that leaves another model or names none, an unhashable item id, status or denied item, and output past its limits |
| `TurnTrace.CollectorAcceptsExactlyCleanTraces` | evals/runner/codex_driver.py:1401-1825 | The same verdict, of the transition function: violations are empty iff the declarative trace predicate holds |
| `TurnTrace.PrefixAgrees` | evals/runner/codex_driver.py:1401-1825 | While the collector runs, no violation so far iff the prefix is clean, and then its tables say what the prefix says |
| `TurnTrace.StepAgrees` | evals/runner/codex_driver.py:1428-1825 | A message adds no violation iff it is in order after the history |
| `TurnTrace.StepTracks` | evals/runner/codex_driver.py:164-266 | A clean message keeps the open and completed tables equal to what the history says |
| `TurnTrace.DoneAgrees` | evals/runner/codex_driver.py:1678-1719 | `turn/completed` adds no violation iff nothing is left open |
| `TurnLedger.ItemsAreConserved` | evals/runner/codex_driver.py:1555-1719 | Accepted starts equal accepted completions plus `incomplete` violations in every collected turn |
| `TurnLedger.SequencesAreWirePositions` | evals/runner/codex_driver.py:1594-1626 | One event per consumed message, saying what that message was and named; completion sequence numbers are the wire positions of their completions |
| `TurnLedger.EffectiveIsLastObserved` | evals/runner/codex_driver.py:1410-1427 | Effective model and effort are the last observed ones; the pre-activity history is a prefix |
| `TurnRoutes.RouteIsRead` | evals/runner/codex_driver.py:1634-1677 | In every collected turn the observed models are the starting one and then, in wire order, the model of every valid settings update in scope and the `toModel` of every reroute in scope; likewise efforts; the pre-activity histories are the same over the messages before the first accepted item; the confirmed settings are those named last |
| `TurnRoutes.QuietMeans` | evals/runner/codex_driver.py:1555-1592 | Activity begins at the first well-formed item start of an opened turn |
| `TurnContents.TranscriptHolds` | evals/runner/codex_driver.py:1593-1719 | Each recorded command carries the exit code, status and command of the completion at its wire position, and as output the aggregated text or, without one, exactly the deltas accepted for its item, concatenated; each message carries its text; violations are what each message is blamed for, in wire order, then the items left open |
| `TurnTables.RunSays` | evals/runner/codex_driver.py:164-266 | Clean or not, while the collector runs: an item is open iff its last accepted start or completion was a start, under the type that start gave; the events and bytes counted are those of the output accepted |
| `TurnTables.TablesAreRight` | evals/runner/codex_driver.py:1678-1719 | In every collected turn the items reported incomplete are exactly those started and never completed, ordered by id and with their types, and the output streamed stays within 4096 events and 16 MiB |
| `TurnLedger.RunKeeps` | evals/runner/codex_driver.py:1401-1825 | Wire positions, item balance and route invariant hold at every point of every run |
| `TurnLedger.PositionsExact` | evals/runner/codex_driver.py:1594-1626 | The recorded positions are exactly the satisfying events, in increasing order |
| `Conversation.Converse` | evals/runner/codex_driver.py:800-881 | Each turn starts from the route carried over from the previous one and is a collected turn of its own messages; it fails iff some turn raises or runs out |
| `TurnRoutes.TurnsStartFromNamedLast` | evals/runner/codex_driver.py:800-881 | Every turn starts from the settings named last on the wire of the turns before it, reroutes aside, and from the thread's own route while none were |
| `Conversation.ConfirmedRouteIsEffective` | evals/runner/__main__.py:2226-2255 | A confirmed pinned route: in every turn, from the first accepted item on, effective model and effort are the requested ones |
| `TurnRoutes.RouteConfirmedExactly` | evals/runner/__main__.py:2226-2255 | A pinned route is confirmed iff in every turn the messages name it, or the turn starts from it, before any activity, and no message of the turn ever names another |
| `TurnRoutes.ConfirmedMeansNoOtherReroute` | evals/runner/__main__.py:2226-2255 | A confirmed route has met no reroute to another model |
| `Conversation.CaptureRequiredDocument` | evals/runner/__main__.py:1946-2034 | Captures only from the single qualifying command of the conversation; counts, states and error cases exact |
| `Conversation.QualifyingMembers` | evals/runner/__main__.py:1961-1991 | The candidates are exactly the results that completed with exit code zero and satisfy requirement and policy; something matched iff a result ran the required command |
| `Conversation.EvidencePrecedesAnswer` | evals/runner/__main__.py:1899-1921 | A turn is graded against the captured document iff its command completed in an earlier turn, or on the wire strictly before the same turn's last agent message |
| `Framing.ReadFollowsStream` | evals/runner/codex_driver.py:2094-2152 | However the stream is split into reads, a read gives the first line of the unread stream iff it is within the frame limit and ending it within both budgets, closes iff no line is complete, else hits the limit; the rest of the stream is left |
| `Framing.SplitDoesNotMatter` | evals/runner/codex_driver.py:2094-2161 | Over any script of reads and turn starts, frames and terminal failure do not depend on the split |
| `Framing.FrameReader.NextLine` | evals/runner/codex_driver.py:2094-2152 | The buffer loop is that read; bytes received = bytes charged + bytes buffered, turn charge <= conversation charge <= cap |
| `Framing.FrameReader.ChargeInput` | evals/runner/codex_driver.py:2154-2168 | Charges both budgets or drops everything buffered |
| `Framing.FrameReader.StartTurn` | evals/runner/codex_driver.py:1893-1894 | Only the turn charge is reset |
| `Session.Channel.Request` | evals/runner/codex_driver.py:1899-1913 | Succeeds iff the first response on the wire carries its id and a result, no frame before it raises on arrival (hook activity, a method that cannot be hashed) and the queue has room; consumes exactly that response and queues everything before it in order |
| `Session.Channel.ReadMessage` | evals/runner/codex_driver.py:1915-1920 | Oldest queued message first, else what the next frame is handed on as, failing iff the wire has ended or the frame raises; delivered messages followed by the queue hand on every consumed frame that answers no request, once and in wire order |
| `Session.Channel.AssertQuiescent` | evals/runner/codex_driver.py:1922-1958 | Passes iff everything queued and observable is a harmless global notification, within the limit and with no unfinished frame; drains exactly that |
| `Session.Channel.Incoming` | evals/runner/codex_driver.py:1960-2038 | A frame is handed on as what it says: a notice unchanged; a server request with its own kind, thread and turn, its call id only if about a call, else its item id, in order iff its id is usable and no earlier frame requested it; a resolution in order iff it is the first of an earlier request; each server request gets its reply on the spot |
| `Session.HandedOnIsPrepared` | evals/runner/codex_driver.py:1960-2038 | Exactly one message satisfies that description, unless the frame raises |
| `Session.LedgerMeans` | evals/runner/codex_driver.py:2003-2038 | The ledger holds exactly the ids requested on the wire, marked exactly when resolved after their request |
| `Session.UnansweringRelays` | evals/runner/codex_driver.py:1899-1920 | Whatever was consumed, every frame that answers no request is handed on once, in wire order |
| `Session.ResolvedAtMostOnce` | evals/runner/codex_driver.py:2021-2038 | A server-request id is validly resolved at most once |
| `Session.ResolvedAfterDenial` | evals/runner/codex_driver.py:2021-2038 | And only after its own refusal |
| `Session.DeniedAtMostOnce` | evals/runner/codex_driver.py:1971-2019 | Reusing an id is out of order |
| `Session.OneReplyEach` | evals/runner/codex_driver.py:1971-1998 | Every server request gets exactly one reply, in wire order, to its own id: a declining result for a known method, else the error its method is due |
| `AttemptIds.IdsInjective` | evals/runner/matrix.py:2783-2784 | Attempt names identify attempt numbers |
| `AttemptIds.SixDigitsExactly` | evals/runner/matrix.py:2643-2656 | A name matches the six-digit pattern iff the number is at most 999999 |
| `AttemptIds.IdOrder` | evals/runner/inspection.py:553-558 | Up to 999999 names order as their numbers |
| `AttemptIds.IdOrderBreaks` | evals/runner/inspection.py:553-565 | At 1000000 they stop doing so |
| `Campaign.EveryRunIsSafe` | evals/runner/matrix.py:3005-3155 | Over every run of attempts, failures, crashes and resumes: completions are a positional prefix of the plan, attempts are numbered 1..n, no attempt has both result and failure, only items up to the next unaccounted one have attempts, the committed attempt is the highest-numbered |
| `Campaign.ApplyKeeps` | evals/runner/matrix.py:2766-3155 | Every single disk step keeps that |
| `Campaign.RunKeeps` | evals/runner/matrix.py:3005-3155 | And every run |
| `CampaignTimes.FairRunsAreOrdered` | evals/runner/matrix.py:3081-3136 | With an increasing clock and fresh child runs, attempts never overlap, items follow each other and no two results share a child run |
| `CampaignRecords.RecordsAreForGood` | evals/runner/matrix.py:3005-3155 | Over every run, starts, results, failures, child runs and completions that are on disk at some point are never lost or rewritten |
| `CampaignRecords.FailureIsRecorded` | evals/runner/matrix.py:3137-3154 | A child that fails leaves its attempt with the error and no result; nothing else on disk changes and the runner stops |
| `CampaignRecords.MismatchIsRecorded` | evals/runner/matrix.py:3108-3126 | So does a report about another item or under a child run some completion already has |
| `CampaignRecords.CommittedRunsDiffer` | evals/runner/matrix.py:3126-3136 | Over every run, whatever is reported, no two committed results are of one child run |
| `Inspection.RunnerHistoriesAreAccepted` | evals/runner/inspection.py:440-578 | Such a history passes the inspector iff no attempt directory and no staging directory is numbered above 999999; a completed matrix with no more attempts than that has no disqualifying orphan and is eligible iff nothing was unavailable |
| `Inspection.InspectMatrix` | evals/runner/inspection.py:359-591 | The inspector's loops accept exactly the declaratively valid histories and report eligibility |
| `AcceptedHistories.AcceptedMeans` | evals/runner/inspection.py:359-578 | On any disk, however it came about, acceptance means: completions in plan order and time order, an observed item started after every item before it was completed, each committed attempt on disk with its result and its child run inside it, attempts numbered without gaps up to 999999, and every other attempt with a child run of its own and, if it sorts before the committed one, over before that started |
| `AcceptedHistories.EligibleMeans` | evals/runner/inspection.py:553-591 | In an accepted, eligible history every item is observed and every attempt not committed is an earlier try that ended before the committed one started |
| `Inspection.InspectCompletions` | evals/runner/inspection.py:359-438 | Accepts iff every committed attempt is in order and in time, and tabulates them |
| `Inspection.InspectItem` | evals/runner/inspection.py:463-567 | Accepts iff every orphan of the item is in order, collecting the disqualifying ones |
| `Inspection.InspectOrphans` | evals/runner/inspection.py:454-567 | The same over all items, with no child run used twice |
| `CampaignRunner.MatrixDirectory.ExecuteMatrix` | evals/runner/matrix.py:3005-3155 | Executing a matrix runs exactly the step script that the environment (stamps, child outcomes, crash points) spells, so the disk stays in order and no committed completion is lost |
| `CampaignRunner.MatrixDirectory.ExecuteAll` | evals/runner/matrix.py:3019-3155 | The loop over the remaining plan is that script, an early stop included |
| `CampaignRunner.MatrixDirectory.ExecuteOne` | evals/runner/matrix.py:3081-3154 | One iteration is start, child and commit in this order; it goes on only with the checkpointed manifest |
| `CampaignRunner.MatrixDirectory.NextAttempt` | evals/runner/matrix.py:2766-2805 | Layout check, numbering and staging, then the rest of the start, step by step |
| `CampaignRunner.MatrixDirectory.FinishStart` | evals/runner/matrix.py:2785-2805 | Writing the start and the rename are separate steps; a crash between them leaves only staging behind |
| `CampaignRunner.MatrixDirectory.Commit` | evals/runner/matrix.py:3127-3136 | The result is published before the manifest that counts it |
| `CampaignRunner.RunGrows` | evals/runner/run_state.py:2564-2586 | Committed completions are never lost or rewritten |
| `CampaignRunner.RunAppend` | evals/runner/matrix.py:3005-3155 | Runs compose |
| `CampaignRunner.StoppedStays` | evals/runner/matrix.py:3137-3154 | A stopped runner changes nothing until it is opened again |
| `CampaignResume.EveryHistoryResumes` | evals/runner/matrix.py:2808-2901 | After any history of attempts, failures and crashes the campaign can be resumed iff no attempt directory and no staging directory is numbered above 999999 |
| `CampaignResume.EveryCampaignCanBeFinished` | evals/runner/matrix.py:3005-3155 | Progress: from any such history, as many undisturbed child reports as items are left complete the campaign iff no directory is numbered above 999999 and the next item is the last or has fewer attempts than that |
| `CampaignResume.OneMoreItem` | evals/runner/matrix.py:3081-3136 | One undisturbed report accounts for exactly one more item: its next attempt, started then, completes as reported and is on disk with that result; it blocks the rest iff it was the item's millionth attempt |
| `CampaignLimit.MillionthAttemptIsRefused` | evals/runner/matrix.py:2643-2656 | After 999999 interrupted tries the millionth completes the campaign and inspection refuses it |
| `CampaignLimit.StagedMillionthIsStuck` | evals/runner/matrix.py:70-73 | After 999999 interrupted tries a crash between staging and rename leaves no item with more attempts than that, yet inspection refuses the history and no later run changes anything |
| `Inspection.LayoutPasses` | evals/runner/matrix.py:2476-2506 | A reachable layout is valid iff no attempt directory and no staging directory is numbered above 999999 |
| `Plan.ResolvePlan` | evals/runner/matrix.py:1040-1095 | The nested loops give a plan iff its size is between 1 and 10000, and then the item at every ordinal is the one its mixed-radix digits call for |
| `Plan.AppendRoutes` | evals/runner/matrix.py:1072-1094 | One scenario block appends each route once, in rotated order |
| `Plan.DigitsOfIndex` | evals/runner/matrix.py:1040-1095 | Digits of an index of digits are those digits |
| `Plan.IndexOfDigits` | evals/runner/matrix.py:1040-1095 | And conversely |
| `Plan.OrdinalIsIndex` | evals/runner/matrix.py:1074-1092 | Ordinals are positions |
| `Plan.PlanCoversOnce` | evals/runner/matrix.py:1040-1095 | Every track, replicate, live scenario and route is planned at exactly one position |
| `Plan.PositionsAreBalanced` | evals/runner/matrix.py:1069-1094 | In every plan, for each track and scenario, the numbers of replicates whose block has two given routes at a position differ by at most one, and are an even share rounded down or up |
| `Plan.PlanSays` | evals/runner/matrix.py:1069-1094 | Item for item: at position p of the block of track t, replicate r and scenario s stands route (p + r) mod n of the n routes, with its ordinal, scenario, track and replicate number |
| `ProcessTracker.ChildProcessTracker.constructor` | evals/runner/matrix.py:1895-1913 | Starts with the root's tree and group |
| `ProcessTracker.ChildProcessTracker.Start` | evals/runner/matrix.py:1895-1913 | Tracks iff the root leads a process group that is not the runner's own |
| `ProcessTracker.ChildProcessTracker.Capture` | evals/runner/matrix.py:1928-1959 | Terminates on every table; its matching set is the least set with the surviving tracked processes, closed under parenthood, without recycled pids; what was tracked stays, and exactly the new processes of that set and of the open root group are added under the table's identity |
| `ProcessTracker.ChildProcessTracker.Sweep` | evals/runner/matrix.py:1928-1950 | The breadth-first loop computes that least set |
| `ProcessTracker.ChildProcessTracker.WaitForChildTree` | evals/runner/matrix.py:1988-2001 | Reports success exactly at the first observation with the root reaped and every tracked process gone, replaced or a zombie |
| `ProcessTracker.TreeIsUnique` | evals/runner/matrix.py:1928-1950 | The least set is unique |
| `ProcessTracker.TreeMembers` | evals/runner/matrix.py:1928-1950 | A process is in the tree iff it is in the table, is not tracked under another identity, and is tracked or a child of the tree |
| `ProcessTracker.IdentityNeverChanges` | evals/runner/matrix.py:1928-1959 | Over any sequence of tables a tracked pid keeps its identity |
| `ProcessTracker.RecycledStaysOut` | evals/runner/matrix.py:1938-1950 | A recycled pid never joins the tree |
| `ProcessTracker.SweepOnce` | evals/runner/matrix.py:1938-1950 | One round of the sweep keeps its invariant |
| `ProcessTracker.SweepDone` | evals/runner/matrix.py:1938-1950 | With nothing left to visit, the set is the tree |
| `Json.EqualityTestsAgree` | evals/runner/grade.py:510-557 | Grading's equality and the replayer's (matrix.py:1442-1460) agree on every pair of values |
| `Json.EqualMeansSame` | evals/runner/grade.py:510-557 | Two values, without repeated keys as the runner's parser has it, are equal iff they mean the same: numbers by value, arrays item by item, objects as maps, nothing across types |
| `PathMeaning.SelectPathNodes` | evals/runner/grade.py:579-629 | The loop with incremental caps raises iff some step does: at a selected value without the key, item or character, at one that cannot be iterated, or past the cap; else it gives exactly the locations the path leads to, each once, in increasing order, with what stands there: the n-th item of an array, character of a string or key of an object |
| `PathMeaning.SelectMeans` | evals/runner/grade.py:579-629 | The same of the step function, which both claim coverage and the replayer's agreement rest on |
| `PathSelection.ProjectNodes` | evals/runner/grade.py:595-628 | The projecting loops equal uncapped projection plus the cap |
| `PathSelection.ProjectOne` | evals/runner/grade.py:596-627 | The same for one value |
| `PathSelection.DescendNodes` | evals/runner/grade.py:593-610 | Keys and indices step every node or raise |
| `PathSelection.SelectionsAgree` | evals/runner/matrix.py:1461-1514 | On every document and path the two evaluators select the same values in the same order, and raise together, the 16384-node cap included |
| `Assertions.EvaluatesAsAsked` | evals/runner/grade.py:680-705 | An assertion raises iff path, expectation or selection is no good or its operator cannot be asked; else it decides as its operator asks of exactly what the path selects, in terms of what values mean |
| `Assertions.ReplayAgrees` | evals/runner/matrix.py:1517-1546 | On every document and retained assertion the replayer gives grading's truth value and raises exactly when grading does |
| `Assertions.GuardIsNeeded` | evals/runner/matrix.py:1517-1546 | Without the retention guard it would not |
| `Assertions.BundlesAgree` | evals/runner/matrix.py:1549-1570 | A retained bundle replays to grading's result, or raises when grading left an assertion unevaluated |
| `Assertions.PassedBundleReplays` | evals/runner/matrix.py:1549-1570 | A passed bundle replays to the identical passing result |
| `Assertions.GradeAssertions` | evals/runner/grade.py:708-748 | The grading loop counts and lists exactly the failed and unevaluated assertions |
| `ClaimCoverage.SelectionIsLocated` | evals/runner/grade.py:579-629 | Selected locations are pairwise distinct, as long as the path has steps, and resolve to the selected values |
| `ClaimCoverage.SingularSelectsOne` | evals/runner/grade.py:579-641 | A path without projections selects exactly one node |
| `ClaimCoverage.SupportedExactly` | evals/runner/grade.py:2085-2101 | A claim is supported iff its path can be selected and its value is what is selected: for a projection item by item in order, selecting nothing counting only where allowed, else the one value; it then speaks for exactly the selected locations |
| `ClaimCoverage.GradeClaims` | evals/runner/grade.py:2103-2142 | Failed claims are exactly the unsupported ones, in order; passes iff there is a claim and none fails; selects each claim path once |
| `ClaimCoverage.SupportedClaims` | evals/runner/grade.py:2177-2191 | Lists path and locations of exactly the supported claims, selecting each claim path once more |
| `ClaimCoverage.GradeFactCoverage` | evals/runner/grade.py:2160-2219 | Missing paths are exactly the uncovered required ones, in order; passes iff every claim is supported and every required path covered |
| `ClaimCoverage.CoverageIsSound` | evals/runner/grade.py:2085-2219 | Every location a covered path selects is matched by an element of some claim whose value is semantically equal to the document's there |
| `ClaimCoverage.CoveredExactly` | evals/runner/grade.py:2192-2219 | A required path is covered iff it can be selected and, if it selects nothing, a supported claim says so of that path, else each location it selects is spoken for by a supported claim that stays within the path |
| `ClaimBudget.BoundedJsonWeight` | evals/runner/__main__.py:1714-1732 | The worklist returns the recursive weight when within the limit, else nothing |
| `ClaimBudget.WeightExactly` | evals/runner/__main__.py:1714-1732 | What is weighed: every character of every string and key, and one for each value that is not a string |
| `ClaimBudget.StepLighter` | evals/runner/grade.py:586-629 | The summed weight of selected nodes never grows along a step |
| `ClaimBudget.ExpandedLighter` | evals/runner/grade.py:593-628 | Nor does that of the nodes a step appends before it raises or stops at the cap |
| `ClaimBudget.ExpandedIsSelected` | evals/runner/grade.py:593-628 | A step that does not raise appends exactly what it selects |
| `ClaimBudget.VisitsBounded` | evals/runner/grade.py:586-629 | So the nodes a path appends over all its steps, a raising one included, are at most steps times weight, empty strings aside |
| `ClaimBudget.ValidateClaimBudget` | evals/runner/__main__.py:1762-1791 | Accepts exactly the documents whose weight times steps fits the maximum |
| `ClaimBudget.AcceptedBudgetBoundsWork` | evals/runner/__main__.py:1762-1791 | An accepted budget bounds the appended nodes other than empty strings, over the four passes it charges per claim and one per evidence path, by 8 * 2^20 |
| `ClaimGrading.GradeClaimsByTurn` | evals/runner/__main__.py:1845-1943 | Refuses exactly what the budget refuses; else aggregate, failed turns in order and the verdict are exact, evidence availability computed from turns and sequences included; everything selected on the way appends at most 8 * 2^20 nodes other than empty strings |
| `ClaimGrading.GradeConversation` | evals/runner/__main__.py:2420-2473 | Capture and grading over collected turns: the turns that do not fail are exactly those that make claims after the document's command on the wire, every one of which holds of the document |
| `ClaimGrading.PassesOnEvidence` | evals/runner/__main__.py:1899-1920 | A turn passes iff the document's command completed in an earlier turn or strictly before its last agent message, and its claims hold |
| `ClaimGrading.GradeTurns` | evals/runner/__main__.py:1898-1922 | The loop over the turns lists exactly those whose claims fail against the document, or against null when it was captured too late |
| `ClaimGrading.AcceptedWorkIsBounded` | evals/runner/__main__.py:1767-1791 | Grading makes at most three passes over the claims and one over the required paths, which the budget covers |
| `ClaimGrading.TurnsSelectOnce` | evals/runner/__main__.py:1899-1920 | All turns together select no more than one pass over the claims |
| `ClaimBudget.EmptyStringsAreFree` | evals/runner/__main__.py:1714-1732 | Any number of empty strings weighs nothing |
| `CanonicalSize.BoundedCanonicalSize` | evals/runner/judge.py:385-445 | The stack of iterators returns the recursive size when within the limit, else nothing |
| `CanonicalSize.ChargeString` | evals/runner/judge.py:385-445 | A string is charged character by character, giving up past the limit |
| `CanonicalSize.CanonicalLength` | evals/runner/matrix.py:197-210 | The canonical text is that size plus five per U+007F |
| `CanonicalSize.EscapeIsShortest` | evals/runner/matrix.py:197-210 | The encoder spells each character as section 7 of RFC 8259 allows, and nothing in printable ASCII spells it shorter |
| `CanonicalSize.CounterIsExact` | evals/runner/judge.py:385-445 | The counter is exact iff no string or key holds U+007F |
| `CanonicalSize.DeleteIsMiscounted` | evals/runner/judge.py:385-445 | The smallest value it gets wrong |
| `PrivatePaths.LiteralSpans` | evals/runner/grade.py:380-414 | Gives up iff there are too many protected spans or the scan walks more than four times the text; otherwise reports exactly the leading paths, in order |
| `PrivatePaths.ExposedIsCoveredExactly` | evals/runner/grade.py:410-412 | The reported paths cover every unprotected complete path iff none that begins inside a reported one hangs over its end |
| `PrivatePaths.OverhangIsKept` | evals/runner/grade.py:217-241 | The text `/a"/b, c"` has such a path, whose last characters are kept |
| `PrivatePaths.SeparatorView` | evals/runner/grade.py:417-448 | Every decoded character stands for its source span, and the source spans tile the text |
| `PrivatePaths.EscapesExactly` | evals/runner/grade.py:427-446 | An escape is decoded exactly where one of the six ways to write an escaped separator stands |
| `PrivatePaths.MapBackCovers` | evals/runner/grade.py:465-479 | A mapped-back span covers exactly the sources of the characters it spans |
| `PrivatePaths.MergeSpans` | evals/runner/grade.py:481-487 | Sorted, in-bounds, non-touching spans with exactly the same union |
| `PrivatePaths.PrivateSpans` | evals/runner/grade.py:451-487 | The whole text iff a scan gave up, a span is everything, or there are too many spans or characters; otherwise the merged spans cover exactly the literal and mapped-back spans |
| `PrivatePaths.Redact` | evals/runner/grade.py:498-507 | Character by character: an uncovered character is kept, a token stands where a span begins, the rest of a span gives nothing |
| `PrivatePaths.RedactionKeepsTheRest` | evals/runner/grade.py:498-507 | That output is one stretch more than there are spans, joined by tokens, and the stretches together are exactly the uncovered characters, in order |
| `PrivatePaths.RedactPrivateHostPaths` | evals/runner/grade.py:451-507 | End to end: everything is redacted iff a limit is hit or one path is everything; otherwise exactly the characters of leading paths, literal or decoded, are, and the rest is kept in order; no character where an exposed path begins is kept |
| `Commands.RequiredArguments` | evals/runner/grade.py:1793-1815 | The index loop binds each option to its values in order and lists the positionals |
| `Commands.NormalizeActualArguments` | evals/runner/grade.py:1818-1860 | The reader of actual calls returns the bindings of the groups read, `--format` aside, or refuses |
| `Commands.PrintedGroupsReadBack` | evals/runner/grade.py:1818-1860 | Printing well-formed groups and reading them gives the groups back |
| `Commands.ReadGroupsPrintBack` | evals/runner/grade.py:1818-1860 | Whatever is read is well formed and prints to the very tokens |
| `Commands.ReaderIsExact` | evals/runner/grade.py:1818-1860 | The reader accepts exactly the printings of well-formed groups, uniquely |
| `Requirements.CliCommandTail` | evals/runner/grade.py:1596-1631 | Removes leading global options or refuses |
| `Requirements.CommandTailExactly` | evals/runner/grade.py:1596-1631 | A call has a command tail iff it is global options (a data directory, not empty when joined; the JSON format, once) followed by that tail, which begins with no option |
| `Requirements.TailKeepsRest` | evals/runner/grade.py:1596-1631 | Past the command word nothing is touched |
| `Requirements.AcceptedOptionalOptions` | evals/runner/grade.py:1724-1764 | Declared options are accepted iff few, well formed, distinct and not required; then exactly they are known, each with its one value |
| `Requirements.ArgumentsPresent` | evals/runner/grade.py:1767-1790 | True iff the tail prints well-formed groups that agree with the requirement |
| `Requirements.CommandSatisfiesRequirement` | evals/runner/grade.py:1689-1721 | True iff the call satisfies the requirement as declared |
| `Requirements.RequiredGroupsPrint` | evals/runner/grade.py:1793-1815 | Required groups print back to the required arguments |
| `Requirements.DisclosedReads` | evals/runner/__main__.py:393-408 | Disclosed arguments read as a call give the required groups back iff each is fine |
| `Requirements.DisclosedSatisfiesExactly` | evals/runner/__main__.py:393-408 | The disclosed command satisfies its requirement iff there is a command word, the declarations are in order, no `--format`, no empty inline value, and each option is used uniformly with or without a value |
| `Requirements.EmptyInlineIsNotDisclosable` | evals/runner/grade.py:1845-1848 | A required `--all=` fails whatever the command: it may not be spelled with an empty inline value |
| `Requirements.MoveKeepsFitting` | evals/runner/grade.py:1767-1790 | Swapping groups (same-option and positional order kept), respelling `--x v` and `--x=v`, or adding a declared option keeps a fitting call fitting |
| `Requirements.RewrittenCommandSatisfies` | evals/runner/__main__.py:393-408 | However a disclosed command is so rewritten, it satisfies its requirement |
| `Qualitative.RetainJudgments` | evals/runner/acceptance.py:746-782 | Accepts iff every judgment matches policy and rubric and none occurs twice |
| `Qualitative.LoadAdjudications` | evals/runner/acceptance.py:784-837 | Accepts iff every adjudication is in order and each item has one; loads their outcomes |
| `Qualitative.QualitativeOutcomes` | evals/runner/acceptance.py:746-857 | Accepts exactly the evidence in which moreover no judgment is left over |
| `Qualitative.VerdictIsUnanimous` | evals/runner/judge.py:1054-1067 | Under agreement a criterion of an item under the calibrated policy is adjudicated pass iff every configured judge has judged and voted pass, fail iff every one voted fail, and is unresolved otherwise |
| `Qualitative.AllJudgmentsCited` | evals/runner/acceptance.py:837-846 | Accepted evidence cites every judgment of an adjudicated target |
| `RouteDecisions.DecideRoutes` | evals/runner/acceptance.py:1217-1308 | One decision per route in route order: unavailable iff an item is; else rejected iff something speaks against an item; else unresolved iff something leaves one open; else survivor or qualified, iff every item is clean; the reasons are exactly those with a cause, in order |
| `RouteDecisions.DecideRoute` | evals/runner/acceptance.py:1230-1307 | The same for one route |
| `RouteDecisions.CleanGivesNoReason` | evals/runner/acceptance.py:1235-1288 | An item gives no reason iff it is observed, has no extra attempt, unsafe activity, false completion or failed layer, and passes every required criterion |
| `RouteDecisions.ReasonsExactly` | evals/runner/acceptance.py:1235-1288 | Each reason's cause, against the route: an orphan attempt not before the committed one, the unsafe and false-completion reasons, a false hard layer in discovery, all needed criteria adjudicated and one of them fail; open: no completion, a layer without value, a criterion not adjudicated, one unresolved while none fails |
| `RouteDecisions.OfRouteInOrder` | evals/runner/acceptance.py:1230-1231 | A route's items come in manifest order |
| `RouteDecisions.EvaluateRoutes` | evals/runner/acceptance.py:1311-1420 | Decides iff the campaign is no benchmark and its evidence is in order; under agreement a route survives or qualifies iff each of its items is observed and sound and every configured judge voted to pass every criterion it needs |
| `RouteDecisions.AdjudgedIsUnanimous` | evals/runner/acceptance.py:1264-1288 | What an item needs is adjudicated pass iff every configured judge judged it and voted pass |
| `Qualitative.NeededIsCalibrated` | evals/runner/judge.py:1044-1051 | Every item that needs a criterion is under the calibrated policy: qualifications always are, and the safety gates of a screen are hard-fail criteria |
| `Finalization.AcceptanceIsFrozen` | evals/runner/acceptance.py:370-430 | Over any interleaving of imports, checkpoints, finalize attempts and crashes: at most one document is published, evidence and manifest stay frozen from then on, and a binding names that very document |
| `Finalization.RunsKeep` | evals/runner/acceptance.py:370-430 | Every run keeps the directory sound and accounts for every publication |
| `Finalization.RetryCompletes` | evals/runner/acceptance.py:381-428 | After a crash, finalizing again binds the published document, whatever the clock says |
| `Finalization.FinalizesExactly` | evals/runner/acceptance.py:381-428 | Finalizing for the first time publishes and binds the decision on the evidence at hand iff the screen is completed, its evidence decides and the time is later than its end; a crash leaves nothing or an unbound document |
| `Finalization.LoadedExactlyWhenBound` | evals/runner/acceptance.py:335-356 | Loading succeeds iff the directory is bound, and gives the one published document |
| `Finalization.ScreenDirectory.constructor` | evals/runner/acceptance.py:370-372 | A directory without evidence or acceptance |
| `Finalization.ScreenDirectory.ImportJudgment` | evals/runner/judge.py:1102-1159 | Imports exactly when nothing was published or bound, the document is valid and its id new |
| `Finalization.ScreenDirectory.ImportAdjudication` | evals/runner/judge.py:1260-1278 | The same for adjudications |
| `Finalization.ScreenDirectory.FinalizeScreen` | evals/runner/acceptance.py:370-430 | Publish then bind, stopping at a crash; refused iff nothing was published and that condition fails; an accepted reply is the document that loading then gives |

## Left out

- Wall-clock timeouts and deadlines of the session and the write side of the pipe; how long the settling window lasts (`AssertQuiescent` takes the frames seen in it).
- Frames that are not JSON: they end the session, as the end of the stream does in the model.
- Crashes inside one atomic publication, which leave a temporary file behind; file modes, symlinks, locks and directory permissions.
- Hashing, canonical bytes of manifests and git inventory: digests are injective identifiers.
- Regular expressions and `shlex`: commands start as token lists, paths as parsed steps, messages as decoded values.
- `normalized_steam_agent_argv`, the command audit and the tool policy: wrappers, forbidden shell syntax and allowed calls.
- JSON numbers beyond integers and finite reals, and Python's limit on the digits of an integer.
- How a float is written: `CanonicalSize` takes it as a parameter.
- The grammar of private host paths and of protected spans: `PrivatePaths` takes a grammar that only promises that a form's end follows its root and its root its start, and that an empty text has no protected spans to speak of.
- How unsafe activity and a false completion are read off a report: `RouteDecisions` takes the reasons found.
- Routes are compared as one string rather than as a model and an effort.
- How a completed screen is evaluated inside `Finalization`: any function of manifest and evidence; `RouteDecisions` models that function separately.
- The fixed three judges and the agreement method of current manifests: `EvaluateRoutes` states unanimity for any judges under agreement.
- Corpus, configuration and freshness checks of qualification campaigns.
- Prose heuristics for judgments and refusals: vocabulary tables.
- Fixture building, controls, benchmark reports and host qualification scripts.
- The `src/steam_agent` package: storage and provider wrappers, a static catalog and inert plan documents.
- Permission profiles, authentication copying and sandbox validation.
- Review of hard-fail criteria in the claim verdict, which leaves it open until a judgment, and the counts beside it.
- Requirements.RewrittenCommandSatisfies: asks for a command word in the requirement, since a call that has none cannot begin with an option after reordering.
