# Sync bridge: a verified model

The bridge copies reading progress and reading status one way, from a Readest library to a BookOrbit server. It pulls
the rows above a cursor, sorts them, resolves unknown hashes in batches, pushes progress in batches with a per-item
fallback, pushes reading statuses, moves the cursor and saves its store to one file. Between passes it keeps a match
cache, a set of hashes waiting out a cooldown, the cursor and a rotating credential set. Any call may succeed, fail for
a while, fail for good, or say that a hash is unknown, and the process may stop at any point.

The project has four layers.

1. **What one pass computes.** `SyncPass` gives a pass as a function of the store, the pulled rows and every answer the
   outside world gives. `TokenCalls` and `PullCalls` do the same for the credential calls and the pull, `Retry` for the
   bounded backoff around each call, `Yaml` for the configuration parser.
2. **The objects themselves.** `Engine.Engine`, `Auth.Auth`, `Client.Client` and `StateFile.FileStore` change their
   fields step by step. Each method is proved equal to its function in layer 1. The store's save is a sequence of file
   steps; every disk state and every value of the store is on record, and `Stores` says what a pass may do to the latter.
3. **What a pass means.** `Rows` says what the columns of a row mean. `Projection`, `Phases`, `Progress`,
   `StatusChannel`, `Settlement`, `Traffic` follow one hash through the phases. `History` defines what the acknowledged
   traffic says of a hash, `Fates` what becomes of its queued pushes; `Bookkeeping` and `StatusHistory` compare the store
   with both. `NoLostUpdate`, `Cursor`, `Sending`, `Deletions`, `Clocked`, `Bulks`, `StatusRecords`, `Aborts` and
   `Fixpoint` draw the other conclusions, `Counterexamples` shows where they end. `Verdicts` says which errors of which call are tried again, `PullBound` what a pull does and costs,
   `YamlLines` and `YamlMeaning` what every line and every file of the configuration means.
4. **What any number of passes means.** `Runs`, `Losses`, `Sides`, `Forgotten`, `Intermediate`, `Consequences`, `Cooldown`,
   `StatusRuns`, `Repeats`, `StatusRepeats` and `Drift` are about every sequence of server changes, passes, failed pulls
   and crashes, with a log of all traffic that no crash takes back. `Daemon` shows that the running engine of layer 2,
   with restarts, is such a sequence. `TokenSafety` and `TokenRace` do the same for the credentials, over any calls, any interleaving and any
   crash, and `TokenSolo` ties the two together.

Percentages are whole numbers of 1e-5 (0 to 100000), the tolerance of 0.001 is 100. Timestamps are a small datatype
(absent, blank, the text "null", unreadable, or a time). Answers and clock readings are total functions of the position
of a call in the pass, so every theorem is for every sequence of answers.

**Assumed of the environment** (`Runs.Legal`): a pull brings exactly the rows above the cursor, one per hash, and possibly
the dummy row; a server-side change gives its row a watermark above all earlier ones; a match-check answer names only
hashes of its own request and none in both lists; clock readings are not zero. An answer may match one hash to several
books. The single-pass results need less, and say so. The cooldown results also take the clock not to fall behind the time
of the recording. `Counterexamples.DoubleListedStaysInBoth` shows what an answer that lists a hash on both sides does.

**Promises that hold exactly under a condition.**

- No lost update. An Unauthorized match-check or bulk answer, or a failed UpdateProgress, lets the cursor pass a row that was
  not delivered. `NoLostUpdate.SettledExactly` says which rows a pass leaves unsettled, `Losses.LostExactly` which of them
  it also puts behind the cursor, and `Losses.RunLosesExactly` that a run is lossless at every moment if and only if no
  pass of it did that. `Runs.NoUpdateIsLost` is the case in which no call ends in one of the three ways; the
  `Counterexamples` lemmas show each of them losing a row.
- No forgotten status. A failed status push does not hold the cursor back, so the row need not be pulled again.
  `Forgotten.ForgottenExactly` says which decisive rows a pass leaves unpushed and behind the cursor, and
  `Forgotten.RunForgetsExactly` that every matched decisive row below a cursor has its token pushed, at every moment of a
  run, if and only if no pass of it forgot one. `Counterexamples.FailedStatusIsForgotten` is a family of passes that do.
- The store is the replay of the acknowledged traffic if and only if the answers about the hash were consistent or the book
  was then gone (`Bookkeeping.StoreIsReplay`); they are whenever no hash is matched twice
  (`Bookkeeping.MatchedOnceIsConsistent`). Over runs it is so at every moment if and only if no pass met inconsistent
  answers (`Runs.RunIsReplay`). One file in two library books breaks it (`Counterexamples.MatchedTwiceParts`).
- A hash is in at most one of the two maps, at every moment of a run, if and only if no pass had one copy of its push refused
  and a later one acknowledged last, the book not then being gone (`Sides.RunSidesExactly`). It does happen
  (`Counterexamples.MatchedTwiceStaysInBoth`).
- The last acknowledged status of a book is pushed to it again if and only if a crash discarded the acknowledgement before
  it reached the file, the bridge remembers another token, and the record outlasts the progress phase
  (`Repeats.RepeatExactly`). It does happen (`StatusRepeats.CrashRepeatsStatus`).
- A spent refresh token is submitted again if and only if, since the last grant was stored, the answer to an exchange of it
  was lost, or the process was started from a file that the new one had not reached (`TokenRace.SpentTokenSentExactly`).
  Both do happen (`TokenRace.LostReplyResubmits`, `TokenRace.CrashResubmits`).
- The backoff never wraps if and only if the maximum is not negative and there is no pause at all, or both the initial pause
  and the maximum are below 2^62 nanoseconds (`Retry.BackoffWrapsExactly`); the configuration is not checked for it.

**Where the code and its comments differ, the model follows the code.**

- A "book gone" answer does pass through the retry loop; its classifier makes it final there (engine.go:786-814).
- The store is not saved at the end of a pass whose pull failed (engine.go:163-173 says "regardless of outcome").
- A malformed answer to a status call is retried, one to any other call is not (engine.go:705-723, 794-810).
- A refresh whose save fails is reported as a failure and yet leaves the new token in memory (auth.go:248-249 says the
  original is left untouched on total failure); `TokenSafety.FailureChangesTokenExactly` says when.
- A token granted just now is handed out however soon it expires (auth.go:171-173 says never within 60 seconds of expiry);
  `TokenSafety.GuardMissedExactly` says when.
- A failed status push is not retried with the next poll unless something else brings the row back, because the cursor has
  moved past it (engine.go:481-484 says the mapped value still differs then and is retried); `Forgotten.ForgottenExactly`
  says when.
- Tabs for indentation are rejected only when the tab is the first character of the line (yaml.go:21-22 says always); see
  `YamlRoundTrip.OnlyLeadingTabIsRejected` and `YamlRoundTrip.TabAfterSpaceIsAccepted`.

## Model

| member | source | states |
|---|---|---|
| Runs.NoUpdateIsLost | internal/sync/engine.go:160-389 | Over every legal run of changes, passes, failed pulls and crashes in which no match-check or bulk answer is Unauthorized and no UpdateProgress fails, every non-dummy server row at or below the cursor is settled, in memory and in the file |
| Losses.RunLosesExactly | internal/sync/engine.go:160-389 | The same with its exact hypothesis: over every legal run everything at or below a cursor, in memory and in the file, is settled at every moment if and only if no pass of the run lost a row |
| Losses.LostExactly | internal/sync/engine.go:531-561 | A pulled row is unsettled and behind the cursor after a pass if and only if it was owed an answer, none settled it, its book is not gone, and it lies below every row whose chunk failed |
| Losses.PassLosesExactly | internal/sync/engine.go:531-561 | A pass over a store that has lost nothing keeps it so if and only if it loses none of the rows it pulled |
| Intermediate.NothingLostMidPass | internal/sync/engine.go:185-389 | A pass changes only hashes above the cursor and moves the cursor last: every store that differs from the one before the pass only at hashes the pass may touch has everything at or below its cursor settled, whatever the pass meets later |
| NoLostUpdate.SettledExactly | internal/sync/engine.go:197-389 | After one pass a pulled row is unsettled if and only if it was owed an answer, none settled it and no status answer dropped the book; and then its chunk failed, an Unauthorized answer cut the pass short, or an UpdateProgress failed |
| Counterexamples.UnauthorizedCheckLosesRow | internal/sync/engine.go:303-306 | For every such row and pass, an Unauthorized match-check answer puts the cursor past a row that is in neither map |
| Counterexamples.UnauthorizedBulkLosesRow | internal/sync/engine.go:583-585 | The same for an Unauthorized bulk answer and a row whose percentage moved |
| Counterexamples.FailedUpdateLosesRow | internal/sync/engine.go:634-637 | The same for a failed UpdateProgress after the fallback, which is reported but not counted as failed |
| Counterexamples.FailedStatusIsForgotten | internal/sync/engine.go:480-486 | After a failed status push the cursor moves on, the next pull need not bring the row, and the next pass makes no call for it |
| Forgotten.ForgottenExactly | internal/sync/engine.go:467-486 | A decisive status of a live pulled row is unpushed and behind the cursor after a pass if and only if it was unpushed for a matched record before the status phase, no status answer for the hash was an acceptance or "gone", and the row lies below every row whose chunk failed |
| Forgotten.PassForgetsExactly | internal/sync/engine.go:467-486 | A pass over a store in which every matched decisive row at or below the cursor has its token pushed keeps it so if and only if it forgets none of the rows it pulled |
| Forgotten.RunForgetsExactly | internal/sync/engine.go:429-488 | Over every legal run, at every moment, in memory and in the file, every matched decisive row at or below the cursor has its token pushed, if and only if no pass of the run forgot a status |
| Counterexamples.DoubleListedStaysInBoth | internal/sync/engine.go:314-351 | If a server lists a hash both as matched and unmatched and then accepts its push, the hash ends up in both maps |
| Counterexamples.MatchedTwiceParts | internal/sync/engine.go:314-338 | If an answer matches one hash to two books, and the push of the first is accepted and that of the second fails, the store names the first, the replay the second, and the first push was queued with a record that the store no longer had |
| Counterexamples.MatchedTwiceStaysInBoth | internal/sync/engine.go:314-338 | If instead the first push is refused and the second accepted, the hash ends up in both maps |
| Counterexamples.ConcreteTwice | internal/sync/engine.go:314-338 | One concrete book does both |
| Sides.BothSidesExactly | internal/sync/engine.go:314-338 | After a pass a hash that was in at most one map is in both if and only if one copy of its push was refused, a later one, the last to be answered, was acknowledged, and its book was not then gone |
| Sides.RunSidesExactly | internal/sync/state/state.go:20-68 | Over every legal run a hash is in at most one map at every moment, in memory and in the file, if and only if no pass did that to it |
| Counterexamples.ConcreteLosses | internal/sync/engine.go:303-306 | One concrete book, half read, is lost in each of the three ways |
| Bookkeeping.StoreIsReplay | internal/sync/engine.go:197-488 | After any pass, whatever failed, what the store holds of a hash is the replay of the pass's acknowledged traffic over what it held before, if and only if the answers about the hash were consistent or its book was then gone; the cooldown is the replay in any case |
| Bookkeeping.CallsAreJustified | internal/sync/engine.go:197-488 | When they were consistent, every match-check and status call was justified when made: only an unresolved hash is checked, only a new decisive token sent, to the book last resolved |
| Bookkeeping.MatchedOnceIsConsistent | internal/sync/engine.go:314-338 | A hash that no answer matches twice is consistent, whatever becomes of its push |
| Bookkeeping.QueueCarriesTheStore | internal/sync/engine.go:197-338 | When the progress phase begins a hash is queued once, or once for every entry that matched it; each item carries a percentage worth pushing; and all carry the record the store has if and only if all entries name one book |
| Bookkeeping.PushesJustifiedExactly | internal/sync/engine.go:216-230 | Every push of a hash was of a known book and a percentage that had moved, if and only if no push of it followed an answered one |
| StatusHistory.StatusIsReplay | internal/sync/engine.go:429-488 | The token the store remembers for a hash is the replay of the traffic, and each status call was justified by it, whatever the answers about the hash were |
| Runs.RunSound | internal/sync/state/state.go:20-68 | Over every legal run, whatever fails: memory and file are each a selection of everything that was said, the file's an initial part of memory's; the status tokens and cooldowns they hold are its replay; and their cursors stay within what the server has shown |
| Runs.RunIsReplay | internal/sync/state/state.go:20-68 | Over every legal run what memory and file hold of a hash is the replay of their histories at every moment, if and only if no pass met inconsistent answers about it, unless its book was then gone; and then it is not in both maps |
| Runs.RunIsJustified | internal/sync/engine.go:197-488 | And when no pass met any, every match-check and status call of the whole history was justified by what came before it |
| Consequences.ResolutionIsTotal | internal/sync/engine.go:314-351 | After a successful match-check answer, whatever it lists, repeats or omits, every hash of the request is in exactly one of the two maps: as a fresh record of the last entry that names it, with nothing pushed or seen, or unmatched since the time of the pass |
| Cooldown.CooldownFromRecording | internal/sync/engine.go:231-268 | When a pass recorded a hash unmatched at time t, by a match-check answer, a refused push or a gone book, no later pass whose captured time is before t plus the cooldown asks about it, through any passes, failed pulls and changes, and any crashes if that pass was saved, unless a deletion row comes |
| Cooldown.RecordedIsStored | internal/sync/engine.go:314-351 | What the traffic of a pass last recorded of a hash is the cooldown entry the store has after it |
| Cooldown.CooldownHolds | internal/sync/engine.go:231-268 | The same from any state in which the hash cools down, in memory, and in the file if a crash may follow |
| Cooldown.CoolingPass | internal/sync/engine.go:231-268 | One pass while a hash cools down: it is not asked about and goes on cooling down |
| StatusRuns.StatusTokensAlternate | internal/sync/engine.go:429-488 | Over every legal run, in everything that was ever said, two consecutive acknowledged status pushes of one hash repeat a token only if a crash discarded the first, or its record was dropped in between |
| Repeats.RepeatExactly | internal/sync/engine.go:429-488 | Over every legal run, when a pass that does not give up pulls a live row of a matched book whose status means the last acknowledged token of all that was ever said, it pushes that token again if and only if a crash has discarded the acknowledgement, the bridge remembers another token, and the record outlasts the progress phase; the record must have lasted if the acknowledgement is remembered |
| Repeats.PassRepeatsExactly | internal/sync/engine.go:429-488 | The same for one pass from any sound state, with "not remembered" in place of the crash |
| Repeats.SameToken | internal/sync/engine.go:54-66 | Every status call for that book in such a pass carries that very token |
| StatusRuns.ThirdRepeatsExactly | internal/sync/engine.go:429-488 | Read off the log alone: of three consecutive acknowledged pushes of a record that lasts, the first of them remembered throughout, the third repeats the second if and only if a crash discarded the second in between |
| StatusRuns.ForgottenExactly | internal/sync/state/file.go:70-123 | An event leaves the engine's memory if and only if a crash discards it before it reached the file, and never comes back |
| StatusRuns.UnsavedPassRepeats | internal/sync/state/file.go:70-123 | From any state in which memory and file agree, a pass whose save fails, a crash, and the same answers again say everything twice |
| StatusRepeats.CrashRepeatsStatus | internal/sync/engine.go:467-479 | One concrete legal run in which the same status of the same book is pushed and acknowledged twice in a row, around a crash, although its record was in the file throughout |
| Sending.EveryPushIsARow | internal/sync/engine.go:216-230 | Every progress push is of one live pulled row, with the nearest percentage to its progress tuple and the second its update time falls in, or zero if that is blank, or the time of the pass if it cannot be read |
| Rows.UpdatedIsDated | internal/sync/engine.go:646-654 | The timestamp of a push, stamp by stamp: the second, toward zero, of a time before or after the epoch; zero for an empty or blank one; the fallback for the rest |
| Rows.PercentageIsShown | internal/readest/models.go:95-109 | A row has a percentage if and only if its tuple has a positive total and no negative position, and it is the nearest one, halves going up and the whole for anything past the end |
| Sending.MatchedRowPushedExactly | internal/sync/engine.go:216-230 | In a pass that does not give up, a matched book is pushed exactly once if its row is live and shows a percentage that was never pushed or is more than 0.001 away from the last one; and otherwise not at all |
| Sending.AskedExactly | internal/sync/engine.go:216-273 | In a pass that does not give up, a pulled row is match-checked if and only if it is live, unresolved, not cooling down, and shows a percentage or, with status sync on, a decisive status |
| Deletions.DeletedIsForgotten | internal/sync/engine.go:197-203 | After a pass that pulled a row whose deletion column holds anything but nothing and the text null, readable or not, its hash is in neither map, and no match-check, push or status call of the pass names it |
| Deletions.ErasedExactly | internal/readest/models.go:54-59 | Classification erases a hash if and only if its row is such a deletion, and otherwise leaves record and cooldown as they were |
| Deletions.UnnamedKeptExactly | internal/sync/engine.go:187-273 | A hash that no call of a pass names is in neither map after it if the pass pulled a deletion of it, and otherwise has the record and the cooldown it had, but for what the status phase notes |
| Deletions.PlaceholderIsIgnored | internal/readest/models.go:48-52 | A row whose hash is thirty-two zeros changes nothing of the classification, its cursor or the status phase, whatever its columns say |
| Sending.EveryStatusIsARow | internal/sync/engine.go:54-66 | Every status call carries the status of one live pulled row, finished as read and abandoned as abandoned; empty, reading, unread and unknown values never cause one |
| Sending.StatusCalledExactly | internal/sync/engine.go:429-467 | In a pass that does not give up, a live pulled row causes a status call if and only if its hash is matched by then, its status is decisive and its token differs from the last one pushed |
| Sending.SeenIsReported | internal/sync/engine.go:431-448 | The status phase notes exactly what a pulled row reported, never an unrecognised value |
| StatusRecords.StatusRecordedExactly | internal/sync/engine.go:429-501 | In a pass that does not give up, what becomes of the record of a live pulled row, field by field: a status that is never sent, or was the last one sent, is noted and dated if new; a new decisive one is sent to the record's book, and recorded with both its dates if accepted, replaced by a cooldown if the book is gone, and without effect otherwise; an unknown one leaves no trace |
| Clocked.TimesAreReadings | internal/sync/engine.go:596-644 | Every match-check and status call bears the clock reading the pass began with, and its acknowledged pushes, item by item in the order they went out, bear the readings after that, one each |
| Consequences.FailedStatusChangesNothing | internal/sync/engine.go:480-486 | A status push answered by any error but "gone" leaves every field of the record as it was |
| Consequences.NoBulkEverAfter | internal/sync/engine.go:587-594 | Once a bulk call has been answered as an unsupported endpoint, no later pass of the process makes one |
| Fixpoint.CleanPassIsFixpoint | internal/sync/engine.go:216-273 | After a pass that returned no error, a second pass over the same rows inside every cooldown makes no call and changes nothing, whatever the servers would answer |
| Fixpoint.IdlePass | internal/sync/engine.go:216-273 | A pass over rows that need nothing makes no call and changes at most the cursor |
| Fixpoint.StatusNeverDisturbsProgress | internal/sync/engine.go:375-388 | Two passes that differ in the status answers only end at the same cursor, make the same calls before the status phase, and agree on the progress of every hash both keep |
| Traffic.AbortDiscipline | internal/sync/engine.go:276-389 | A pass is pull, then match-checks, then pushes, then status calls; a call that ends it is the last one; the errors returned are those of the calls, in order |
| Aborts.AbortedStore | internal/sync/engine.go:303-306 | A pass that gives up leaves the store, but for the cursor, and the failed rows exactly as they were just before the fatal answer, at some point of one of its phases: the effects of every chunk and row before it, and none of what that call was for |
| Traffic.DispatchConserved | internal/util/batch.go:9-47 | The match-check requests are the chunks of the queue and every queued push is attempted exactly once in order, or both are prefixes when the pass gives up |
| Bulks.BulksAreChunks | internal/sync/engine.go:360-373 | The bulk calls of a pass are the first chunks of its queue in the configured size: all of them, unless the pass gives up or learns that there is no such endpoint, and none if it knew that before |
| Traffic.FallbackLatch | internal/sync/engine.go:568-600 | No bulk call follows the first unsupported-endpoint answer within a pass, nor any when the latch was set before |
| Traffic.StatusGate | internal/sync/engine.go:382-387 | With status sync switched off no status call is made |
| Cursor.ExactCursor | internal/sync/engine.go:531-561 | The cursor never moves back; without a failed row it ends at the largest pulled watermark or where it was; otherwise at the greatest value below every failed row |
| Cursor.RetreatRule | internal/sync/engine.go:539-561 | The retreat rule: never below the floor, and otherwise the greatest value under every failed watermark |
| Runs.CursorOverRuns | internal/sync/engine.go:531-561 | Over runs the file's cursor never moves back, and the engine's moves back only to the file's, in a crash |
| Runs.EarlierFileIsSafe | internal/sync/state/file.go:70-123 | A state file saved at any earlier moment of a lossless run is still safe to restart from |
| Drift.NoDrift | internal/sync/engine.go:216-230 | After any number of consecutive skipped polls the percentage pushed before them is within 0.001005 of the exact ratio of the row skipped next |
| Drift.SkipsKeepBaseline | internal/sync/engine.go:216-224 | Skipped polls never move the baseline they are compared with |
| Engine.Engine.RunOnce | internal/sync/engine.go:167-389 | Changes the store, the latch and the file exactly as the pass function says, saves once (not at all when the pull fails); every disk state on the way is the old file, the old store with another token, or the result; and every value of the store on the way is the old one but for the token and the hashes pulled or named in answers, or the result |
| Engine.Engine.ClassifyRow | internal/sync/engine.go:187-273 | One row of the classification loop, in place |
| Engine.Engine.CheckChunk | internal/sync/engine.go:287-353 | One match-check chunk, in place: candidates, answers, omitted hashes and failures |
| Engine.Engine.CheckPhase | internal/sync/engine.go:276-358 | The match-check phase, chunk by chunk, stopping at a fatal one |
| Engine.Engine.IndexRows | internal/sync/engine.go:278-283 | The hash list and the row index built in one loop, a later row of a hash winning |
| Projection.LaterRowWins | internal/sync/engine.go:278-283 | Of several rows with one hash the index keeps the last |
| Engine.Engine.PushChunk | internal/sync/engine.go:568-621 | One progress chunk: bulk, fallback, fatal and failed answers |
| Engine.Engine.PushSingle | internal/sync/engine.go:627-644 | One per-item push, keeping the status fields of the record |
| Engine.Engine.PushPhase | internal/sync/engine.go:360-373 | The push phase, chunk by chunk, stopping at a fatal one |
| Engine.Engine.PushStatus | internal/sync/engine.go:429-488 | One status decision: record, push, drop a gone book, or abort |
| Engine.Engine.PushStatuses | internal/sync/engine.go:407-425 | The status phase over the pulled rows |
| Engine.Engine.ComputeWatermark | internal/sync/engine.go:544-561 | The loop over failed watermarks computes the retreat rule |
| Engine.Engine.Finish | internal/sync/engine.go:531-537 | Moves the cursor and saves exactly once |
| Engine.Engine.PullBooks | internal/sync/engine.go:750-758 | The retried pull, as a loop over the client |
| Daemon.RunRounds | internal/sync/engine.go:661-670 | Pass after pass, the running engine is at every moment in a state of a run of the abstract system; and if that run was legal and lossless, every value its store has had, after any setter call, and every state its disk has been in, between any two file steps, has lost nothing of the library as it is now |
| Daemon.Pass | internal/sync/engine.go:167-389 | One pass of the engine is one step of the abstract system, and its disk states and store values are those the engine promises |
| Daemon.Restart | internal/sync/state/file.go:28-68 | A bridge restarted on a complete state file is the abstract system after a crash |
| Daemon.CrashInPassIsSafe | internal/sync/state/file.go:70-123 | After a lossless run, every disk state that the engine leaves inside the next pass before its last save, whatever that pass has met, is one from which everything unsettled is pulled again |
| StateFile.FileStore.Save | internal/sync/state/file.go:70-123 | Replaces the file by one complete synced copy of the store if every step but the removal of the temporary file and the last chmod works, and leaves it as it was otherwise; succeeds if that chmod works too; every disk state on the way shows the one or the other |
| StateFile.FileStore.SaveLocked | internal/sync/state/file.go:79-123 | The same for the sequence of file steps itself, and the temporary file does not stay behind unless its removal fails |
| StateFile.FileStore.FillTemp | internal/sync/state/file.go:99-113 | The temporary file is complete and synced before it is renamed |
| StateFile.FileStore.Load | internal/sync/state/file.go:39-68 | No file gives the empty store; an unreadable or unparseable one is an error and changes nothing |
| StateFile.FileStore.DeviceId | internal/sync/state/file.go:139-148 | The device identity is generated once and never changes |
| StateFile.CrashReadsOneSave | internal/sync/state/file.go:19-26 | At every crash point the state file reads back as it was found or as one complete store that was saved since |
| Auth.Auth.AccessToken | internal/readest/auth.go:176-209 | The cached, refreshed or newly granted credential, as the call function says, changing nothing in the store but the token |
| Auth.Auth.ForceRefresh | internal/readest/auth.go:221-235 | The forced refresh with its sign-in fallback, likewise |
| Auth.Auth.Refresh | internal/readest/auth.go:154-169 | One refresh grant with the stored refresh token, persisted whole |
| Auth.Auth.SignIn | internal/readest/auth.go:135-147 | One password grant, persisted whole |
| Auth.Auth.Reauth | internal/readest/auth.go:250-258 | The sign-in after a rejected refresh token |
| Auth.Auth.Persist | internal/readest/auth.go:357-364 | The token is in memory whatever becomes of the save |
| Auth.Auth.Post | internal/readest/auth.go:263-345 | One grant: transport failures, status classes, undecodable bodies and incomplete token sets |
| TokenSafety.AccessTokenSafe | internal/readest/auth.go:171-209 | All or nothing for AccessToken: the stored token is that of the last successful grant, whole, or what it was; a grant is made exactly when the stored token is empty or stale; a returned credential is the stored one |
| TokenSafety.ForceRefreshSafe | internal/readest/auth.go:211-258 | The same for ForceRefresh: at most two grants, the first submitting the stored refresh token, a sign-in exactly when that is rejected or missing |
| TokenSafety.CallSettles | internal/readest/auth.go:154-258 | What becomes of either call, from the stored token, the clock, the answers and the file steps: untouched if it need not ask or gets no complete set, and otherwise the new set in memory and, if the save got so far, in the file |
| TokenSafety.FailureIsBlamed | internal/readest/auth.go:296-345 | A call fails if and only if it asks and the deciding answer brings no complete set, or a step of the save other than the removal of the temporary file fails; and the error is that of the answer, status by status |
| TokenSafety.FailureChangesTokenExactly | internal/readest/auth.go:248-258 | A failed call has changed the stored token if and only if it asked, the deciding answer was a complete other set, and a step of its save failed |
| TokenSafety.GuardMissedExactly | internal/readest/auth.go:171-209 | AccessToken returns a token with less than a minute left if and only if it had to ask and the set it was granted and saved expires that soon |
| TokenSafety.NoGrantExactly | internal/token/token.go:21-36 | AccessToken makes no grant if and only if the stored token lives for another minute and for half its lifetime; then that is what it returns |
| TokenSafety.BrokenPromises | internal/readest/auth.go:357-364 | One concrete call of each kind: a ten-second token handed out, and a failed refresh that changed the token |
| TokenSafety.StoredTokenIsWhole | internal/readest/auth.go:135-258 | Over any sequence of calls the stored token, and the one in the file when it was written, is the initial one or one whole granted set |
| TokenRace.NoSecondExchange | internal/readest/auth.go:106-109 | Within one process whose answers all arrive, in every interleaving of any callers, a refresh token that was exchanged is never submitted again |
| TokenRace.SpentTokenSentExactly | internal/readest/auth.go:106-109 | In every interleaving of any callers, with a crash between any two steps and any answer lost, a refresh token that was exchanged is submitted again if and only if, since the last grant was stored, the answer to an exchange of it was lost or the process was started from a file whose token had been exchanged |
| TokenRace.CrashResubmits | internal/readest/auth.go:357-364 | It does happen: an exchange, a crash before its save, and the restarted process submits the spent token |
| TokenRace.LostReplyResubmits | internal/readest/auth.go:263-345 | So does the other: an exchange whose answer is lost, and the same process submits the spent token with its next refresh |
| TokenRace.ExactlyOneGrant | internal/readest/auth.go:171-176 | Any number of AccessToken callers cause exactly one grant as soon as one has found the token empty or stale, if that grant brings a fresh one |
| TokenSolo.SoloIsCall | internal/readest/auth.go:176-235 | An undisturbed caller of the interleaving machine leaves the same token in memory and in the file and the same number of grants as the sequential call, and the mutex free |
| TokenRace.StepExclusion | internal/readest/auth.go:176-178 | Exactly the holder of the mutex is past its lock |
| Client.Client.PullBooks | internal/readest/client.go:106-138 | One pull with a single forced refresh and retry, as the pull function says, which `PullBound.OnePull` describes |
| Client.Client.Get | internal/readest/client.go:144-178 | One request: its result for each class of answer, and that 401, 403 and a body that denies authentication, whatever the status, are authentication failures |
| PullBound.OnePull | internal/readest/client.go:101-138 | A request is made if and only if a credential was had, and a second one if and only if the first was answered by 401, 403 or a denying body and the forced refresh succeeded, each with its own credential; the result is what the last answer gives, class by class, or the error of the credential that could not be had |
| PullBound.OnePullCost | internal/readest/client.go:101-138 | At most two requests and four grants, and a pull that succeeds ends with a request that carries the stored credential |
| PullBound.PullCost | internal/sync/engine.go:725-758 | One pass's pull costs at most six HTTP requests for each of at most RetryMaxAttempts + 1 attempts, all but the last of which ended in a retryable error |
| Verdicts.CallsEnd | internal/sync/engine.go:705-786 | Error by error: a match-check, bulk or update call goes on after a rate limit, a server or network failure, a gone book or an unclassified error, and a status call after those but the gone book, and after a malformed, oversized or unsupported answer; each ends with the first attempt that ends otherwise, with the last one allowed, or with a pause that is interrupted |
| Verdicts.PullEnds | internal/sync/engine.go:683-702 | The same for the pull, which goes on after every failure to get a credential as well, and stops at 401, 400, a malformed answer and a cancellation |
| Verdicts.EndsOnce | internal/sync/engine.go:725-748 | There is only one result and one number of attempts that fits this |
| Verdicts.FirstLastingAnswer | internal/sync/engine.go:725-748 | Without an interruption a call ends in a passing error if and only if every attempt allowed did, and the first one that ends otherwise is the result |
| Retry.WithRetry | internal/sync/engine.go:725-748 | The loop returns what the bounded backoff says |
| Retry.RetryBound | internal/sync/engine.go:725-748 | At most RetryMaxAttempts + 1 calls, all but the last retryable, paused by the backoff schedule |
| Retry.StatefulIsRetried | internal/sync/engine.go:750-758 | A call with a state of its own is retried exactly as the sequence of its results would be |
| Retry.DelayClosedForm | internal/sync/engine.go:742-745 | The k-th pause is the initial one doubled k times or the maximum, and no doubling leaves 64 bits when the maximum is below 2^62 |
| Retry.BackoffWrapsExactly | internal/sync/engine.go:742-745 | For every configuration that 64 bits can hold, no pause of the schedule leaves 64 bits when doubled if and only if the maximum is not negative and either the initial pause is zero, or it is positive and both are below 2^62 |
| Retry.UncappedBackoffWraps | internal/sync/engine.go:742-745 | One configuration outside that, whose second pause is negative and so none at all |
| Batch.Split | internal/util/batch.go:9-25 | The chunking loop computes the chunks |
| Batch.ChunksConserve | internal/util/batch.go:3-25 | Chunks concatenate to the input in order, none is empty or too long, only the last may be short, and a size that is not positive gives one chunk |
| Time.ComputePercent | internal/util/time.go:76-96 | Clamped and rounded to five places, with its two error cases |
| Time.PercentIsNearest | internal/util/time.go:76-105 | On the grid, inside 0 to 1, and never more than half a unit from the exact ratio |
| Time.PercentMonotone | internal/util/time.go:84-105 | Monotone in the reading position |
| Time.Round | internal/util/time.go:98-105 | The power loop and the rounding |
| Time.MaxMs | internal/util/time.go:61-72 | The largest of the values, at least zero |
| Readest.WatermarkIsLatest | internal/readest/models.go:111-120 | A row's watermark is the latest of its three columns that is a time, at least zero |
| Yaml.ParseSimpleYaml | internal/config/yaml.go:25-74 | The line loop computes the parse, whose every value and error `YamlMeaning` states on the text |
| Yaml.CutComment | internal/config/yaml.go:110-128 | The quote-tracking scan computes the comment cut |
| Yaml.CountLeadingSpaces | internal/config/yaml.go:76-83 | The indentation loop |
| YamlMeaning.RejectedExactly | internal/config/yaml.go:25-74 | A file is rejected with a fault at a line if and only if that is the first line with one: a tab first, no key before a colon, an indented key outside every section, or one without a value inside |
| YamlMeaning.MeansExactly | internal/config/yaml.go:25-74 | A file without a faulty line gives every name the value that the last line to set it gives it, and no other names; the section of a line is the last unindented key before it, if that has no value |
| YamlMeaning.NoPairIsRejected | internal/config/yaml.go:47-50 | A line that is not blank once its comment is cut and has no colon, or only white space before it, is rejected at its number when nothing before it is |
| YamlMeaning.NestedMapIsRejected | internal/config/yaml.go:67-69 | So is an indented key without a value in any section |
| YamlLines.OneReading | internal/config/yaml.go:33-108 | Every line reads in exactly one way: as tabbed, nothing, no pair, or a trimmed key with the value its trimmed text stands for |
| YamlLines.ReadsExactly | internal/config/yaml.go:76-128 | The scanners compute that reading, which is stated on the positions in the line: the first comment sign that no quote is open at, the first colon, the white space around both sides, and quotes of the same kind at both ends |
| YamlLines.SpaceIsListed | internal/config/yaml.go:39 | White space is that of Unicode, character by character |
| YamlLines.ScanAgrees | internal/config/yaml.go:110-128 | The quote-tracking scan is outside quotes if and only if every quote that opened before, being outside all others, has been closed |
| YamlRoundTrip.DocumentRoundTrip | internal/config/yaml.go:8-74 | Parsing the rendering of any document of the documented grammar gives exactly its meaning, or an error exactly when an indented key stands before any section |
| YamlRoundTrip.ConfigRoundTrip | internal/config/yaml.go:8-74 | Rendering any one-level configuration and parsing it gives back its settings and no others |
| YamlRoundTrip.StripCutsOutsideQuotes | internal/config/yaml.go:110-128 | Nothing is cut but blanks and what follows the first comment sign outside quotes |
| YamlRoundTrip.StripIdempotent | internal/config/yaml.go:110-128 | Cutting a comment twice is cutting it once |
| YamlRoundTrip.OnlyLeadingTabIsRejected | internal/config/yaml.go:33-36 | A line is rejected for tab indentation if and only if its first character is a tab |
| YamlRoundTrip.TabAfterSpaceIsAccepted | internal/config/yaml.go:33-36 | A tab after a space is accepted as indentation, for every key and value |

## Left out

- HTTP requests, headers, JSON and body size limits of both clients (internal/bookorbit/client.go, internal/readest/client.go): only the kinds of answer are kept; a request that cannot be built is not part of the model.
- The title, author and last-open fields of match-check candidates, which no decision depends on.
- ISO time parsing: a timestamp is readable, blank or not.
- The wire forms of the progress column (internal/readest/models.go:62-93): it is a pair of numbers or nothing.
- Bytes: the configuration text is a sequence of characters, as if it were decoded first.
- Floating-point rounding at the tolerance itself: percentages are exact on the 1e-5 grid, so a difference of exactly 0.001 is skipped here while the program's arithmetic may push it.
- 64-bit wrap-around of timestamps and counters; the backoff delay is modelled with it.
- The in-memory store (internal/sync/state/mem.go): its setters are those of the file store and its save does nothing, so it would add only easy members. The source's engine accepts either store through an interface; this one holds a file store.
- The mutexes of the stores: the engine is their only user during a pass. The authenticator's mutex is modelled, in `TokenRace`, as a state machine beside the sequential calls of `Auth`.
- The leftover temporary files of several failed removals: the model keeps one.
- A rename is taken to be durable when it returns; for a machine that forgets it, `Runs.EarlierFileIsSafe` says that any earlier file is safe as well.
- Server changes during a pass: they are taken to happen just after it, which no call of the pass can tell.
- The engine's sleeping between passes, the warn-once set and all logging.
- URL rules, command line, environment overlay, defaults and validation of the configuration, device identity derivation.
- YAML beyond the parser's own grammar: its rejections are modelled, but nothing is said about what a full YAML reader would make of a file.
- The closures of a pass: the variables they share are fields of a `Frame` object, and what BatchFunc calls back is written in the loop over its chunks.
