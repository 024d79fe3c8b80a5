# Remote agent engine: verified model

A Dafny model of the parts of the agent engine that make promises about whole runs, with proofs of those promises.
`dafny verify dfyconfig.toml` checks all of it.

| area | modules |
|---|---|
| hash-chained audit log: format, verifier, explainer, writers | `AuditChain`, `AuditVerify`, `AuditExplain`, `AuditDiagnosis`, `AuditEvidence`, `AuditWriters`, `AuditRecords` |
| durable run ledger | `RunLedger`, `RunHistory`, `RunEffects`, `RunStore` |
| canonical JSON and the brace scanner | `Json`, `JsonRoundTrip`, `JsonCanonical`, `JsonKeyOrder`, `JsonForm`, `BraceScanner`, `BraceScannerUndoes` |
| tool-result cache in the loop | `ToolCache`, `ToolActions`, `CachedLoop`, `StaleReads` |
| lossless compaction | `Cortex`, `Conversation` |
| schedulers | `TaskQueue`, `TaskDedupe`, `WorkerPool`, `GoalRounds` |
| arithmetic and text cores | `RateLimiter`, `Cidr`, `ContextBudget` |
| shared by the others | `Options`, `Sequences` |

## Where to start

- `AuditRecords.OrderlyRunsVerify` and `AuditDiagnosis`: every interleaving of writers leaves a log that verifies and holds
  what it was handed, and every kind of damage gets its own verdict at its own place. The digest is a constructor of an
  inductive datatype, so it is injective and no record can contain its own hash. Entries do not carry the keys `seq`, `ts`,
  `prev` and `hash`.
- `RunHistory.SideEffectsAtMostOnce`: no side effect is live twice, over every conforming history.
- `JsonCanonical.EqualTextIffSameValue`: equal canonical text exactly for equal values, by a parser that undoes the printer.
- `CachedLoop.Loop.RunAll`: with and without the cache, the same answers and the same files, over every harmless history.
- `Conversation.Conversation.Run`: every original message comes back by following pointers to pointers.
- `TaskQueue.QueueIsSerial`, `WorkerPool.PoolIsExact`, `GoalRounds.RoundsAreBounded`: schedulers over every interleaving.

Concurrent and asynchronous code is a state machine whose steps lie between the points where other code can run. Methods that
follow the code are tied to that machine, or to a specification function, by their postconditions; the lemmas speak about those.

## Where the code differs from what it says

- `auditVerify` refuses a file with a whitespace-only line between records that `explainChain` accepts, reports a falsy JSON
  value as a hash mismatch instead of a parse error, and forgets its count at a JSON `null`
  (`AuditDiagnosis.VerifierAndExplainerAgree` is the exact relation).
- Only files write and delete drop cached `files` answers, although mkdir, rename, copy and restore change files too
  (`StaleReads.RenameGoesUnseen`), and so do shell commands and sub-agents (`StaleReads.ShellGoesUnseen`). `CachedLoop.StaysFreshIff` and
  `CachedLoop.ReadActRead` say exactly when an answer goes stale, `CachedLoop.Loop.RunAny` how old it can get.
- A capped `Cortex` means to evict the text stored longest ago, but compares with a field that is always undefined and evicts the
  entry made first (`Cortex.RefreshDoesNotProtect`; `Cortex.EvictsByAgeIff` says when that is the same).
- The retry check compares untruncated names with truncated ones, looks only at the first match, and `finishAttempt` does not look
  at the status (`RunHistory.CallBreaksIff` gives the exact guards, four lemmas beside it histories that meet them).
- A rejection does not take an earlier approval back (`RunEffects.DecisionsTakeEffect`).
- An approval's expiry text is checked before it is cut to 100 characters, so a longer one can be stored as never expiring
  (`RunHistory.ExpiryIsKeptIff`, `RunHistory.LongExpiryNeverExpires`).
- The tool cache drops a `__proto__` argument key from its key text (`JsonCanonical.ProtoCollides`).
- A listener of the task queue that throws can leave jobs waiting with nothing to take them, and a run id refused for good
  (`TaskQueue.AlwaysServedIff`, `TaskQueue.LostIdIsRefused`); the daemon's own `error` listener throws when nobody listens to the daemon.
- `truncateKeepingMarkers` can exceed its cap, although its last comment says it never does (`ContextBudget.WithinCapIff`),
  and so can the prompt its total (`ContextBudget.PromptFitsIff`).

## Model

| member | source | states |
|---|---|---|
| `AuditChain.LastHashBindsLog` | packages/engine/src/policy.js:285-294 | two chained logs that end in the same hash are equal record for record |
| `AuditChain.DepthIsPosition` | packages/engine/src/policy.js:285-294 | the hash of record i of a chained log nests exactly i + 1 digests, whatever the file looks like around it |
| `AuditChain.HashesDistinct` | packages/engine/src/policy.js:285-294 | no hash occurs twice in a chained log |
| `AuditChain.ChainedPrefix` | packages/engine/src/policy.js:304-317 | verification is closed under prefixes |
| `AuditChain.AppendChains` | packages/engine/src/policy.js:285-294 | an append keeps the log chained if and only if the record hashes itself and names the last hash |
| `AuditVerify.Verify` | packages/engine/src/policy.js:304-321 | the walk over the trimmed lines: full report (ok, checked, brokenAt, reason) at the first bad line, including the thrown case that forgets the count |
| `AuditVerify.AcceptedIffChained` | packages/engine/src/policy.js:304-321 | the verifier accepts a file if and only if its lines are the records of some chained log |
| `AuditEvidence.TrimmedLines` | packages/engine/src/policy.js:307 | trimming takes whitespace-only lines off both ends and nothing else |
| `AuditEvidence.AcceptedReport` | packages/engine/src/policy.js:317 | a chained log is reported ok with all its records checked |
| `AuditEvidence.FirstBadReport` | packages/engine/src/policy.js:309-316 | the first line that does not continue a chained log decides ok, checked, brokenAt and reason, whatever follows |
| `AuditEvidence.VerifierNamesDamage` | packages/engine/src/policy.js:309-316 | an edit is reported as a hash mismatch at the edited record with its number, a removed block as a chain break at the record behind it with its number |
| `AuditWriters.OrderlyStepKeepsInv` | packages/engine/src/policy.js:263-298 | each step of each writer (lock, wait, read the tail, append, release) keeps the log chained, numbered 1, 2, 3, …, and the reader under the lock current; an append adds one record with its own entry, time, next number and the last hash, any other step none |
| `AuditRecords.OrderlyRunsVerify` | packages/engine/src/policy.js:244-298 | for any number of writers and every interleaving without a stolen lock, a give-up or an oversized line: every prefix of the run and the whole run leave a chained log, numbered consecutively, that holds exactly the times and entries handed in, one record per append in that order, with at most one writer past the lock |
| `AuditRecords.RunsNoteWhatTheyAreHanded` | packages/engine/src/policy.js:281-296 | in every run, orderly or not, the i-th record holds the time of the i-th append and the entry of the last call its writer had made |
| `AuditRecords.UncontendedWriteCompletes` | packages/engine/src/policy.js:281-298 | an idle writer that finds the lock free gets its entry written and frees the lock again |
| `AuditRecords.GivesUpAfterAHundredTries` | packages/engine/src/policy.js:266-271 | a writer goes on without the lock after exactly 100 tries since its call |
| `AuditRecords.AppenderStaysCurrent` | packages/engine/src/policy.js:282-295 | whatever the length of its line, the writer that appended last chains on from its own record and number |
| `AuditRecords.LongLineHidesTheTail` | packages/engine/src/policy.js:244-260 | a line of at most 65536 bytes gives its number and hash to every writer, a longer one leaves each other writer with what it remembers |
| `AuditRecords.NumbersStartOver` | packages/engine/src/policy.js:284-286 | after a last line without a number the next record has number 1 and still names the hash before it |
| `AuditRecords.OnlyTheLockerUnlocks` | packages/engine/src/policy.js:272-275 | a writer that finishes removes the lock file exactly when it got the lock after its last call |
| `AuditWriters.ReadIsCurrentIff` | packages/engine/src/policy.js:244-260 | a writer chains on from the true tail if and only if the last line fits the 64 KB window or the writer remembers that tail itself |
| `AuditWriters.AppendVerifiesIff` | packages/engine/src/policy.js:281-296 | after any past at all, an append keeps a chained log chained if and only if the tail read before it is still the tail |
| `AuditWriters.StealSharesTail` | packages/engine/src/policy.js:263-275 | from any good state, one stolen lock puts two writers on the same tail |
| `AuditWriters.SharedTailForks` | packages/engine/src/policy.js:281-298 | two writers on one tail break the chain in either order, whatever and whenever they write; the explainer reports the second record, as a fork or, in an empty file, as a second fresh head |
| `AuditExplain.ExplainChain` | apps/desktop/src/audit-explain.js:61-175 | the maps, the walk, the tail check and the classification together return the explanation defined by positions alone, evidence included |
| `AuditExplain.Index` | apps/desktop/src/audit-explain.js:65-72 | the two maps hold the first owner of each truthy hash and the number of records naming each hash |
| `AuditExplain.Walk` | apps/desktop/src/audit-explain.js:74-94 | the walk lists exactly the breaks and the seq anomalies, and what it expected at the first break |
| `AuditExplain.BreaksSound` | apps/desktop/src/audit-explain.js:77-94 | a break is listed if and only if its position is bad |
| `AuditEvidence.ReportCoversFile` | apps/desktop/src/audit-explain.js:96-109 | for every record list: entry count, the number anomalies as exactly the jumps between neighbours, tail consistency as a property of the records after the break |
| `AuditEvidence.AnomaliesAreJumps` | apps/desktop/src/audit-explain.js:79-85 | an anomaly is listed if and only if two neighbouring numbered records are not consecutive, in file order, with both numbers |
| `AuditEvidence.ParseEvidenceMeans` | apps/desktop/src/audit-explain.js:114-116 | for a line that is no record: whether it is last, and the number of records after it |
| `AuditEvidence.HashEvidenceMeans` | apps/desktop/src/audit-explain.js:130-135 | for an edited record: its number, both hashes, and how many records name the stored one |
| `AuditEvidence.ChainEvidenceMeans` | apps/desktop/src/audit-explain.js:142-152 | for a broken link: the last hash before it, the hash it names, the first record with that hash, how many records name it, and whether the record before it leads nowhere |
| `AuditDiagnosis.EditIsRewrite` | apps/desktop/src/audit-explain.js:129-139 | every file of such records, blank lines aside: any content edit under a kept hash in a chained log: REWRITE at that record, no second break, tail consistent |
| `AuditDiagnosis.RemovalIsCut` | apps/desktop/src/audit-explain.js:141-169 | every file of such records, blank lines aside: any leading or interior block removed from a chained log: SPLICE/COPY, cut-missing-predecessor, at the seam, no second break |
| `AuditEvidence.RemovalLeavesGap` | apps/desktop/src/audit-explain.js:80-85 | a removed interior block of a numbered log leaves exactly one anomaly, with the numbers on both sides; nothing else leaves one |
| `AuditDiagnosis.ForkIsFork` | apps/desktop/src/audit-explain.js:141-163 | every file of such records, blank lines aside: any two branches appended from one non-empty tail: SPLICE/COPY at the first record of the second branch, no second break, tail consistent; fork-duplicate-prev, except that a second branch which repeats the whole first one and goes on reads as segment-joined-to-earlier-entry |
| `AuditDiagnosis.InsertionIsJoinedSegment` | apps/desktop/src/audit-explain.js:156-162 | every file of such records, blank lines aside: a foreign branch inserted into a log that goes on afterwards: segment-joined-to-earlier-entry, at the first foreign record |
| `AuditDiagnosis.ConcatenationIsFreshHead` | apps/desktop/src/audit-explain.js:163-165 | every file of such records, blank lines aside: a second chained file pasted after a first: fresh-head-mid-file, at the seam |
| `AuditDiagnosis.MovedBlockPointsForward` | apps/desktop/src/audit-explain.js:153-155 | every file of such records, blank lines aside: a block moved behind the block that followed it: prev-points-forward, at the seam |
| `AuditDiagnosis.TornTailIsTruncation` | apps/desktop/src/audit-explain.js:113-119 | a last line that holds no record, after a chained log: TRUNCATION, partial-final-record, at that line |
| `AuditDiagnosis.TornMiddleIsUnknown` | apps/desktop/src/audit-explain.js:120-125 | a torn line that later records chain past: UNKNOWN, damaged-record-with-valid-records-after, at that line |
| `AuditDiagnosis.ChainBreakIsAttributed` | apps/desktop/src/audit-explain.js:170-173 | for every record list, the catch-all verdict unattributable-prev-mismatch cannot be reached |
| `AuditDiagnosis.VerifierAndExplainerAgree` | packages/engine/src/policy.js:304-321 | for every file: the verifier accepts if and only if the explainer finds no break and no whitespace-only line stands between records; otherwise, without such a line, checked + 1 is the first bad index except after a JSON null, and the kinds correspond except for falsy JSON values |
| `AuditDiagnosis.ChainedAcceptedUnbroken` | apps/desktop/src/audit-explain.js:96-109 | on the file of any record list, chained, accepted by the verifier and unbroken for the explainer are the same thing |
| `AuditDiagnosis.BlankLineDisagreement` | apps/desktop/src/audit-explain.js:33 | a whitespace-only line between two good records: accepted by the explainer, refused by the verifier |
| `RunLedger.StoredRunIsFixed` | packages/engine/src/run-state.js:56-113 | normalising a stored run changes nothing, so reading, saving and reloading are neutral |
| `RunLedger.NormaliseFits` | packages/engine/src/run-state.js:56-113 | every run, whatever was handed in, is cut to the stored bounds |
| `RunLedger.AfterFits` | packages/engine/src/run-state.js:178-316 | every operation keeps a run within the stored bounds, and takes no run past ten attempts |
| `RunEffects.NormaliseKeeps` | packages/engine/src/run-state.js:56-113 | what storing keeps: the beginnings of texts and the ends of lists, with every bound |
| `RunStore.ReplyIsStored` | packages/engine/src/run-state.js:153-158 | a call answers with the run it stores or changes nothing; it answers nothing for an unknown run or attempt |
| `RunStore.RunStore.Get` | packages/engine/src/run-state.js:166-169 | the stored run, unchanged by the normalisation on the way out |
| `RunStore.RunStore.Put` | packages/engine/src/run-state.js:153-158 | stores the normalised run under its id and touches no other run |
| `RunStore.RunStore.Create` | packages/engine/src/run-state.js:160-164 | a new run in state created, or the existing run untouched when the id is taken |
| `RunStore.RunStore.Transition` | packages/engine/src/run-state.js:178-192 | reply and whole new store are those of the transition in the ledger specification; refused ones change nothing |
| `RunStore.RunStore.Checkpoint` | packages/engine/src/run-state.js:194-201 | appends a recovery point and makes it current; reply and whole store as specified |
| `RunStore.RunStore.Cancel` | packages/engine/src/run-state.js:210-215 | terminal runs are returned unchanged, others are cancelled or refused by the table; reply and whole store as specified |
| `RunStore.RunStore.Resume` | packages/engine/src/run-state.js:222-230 | terminal runs refused, running ones unchanged, any other state to running; reply and whole store as specified |
| `RunStore.RunStore.RollBack` | packages/engine/src/run-state.js:237-254 | the chosen or previous point becomes current, the event is recorded, the run is rolled_back; reply and whole store as specified |
| `RunStore.RunStore.Approve` | packages/engine/src/run-state.js:256-270 | only a waiting run with revisions that match gets a receipt bound to run, plan and policy; reply and whole store as specified |
| `RunStore.RunStore.StartAttempt` | packages/engine/src/run-state.js:283-304 | approval, key and retry checks in the order of the code, then a started attempt; reply and whole store as specified |
| `RunStore.RunStore.FinishAttempt` | packages/engine/src/run-state.js:306-316 | sets outcome and result of the first attempt with that id, whatever its state; reply and whole store as specified |
| `RunStore.RunStore.Reload` | packages/engine/src/run-state.js:134-151 | the retained runs come back exactly as they were |
| `RunHistory.StoredPointsAreTheLastHundred` | packages/engine/src/run-state.js:186-201 | over every sequence of operations the stored recovery points are the last min(n, 100) of all points ever added |
| `RunHistory.RollbackRestoresChosenPoint` | packages/engine/src/run-state.js:237-254 | after any history, rolling back to position t makes the t-th of the last hundred points ever added current, records the event, and changes neither the points nor the attempts |
| `RunEffects.CurrentPointIsLatest` | packages/engine/src/run-state.js:186-201 | over every sequence of calls without a rollback the current point is the last one added |
| `RunEffects.RollbackDefaultsToPrevious` | packages/engine/src/run-state.js:244 | without a position a rollback goes to the point before the last, or to the only one |
| `RunEffects.RollbackRefusedIff` | packages/engine/src/run-state.js:240-247 | a rollback is refused exactly for a succeeded or cancelled run or a position without a point |
| `RunEffects.RollbackRecords` | packages/engine/src/run-state.js:248-254 | a rollback stores the chosen data as current, the last 99 earlier events and one new one with both positions and the given or default reason, and changes no other field but status and reason |
| `RunHistory.CallFollowsEdge` | packages/engine/src/run-state.js:32-40 | one operation changes the status only along the table, by resuming a run that is not terminal, or by rolling back |
| `RunEffects.TableByTarget` | packages/engine/src/run-state.js:32-40 | the transition table read by its targets, status by status |
| `RunEffects.TransitionMeans` | packages/engine/src/run-state.js:178-192 | a transition sets status and reason and nothing else, exactly when the status stays or the table allows it |
| `RunEffects.CancelMeans` | packages/engine/src/run-state.js:210-215 | a run can be cancelled exactly while created, planned, waiting or running |
| `RunEffects.ResumeMeans` | packages/engine/src/run-state.js:222-230 | every run that is not finished goes to running, and keeps its reason if it has one |
| `RunEffects.CallsTouchTheirOwn` | packages/engine/src/run-state.js:178-316 | no call changes which run it is, and every list and the status are changed by their own calls only |
| `RunHistory.TerminalIsFinal` | packages/engine/src/run-state.js:178-254 | over every sequence of operations succeeded, cancelled and rolled_back never change, and failed can only become rolled_back |
| `RunHistory.PriorIsFirst` | packages/engine/src/run-state.js:297 | the attempt consulted before a retry is the first matching one; there is none only if nothing matches |
| `RunEffects.StartMeans` | packages/engine/src/run-state.js:283-304 | a start is accepted exactly by a rule on the fields of the run and its first attempt that counts, and then adds one started attempt with the names and flags given, and nothing else |
| `RunEffects.FinishRecords` | packages/engine/src/run-state.js:306-316 | the first attempt of that id ends with exactly the given outcome and result; every other attempt and field stays |
| `RunEffects.FinishOfUnknown` | packages/engine/src/run-state.js:309-310 | finishing an unknown attempt changes nothing |
| `RunEffects.DoneRefusesStarts` | packages/engine/src/run-state.js:118 | once a side effect that is the first counting attempt of its pair has succeeded, every start of that pair is refused in every history that finishes neither it nor an attempt before it again |
| `RunHistory.SideEffectsAtMostOnce` | packages/engine/src/run-state.js:283-316 | over every conforming history a non-idempotent side effect has at most one non-compensated attempt per tool and key, and a run never gets more than ten attempts |
| `RunHistory.CallBreaksIff` | packages/engine/src/run-state.js:283-316 | for every caller and every operation: a second live side effect gets in if and only if the guards let it, told by name lengths, flags and outcomes of the stored attempts |
| `RunHistory.RetryBesideLive` | packages/engine/src/run-state.js:297-299 | beside a live attempt under the stored names the retry check passes if and only if a name is too long to match, or the first match is read-only, or it is idempotent and has not succeeded |
| `RunHistory.HistoryKeepsAtMostOnceIff` | packages/engine/src/run-state.js:283-316 | over every history the promise holds at every moment if and only if no call in it is a breaking one |
| `RunHistory.ReadOnlyAttemptHidesLiveOne` | packages/engine/src/run-state.js:297 | flags that change within a pair: a read-only first attempt lets a live side effect start twice |
| `RunHistory.IdempotentAttemptHidesLiveOne` | packages/engine/src/run-state.js:119 | an idempotent first attempt that has not succeeded lets a live side effect start twice |
| `RunHistory.LongToolNameNeverMatches` | packages/engine/src/run-state.js:60 | a tool name over 200 characters never matches its stored form, so a side effect starts twice |
| `RunHistory.RefinishedCompensationRevives` | packages/engine/src/run-state.js:306-316 | finishing a compensated attempt again leaves two live attempts |
| `RunHistory.BindingNamesRunPlanAndPolicy` | packages/engine/src/run-state.js:47-49 | the receipt digest is equal if and only if run id, plan and policy are, as long as ids and plans hold no NUL |
| `RunHistory.ReceiptIsNewestApproval` | packages/engine/src/run-state.js:275 | the receipt consulted is the last approved one, and there is none only if nothing was approved |
| `RunHistory.WaitingSideEffectNeedsOwnReceipt` | packages/engine/src/run-state.js:272-292 | a side effect leaves awaiting_approval only on an approved, unexpired receipt made for this run, plan and policy |
| `RunEffects.ApprovedIff` | packages/engine/src/run-state.js:272-281 | a run is approved exactly on a newest approving receipt that has not expired and names this run, plan and policy |
| `RunEffects.ApproveMeans` | packages/engine/src/run-state.js:256-270 | an approval call adds one receipt for this run, plan and policy, exactly when the run waits, has both revisions, those given match and the expiry is a time |
| `RunEffects.DecisionsTakeEffect` | packages/engine/src/run-state.js:256-281 | after an approval the run is approved until its expiry; a rejection takes no earlier approval back |
| `RunHistory.ExpiryIsKeptIff` | packages/engine/src/run-state.js:265 | an accepted expiry takes effect as asked if and only if its text has at most 100 characters or reads as the same time when cut to 100 |
| `RunHistory.LongExpiryNeverExpires` | packages/engine/src/run-state.js:264-277 | an accepted approval whose expiry text reads as no time once cut leaves the run approved at every later time |
| `JsonRoundTrip.StringRoundTrip` | packages/engine/src/plugin-manifest.js:13 | every string, lone surrogates included, is parsed back from its printed form, whatever follows |
| `JsonRoundTrip.RoundTrip` | packages/engine/src/plugin-manifest.js:12-17 | parsing undoes printing on every JSON value with anything that cannot extend a number behind it |
| `JsonRoundTrip.PrintInjective` | packages/engine/src/plugin-manifest.js:12-17 | two JSON values with equal printed text are equal |
| `JsonForm.SingleUnit` | packages/engine/src/plugin-manifest.js:13 | how each code unit is printed: short escapes for quote, backslash, b, t, n, f and r, four lower-case hexadecimal digits for other controls and lone surrogates, anything else as it is |
| `JsonForm.SurrogatePair` | packages/engine/src/plugin-manifest.js:13 | a surrogate pair is printed as it is |
| `JsonForm.EscapeIsPiecewise` | packages/engine/src/plugin-manifest.js:13 | strings are printed piece by piece unless a surrogate pair is torn apart |
| `JsonForm.ItemsAreSeparated` | packages/engine/src/plugin-manifest.js:14 | items are printed in order with single commas between them |
| `JsonForm.FieldsAreSeparated` | packages/engine/src/plugin-manifest.js:16 | fields are printed in order with single commas between them |
| `JsonForm.OneOfEach` | packages/engine/src/plugin-manifest.js:13-16 | brackets, braces, quotes and colons around one item, field or string |
| `JsonCanonical.SortFieldsSorts` | packages/engine/src/plugin-manifest.js:15 | sorting keeps exactly the printable fields and leaves them in strictly ascending key order |
| `JsonKeyOrder.PrintedInOrder` | packages/engine/src/plugin-manifest.js:15-16 | printed keys ascend: by code units, and in cache arguments the array indices first by number; each printable field once |
| `JsonKeyOrder.SignedKeysAscend` | packages/engine/src/plugin-manifest.js:15-16 | of two printed keys of a manifest or policy, the first ends where they part or has the smaller unit there |
| `JsonKeyOrder.ArrayIndexMeans` | packages/engine/src/tool-cache.js:35-37 | the keys a copied object moves to the front are the decimal numerals without leading zeros up to 2^32 - 2 |
| `JsonCanonical.CanonicalJsonSortsThenPrints` | packages/engine/src/plugin-manifest.js:12-17 | printing while sorting equals sorting the whole value first and printing afterwards |
| `JsonCanonical.SignedTextIsInjective` | packages/engine/src/plugin-manifest.js:12-17 | signed canonical text is equal if and only if the values are equal up to object key order |
| `JsonCanonical.EqualTextIffSameValue` | packages/engine/src/tool-cache.js:32-44 | cache key text is equal if and only if the values are equal up to key order and to the `__proto__` keys the copy drops; for the other printers without that exception |
| `JsonCanonical.SortedEqualIffSame` | packages/engine/src/device-registry.js:31-35 | canonical values are equal if and only if the values are equal up to key order, at every depth |
| `JsonCanonical.ProtoCollides` | packages/engine/src/tool-cache.js:32-40 | an argument object with only a `__proto__` key has the cache key text of the empty object, while its signed text differs |
| `BraceScanner.ExtractBalancedJson` | packages/engine/src/loop.js:29-44 | the result is the shortest prefix from the start position whose depth outside strings returns to zero, or nothing if there is none |
| `BraceScannerUndoes.ScanUndoesPrint` | packages/engine/src/loop.js:29-44 | for every JSON object and every text behind it, the extracted prefix is exactly the printed object |
| `BraceScannerUndoes.ValueIsNeutral` | packages/engine/src/loop.js:31-42 | scanning any printed value ends at the depth it started from and never closes the surrounding object |
| `ToolCache.CacheableFilesDoNotMutate` | packages/engine/src/tool-cache.js:87-99 | a cacheable files call is never one that invalidates |
| `ToolCache.ArgumentByKey` | packages/engine/src/tool-cache.js:87-99 | argument objects with one key text give the same text for every argument name |
| `ToolCache.SameKeySameDecision` | packages/engine/src/tool-cache.js:87-99 | argument objects with one key text are cacheable alike and invalidate alike |
| `ToolActions.MutatingMeans` | packages/engine/src/loop.js:465-468 | a files call drops stored answers exactly when its action spells write or delete, in letters of either case |
| `ToolActions.CacheableFilesMeans` | packages/engine/src/tool-cache.js:94-97 | a files call is cacheable exactly when its action spells list, stat or read, or is missing or empty |
| `ToolActions.OtherToolsCacheable` | packages/engine/src/tool-cache.js:87-93 | of the other tools sysinfo and web are cacheable, net unless its method spells POST, and no further one |
| `ToolActions.OddActions` | packages/engine/src/tool-cache.js:94-97 | an action that is a list of several values, a number other than zero, an object or true neither is cacheable nor drops anything |
| `ToolActions.ListsAreJoined` | packages/engine/src/tool-cache.js:95 | the text of a list argument is that of its items with commas between them |
| `ToolCache.ToolCache.Get` | packages/engine/src/tool-cache.js:101-112 | a hit is the result of an unexpired entry of that key; a miss on a cacheable call means every such entry has expired; other entries stay |
| `ToolCache.ToolCache.Set` | packages/engine/src/tool-cache.js:114-130 | the new entry replaces the one of its key; nothing expired stays; what else goes is oldest first and only at a full cache |
| `ToolCache.ToolCache.InvalidateTool` | packages/engine/src/tool-cache.js:139-147 | drops exactly the entries of one tool and reports how many |
| `ToolCache.ToolCache.Prune` | packages/engine/src/tool-cache.js:154-165 | drops the expired entries, then the oldest until the cap holds, and none without need |
| `CachedLoop.SameKeySameAnswer` | packages/engine/src/tool-cache.js:42-44 | argument objects with one key text get one answer from a tool that reads its arguments by key |
| `CachedLoop.Loop.RunTool` | packages/engine/src/loop.js:453-476 | the step of one call of any tool: a hit answers from the cache without calling the tool, a miss calls the tool and stores a good answer, any other call goes to the tool, and a successful files write or delete drops what is stored of files |
| `CachedLoop.StaysFreshIff` | packages/engine/src/loop.js:463-471 | after any call of any tool on current answers, the stored answers are current if and only if the call dropped them or changed none of them |
| `CachedLoop.Loop.RunCurrent` | packages/engine/src/loop.js:453-476 | on current answers one call changes the files as the tool itself would, and answers so when its answers are promised current (files, and every tool whose answers are not cached) |
| `CachedLoop.Loop.RunAll` | packages/engine/src/loop.js:453-476 | over every history whose calls are harmless (they drop the stored answers or change no answer that can be stored), of all tools, clock values and cache sizes, the promised outcomes and the final file state are those without a cache |
| `CachedLoop.TidyIsHarmless` | packages/engine/src/loop.js:465-468 | calls of any tool that change no files, and successful files calls with the action write or delete, are harmless |
| `CachedLoop.WriteDropsFiles` | packages/engine/src/loop.js:463-468 | after a successful files call with the action write or delete no answer of files is stored, and every other answer still is |
| `CachedLoop.OtherActionsDropNothing` | packages/engine/src/loop.js:465-468 | a files call that fails, or has a further action, leaves the cache as it is |
| `CachedLoop.RunTidy` | packages/engine/src/loop.js:453-476 | in every history in which files change only by successful files calls with the action write or delete, every promised answer and the files are those without a cache |
| `CachedLoop.ReadWriteRead` | packages/engine/src/loop.js:463-468 | a read, a successful write or delete and the same read again: the second read gets the current answer |
| `CachedLoop.ReadActRead` | packages/engine/src/loop.js:453-476 | a files read, any call of any tool and the same read again within its time to live: the second read gets what the tool would answer if and only if that call drops the stored answers or leaves this one as it was |
| `CachedLoop.ServedWhileYoung` | packages/engine/src/tool-cache.js:101-130 | a new answer is served for the same key text exactly while its age is at most 30 s for files, 60 s for sysinfo and 5 minutes for web and net |
| `CachedLoop.Loop.RunAny` | packages/engine/src/tool-cache.js:101-112 | over every history from an empty cache, whatever the calls do: each answer is the tool's own, or the one it gave to an earlier call of the same key text at most its time to live ago, with no successful files write or delete in between |
| `StaleReads.RenameGoesUnseen` | apps/desktop/src/tools/files.js:247-254 | list, rename from one name to another, list: the second list still shows the old name |
| `StaleReads.ShellGoesUnseen` | packages/engine/src/loop.js:463-468 | list, a shell command that renames, list: the second list still shows the old name |
| `Cortex.PointerNamesId` | packages/engine/src/cortex.js:104-110 | the id read back from a pointer is the id it was made with |
| `Cortex.PointerTells` | packages/engine/src/cortex.js:104-110 | a pointer says the id, the length in decimal and the role, and ends with the preview |
| `Cortex.PreviewShowsBothEnds` | packages/engine/src/cortex.js:70-77 | a preview is the text itself up to 240 characters, else 240 characters with its beginning and its end around the mark |
| `Cortex.PointerAddsLevel` | packages/engine/src/cortex.js:102-110 | recovering through a new pointer equals recovering the text it replaced, one level deeper |
| `Cortex.UncappedStoreGrows` | packages/engine/src/cortex.js:27-45 | without a cap, storing loses nothing and the text is found under its id |
| `Cortex.ArchiveRecordsOffers` | packages/engine/src/cortex.js:27-45 | over every history without a cap: an id is archived exactly when offered, with its first text, its last time and the number of its offers |
| `Cortex.EvictsByAgeIff` | packages/engine/src/cortex.js:37-43 | what a full archive evicts was stored no later than anything left if and only if the entry made first is also the one stored longest ago |
| `Cortex.StoreKeepsAgeOrderIff` | packages/engine/src/cortex.js:30-43 | storing keeps the entries in the order of their last storing if and only if the text is new or nothing made after it was stored before now |
| `Cortex.WithoutRepeatsEvictsByAge` | packages/engine/src/cortex.js:27-45 | over every history on an ordered clock in which no archived text is offered again, every eviction is by age |
| `Cortex.RefreshDoesNotProtect` | packages/engine/src/cortex.js:38-42 | room for two; a, b, a again, then c: a goes although b was stored longest ago |
| `Cortex.Cortex.Store` | packages/engine/src/cortex.js:27-45 | the id, length and dedupe flag of the text, and the whole new archive |
| `Cortex.Cortex.Recall` | packages/engine/src/cortex.js:48-53 | the full stored text or nothing; no text changes |
| `Conversation.ArchivedLeadsBack` | packages/engine/src/cortex.js:101-111 | archiving one message keeps every message of the conversation recoverable |
| `Conversation.CollisionLosesText` | packages/engine/src/cortex.js:29-35 | under a digest collision the pointer leads back if and only if the archived text is the same |
| `Conversation.Conversation.Say` | packages/engine/src/loop.js:312-334 | appends one message and keeps all others recoverable |
| `Conversation.Conversation.ArchiveOne` | packages/engine/src/cortex.js:102-111 | one message becomes a pointer to its archived text |
| `Conversation.Conversation.Compact` | packages/engine/src/cortex.js:87-116 | compresses if and only if over the budget; message count and roles stay; the first two and last six are verbatim; all others become pointers |
| `Conversation.SizeIsSum` | packages/engine/src/cortex.js:91-93 | the size compared with the budget is the sum of the message lengths |
| `Conversation.Conversation.Run` | packages/engine/src/loop.js:317-334 | after any interleaving of messages and compactions every original message is recovered in full by following its pointers |
| `TaskQueue.StepKeepsInv` | apps/desktop/src/taskqueue.js:21-80 | every step between two points where other code can run keeps the queue invariant |
| `TaskQueue.EnqueueMeans` | apps/desktop/src/taskqueue.js:21-38 | an enqueue appends one job under its id exactly when the id is unknown and waiting plus running is below the limit; else nothing changes |
| `TaskQueue.StartMeans` | apps/desktop/src/taskqueue.js:60-62 | only the loop starts jobs, and always the one that waited longest |
| `TaskQueue.CancelOfWaiting` | apps/desktop/src/taskqueue.js:48-53 | cancelling a waiting job takes exactly it out of the queue, frees its id and records it |
| `TaskQueue.CancelOfRunning` | apps/desktop/src/taskqueue.js:44-47 | cancelling the running job signals exactly that job and changes nothing else |
| `TaskQueue.CancelOfOther` | apps/desktop/src/taskqueue.js:42-49 | cancelling any other id changes nothing |
| `TaskQueue.CancelledNeverStarts` | apps/desktop/src/taskqueue.js:48-62 | from the cancel of a waiting job on, no continuation starts it |
| `TaskQueue.QueueIsSerial` | apps/desktop/src/taskqueue.js:21-80 | over every interleaving of enqueue, cancel, completion, re-entrant listeners and listeners that throw: started jobs are the accepted ones minus those withdrawn while waiting, in acceptance order, each once; at most maxSize; the job table is waiting plus running plus the jobs lost to a throw |
| `TaskQueue.StepServesIff` | apps/desktop/src/taskqueue.js:35-79 | a step leaves the waiting jobs served if and only if it is no throw that strands them: out of the loop with jobs waiting and no enqueue call under way, or out of the last such call with jobs waiting and no loop |
| `TaskQueue.AlwaysServedIff` | apps/desktop/src/taskqueue.js:21-80 | over every history a waiting job has a live drain loop, or an enqueue call about to start one, at every moment if and only if no step strands the waiting jobs |
| `TaskQueue.LostIff` | apps/desktop/src/taskqueue.js:63-79 | a job is lost exactly when a listener throws out of its run, before it has left the table |
| `TaskQueue.LostIdIsRefused` | apps/desktop/src/taskqueue.js:25-54 | the id of a lost job is refused and cannot be cancelled in any continuation |
| `TaskQueue.ThrowingListenerStrandsQueue` | apps/desktop/src/taskqueue.js:63-79 | a run from the empty queue in which a listener throws out of a run: one job stranded, one lost |
| `TaskQueue.ThrowingQueuedListenerStrandsJob` | apps/desktop/src/taskqueue.js:32-37 | a run of two events in which a listener of `queued` throws: the job waits and nothing will take it |
| `TaskQueue.TaskQueue.Enqueue` | apps/desktop/src/taskqueue.js:21-38 | accepted if and only if the id is unknown and there is room; whole new state |
| `TaskQueue.TaskQueue.Drain` | apps/desktop/src/taskqueue.js:56-60 | a second loop never starts; whole new state |
| `TaskQueue.TaskQueue.Settle` | apps/desktop/src/taskqueue.js:64-73 | the finished job leaves the table; whole new state |
| `TaskQueue.TaskQueue.Continue` | apps/desktop/src/taskqueue.js:73-80 | after `done` the loop goes on; whole new state |
| `TaskQueue.TaskQueue.LeaveLoop` | apps/desktop/src/taskqueue.js:76-79 | what the `finally` of the loop does after a throw; whole new state |
| `TaskQueue.TaskQueue.Cancel` | apps/desktop/src/taskqueue.js:41-54 | answers true exactly for the id of a waiting job or of the one in its run; whole new state |
| `TaskDedupe.TaskDedupe.EnqueueTask` | apps/desktop/src/agent.js:325-338 | passes an id on if and only if the full history has no pass of it within a minute, although old entries are forgotten |
| `TaskDedupe.PassedOnAMinuteApart` | apps/desktop/src/agent.js:325-354 | two passes of one run id are at least 60 s apart, in every ordered sequence of arrivals |
| `TaskDedupe.PassedOnIff` | apps/desktop/src/agent.js:328-333 | an arrival is passed on if and only if no earlier pass of its id lies less than 60 s back |
| `TaskDedupe.Filter` | apps/desktop/src/agent.js:325-338 | the forgetting filter and the full-history filter decide every arrival alike |
| `WorkerPool.PoolIsExact` | packages/engine/src/delegate.js:133-144 | over every interleaving: one worker per index, at most pool in flight, results[i] is the outcome of tasks[i], and all results are in once a worker has stopped and none is busy |
| `WorkerPool.PoolTerminates` | packages/engine/src/delegate.js:133-144 | every step brings the pool closer to its end, and a live worker can always step |
| `WorkerPool.RunSubtasks` | packages/engine/src/delegate.js:133-145 | under any scheduler the pool ends with every outcome at its own index |
| `GoalRounds.StepKeepsInv` | apps/desktop/src/agent.js:1295-1358 | every event of a goal keeps the round invariant and the cap |
| `GoalRounds.Clamp` | packages/engine/src/goal.js:36 | the cap is the requested one within 1 to 16, the nearest of these outside, and 8 when none is asked for |
| `GoalRounds.StartMeans` | apps/desktop/src/agent.js:1295-1302 | a new goal is active, has nothing recorded, and round 1 waits |
| `GoalRounds.FinalizeMeans` | apps/desktop/src/agent.js:1322-1352 | a finished round of an active goal completes it, or queues exactly the next round of its chain below the cap, or blocks it at the cap |
| `GoalRounds.LateRoundIsIgnored` | apps/desktop/src/agent.js:1324-1325 | a round that finishes after the goal ended only leaves the queue |
| `GoalRounds.ResumeMeans` | apps/desktop/src/agent.js:1304-1311 | a resume starts one chain with the round after those completed, exactly for an active goal below its cap |
| `GoalRounds.GoalRecordsItsRounds` | packages/engine/src/goal.js:169-184 | over every run the goal keeps the last rounds that finished while it was active, up to the cap, and counts them up to one more |
| `GoalRounds.RoundsAreBounded` | apps/desktop/src/agent.js:1295-1358 | with cap m and k resumes at most m * (1 + k) rounds are ever enqueued, each chain counting up one by one and never past m |
| `GoalRounds.DrainedGoalHasEnded` | apps/desktop/src/agent.js:1322-1352 | if no round is lost and nobody sets the status, a goal whose rounds are all done is complete or blocked |
| `GoalRounds.CapEndsTheGoal` | apps/desktop/src/agent.js:1340-1352 | the round at the cap ends the goal complete or blocked and enqueues nothing |
| `GoalRounds.InactiveGoalRests` | apps/desktop/src/agent.js:1313-1325 | over every sequence that does not set the status back to active, a goal that is not active records nothing and enqueues nothing |
| `GoalRounds.RoundsRunOut` | apps/desktop/src/agent.js:1322-1352 | every finished or lost round leaves strictly less to come, so a chain ends |
| `GoalRounds.GoalDriver.StartGoal` | apps/desktop/src/agent.js:1295-1302 | an active goal with round 1 enqueued |
| `GoalRounds.GoalDriver.EnqueueGoalRound` | apps/desktop/src/agent.js:1313-1320 | a round is enqueued only for an active goal; whole new state |
| `GoalRounds.GoalDriver.ResumeGoal` | apps/desktop/src/agent.js:1304-1311 | refused unless active and below the cap; whole new state |
| `GoalRounds.GoalDriver.FinalizeGoalRound` | apps/desktop/src/agent.js:1322-1358 | records the round and completes, blocks or continues; whole new state |
| `RateLimiter.ForgettingIsInvisible` | packages/engine/src/policy.js:340 | dropping hits outside an early window does not change any later window |
| `RateLimiter.SinceCountsMinute` | packages/engine/src/policy.js:339-341 | the kept hits are as many as the accepted calls of the last minute |
| `RateLimiter.LimitMeans` | packages/engine/src/policy.js:337 | a tool has the limit of its own rule, else that of the rule for every tool, else none |
| `RateLimiter.RateLimiter.Allow` | packages/engine/src/policy.js:336-348 | accepts if and only if the tool is unlimited or fewer than its limit of calls were accepted in the last 60 s of the whole past; other tools untouched; no minute of the past ever holds more accepted calls of a tool than its limit |
| `RateLimiter.RoomKeepsWithinLimit` | packages/engine/src/policy.js:340-347 | a call that has room in its window fits into every minute it falls into, wherever the minute starts |
| `RateLimiter.Serve` | packages/engine/src/policy.js:329-349 | on a nondecreasing clock, for any interleaving of tools and from any past, the limiter that forgets decides every request as one with full memory, and no 60 s window holds more accepted calls of a tool than its limit |
| `Cidr.InNet` | packages/engine/src/policy.js:128-156 | the byte-and-mask loop is true if and only if the addresses, as integers, agree after division by 2^(width - bits) |
| `Cidr.BytesAgreeIffPrefixesDo` | packages/engine/src/policy.js:137-144 | equal full bytes and equal masked bytes is the same as equal integer prefixes |
| `Cidr.MaskComparesUpperBits` | packages/engine/src/policy.js:141-142 | masked bytes are equal if and only if their upper bits are |
| `Cidr.NetworksNestOrAreDisjoint` | packages/engine/src/policy.js:110-156 | two networks are nested or share no address |
| `ContextBudget.SplitIsWhole` | apps/desktop/src/context.js:76-87 | prefix, markers, body and suffix make up the block again |
| `ContextBudget.MarkersMatch` | apps/desktop/src/context.js:58-83 | the opening piece has the marker form and the closing piece is its own closing marker |
| `ContextBudget.OpenMarkerMeans` | apps/desktop/src/context.js:58 | an opening marker is found exactly where the fixed words, a name and the bracket stand |
| `ContextBudget.SplitMeans` | apps/desktop/src/context.js:78-84 | a block has a marker pair exactly when its first opening marker is closed by its own closing one later on |
| `ContextBudget.TruncateKeepingMarkers` | apps/desktop/src/context.js:76-97 | the cut block: everything, the markers with a shortened body, the bare markers, or a plain cut |
| `ContextBudget.TruncatedLength` | apps/desktop/src/context.js:76-97 | the length of a cut block is its cap, or its marker overhead where that alone is more |
| `ContextBudget.TruncatedKeepsMarkers` | apps/desktop/src/context.js:76-97 | a cut keeps prefix, both markers and suffix, and a beginning of the body |
| `ContextBudget.PlainCutKeepsFront` | apps/desktop/src/context.js:79-84 | a block without a marker pair keeps its beginning |
| `ContextBudget.WithinCapIff` | apps/desktop/src/context.js:76-97 | a block ends within its cap if and only if it already did, has no marker pair, or its overhead fits; a cut block within its cap fills it |
| `ContextBudget.BuildContext` | apps/desktop/src/context.js:107-163 | the prompt is the fitted and back-cut blocks in order; the reported sizes add up to its length for every input; exactly the shortened names are reported |
| `ContextBudget.JoinIsPiecewise` | apps/desktop/src/context.js:160 | the prompt is the texts of its blocks one after the other |
| `ContextBudget.CutsAreReported` | apps/desktop/src/context.js:140-158 | every block that the cuts from the back change is reported as truncated, and they report no block but those three, none that was empty, and none without need |
| `ContextBudget.LeastImportantGoesFirst` | apps/desktop/src/context.js:140-158 | memory is cut first, then sessions, then vector, each only while the prompt is too long, and no other block |
| `ContextBudget.CutIsTight` | apps/desktop/src/context.js:145-156 | a cut that suffices leaves a prompt of exactly the total |
| `ContextBudget.FittingIsExact` | apps/desktop/src/context.js:107-163 | if every overhead fits its cap, nothing is cut from the back, the prompt is within the total, and each cut block has exactly its cap |
| `ContextBudget.CutFitsIff` | apps/desktop/src/context.js:140-158 | one cut from the back brings a prompt over the total down to it if and only if the other blocks fill the total exactly, or leave room for its markers (any room, when it has none) |
| `ContextBudget.PromptFitsIff` | apps/desktop/src/context.js:107-163 | for every input the prompt is within the total if and only if the fitted blocks are, or one of the three cuts from the back suffices at its turn |
| `ContextBudget.LongTailOverflows` | apps/desktop/src/context.js:136-158 | a concrete family that no cut can save: rules with an empty untrusted part and a long tail |

## Left out

- Digests: SHA-256 and SHA-1, truncated or not. The audit digest and the approval binding are injective constructors, the tool cache's key is the canonical text itself, and the archive's digest is any function into 24 characters (`Conversation.CollisionLosesText` says what a collision does).
- Files, locks on disk, processes, network, terminal, HTTP, adapters, consoles and the CLI: input and output.
- AuditWriters: a writer that crashes between two steps, and a line torn by a crash; stolen locks and writers without a lock appear only as the source of forks.
- AuditVerify: `hash` and `prev` fields that are arrays or objects, numbers written as strings in `seq`, key order inside a record, and white space such as a byte order mark that trimming removes but the JSON parser refuses.
- AuditExplain.ExplainChain: input given as an array of entries, and the evidence field that says whether the file ends in a newline.
- RunStore.RunStore.Reload: which 500 runs a save retains (newest first by time stamp) is given, because time stamps are left out.
- RunStore: loading a file at construction, the shared instance per path, the correlation id, `list`, `recoverable`, `remove` and argument coercion.
- RunHistory.RollbackRestoresChosenPoint: recovery points are identified by position, because their `index` field repeats after a hundred entries.
- RunHistory.ExpiryIsKeptIff: `Date.parse` itself; an expiry carries the times read from its text and from the cut text.
- Json: undefined, NaN and negative zero, and values with a `toJSON` method; a number is its printed digits.
- ToolCache.ToolCache.Set: persistence to a file, values shared between the cache and its callers, `invalidate`, `clear` and `stats`.
- ToolActions.MutatingMeans: actions given as arrays, numbers or booleans are modelled, but their meaning is stated for texts only.
- CachedLoop.Loop.RunTool: the `files` tool is assumed to change nothing on list, stat and read, and to read its arguments by key; tools other than files whose answers are cached (sysinfo, web, net) to change no files; files changed by others than this loop; answers of those other tools may age by their time to live; tool functions that throw; sub-agent loops, which have a cache of their own.
- Cortex: the 60/40 split of the preview is computed in integers; metadata, `sizeOf` and `stats`; `compactMessages`, which drops text by design.
- Conversation.Conversation.Compact: no bound on the compacted size, because pointers to short texts are longer than the texts.
- TaskQueue.TaskQueue.Enqueue: the returned queue length (accepted or not is modelled) and the job's payload; of a job's abort controller only whether it was signalled.
- TaskDedupe: the run id made up when none is given; the clock never runs backwards.
- WorkerPool: what a sub-loop does (each index has one outcome, errors included), and a pool size that is no whole number.
- GoalRounds: one goal at a time; summaries, tokens, prompt texts, `parseGoalMarker`, and caps that are no whole number.
- RateLimiter: limits that are no whole number.
- Cidr.InNet: parsing of address text, the exact-match shortcut, and entries without an explicit prefix length.
- ContextBudget.BuildContext: coercion of values that are no strings, and `summarizeBudget`.
- Policy rules and their regular expressions, vector and memory scoring, upgrade, package life cycle, workflow, budget and metrics: they would add only easier members.
