# Verified model of the sidecar's state layer and algorithms

This project models, in Dafny, the parts of the MCP sidecar for Nodel whose correctness its hashes,
approvals, backups and audit log depend on, and proves what they promise.

1. **Guarded writes.** `WriteLocks` (keyed promise-chain lock), `Approvals` (approval store),
   `AuditTrail`, `AuditedMutation` (one audited remote call), `AuditLog` (log rotation with crashes
   between and inside file steps), `BackupNames` and `Backups` (file names, pruning),
   `GuardedWrites` (any interleaving of whole write tasks, other resources' turns and restarts of
   the process) and `WriteProtocol` (the same with the real planners).
2. **Canonical JSON and planning.** `Wrappers`, `JsText`, `JsonTree`, `CanonicalJson` (printer, parser,
   normal form), `CanonicalForm` (which text is printed), `CanonicalGraph` (the recursive printer with
   its ancestor set on heap graphs), `ConfigPlanner` (merge, path removal), `WriteApproval` (what a
   proposal hash pins down), `ApprovalText` (the text it is taken of), `BindingPlanner` (context and
   direct plans against the later apply) and `BindingResults` (what plans do, at literal paths).
3. **Algorithms against specifications.** `EditDistance`, `PythonScanner`, `TextEdits`, `Base64`.
4. **Small concurrent machines.** `Sessions` (session capacity) and `StartupLock` (lock file).

Code that changes state step by step is a class or a loop proved against a function on values; what
the source promises is proved about that function. Concurrency is a state machine whose turns run
from one `await`, or from one file step, to the next, and the results hold for every interleaving.
SHA-256 is an arbitrary injective function, file systems are maps from names to contents, the remote
node is a value that a request replaces, and clocks and identifiers are inputs.

Where a promise holds only under a condition, the condition is exact:

- A backup's operation id is read back from the file name exactly if its base64url text does not end
  in `-`. An ASCII id whose length is a multiple of three and whose last character is `~` or `>` loses
  that character. Its backup outlives every run in which the log does not close the operation exactly
  if the id does not end that way; otherwise a run that closes the shorter id prunes it. Random UUIDs
  are safe.
- Among ASCII node names, a pruning counts another node's backup as its own exactly if its node's name,
  made safe for files, is a tail of the backup's file name, and leaves all others alone. The test for
  older file names takes the backups of "foo" for those of a node named "node_b64_Zm9v".
- The caller of an audited call hears "ambiguous" exactly when the log leaves the operation open,
  except when the remote call itself throws the audit-failure error, or the operation id is empty.
- `deepMerge` associates, up to the canonical text, exactly if wherever a present non-record stands
  between two records every defined member of the first is present in the last, and so on below. With
  a non-empty record, `null` and an empty record it does not.
- A proposed binding plan gets the approval hash of the later apply exactly if the current bindings
  have both groups as records and no proposed slot holds a record with other keys.
- Replacing one match and replacing all matches agree, for every text with one match, exactly if the
  new text holds no `$` pattern.
- From a directory without a lock file, startup calls of processes that stay alive exclude each other
  in every interleaving, if each lasts less than some bound, exactly if the bound is at most the grace
  period. It is not enough that writers finish in time: a reader that stalls between reading an
  unfinished file and asking for its age takes a living process's lock. Calls that do not overlap
  always exclude each other; two overlapping calls over a dead process's lock need not, however short
  they are.

## Model

| member | source | states |
|---|---|---|
| CanonicalJson.ParseStableText | src/shared/canonicalJson.ts:8-50 | parsing the canonical text of any tree gives its normal form: members sorted, undefined members dropped, undefined slots and non-finite numbers null, no minus zero |
| CanonicalJson.PrintAlikeIffSameNorm | src/shared/canonicalJson.ts:8-50 | two values print alike exactly if their normal forms are equal |
| CanonicalJson.NormFixesNormal | src/shared/canonicalJson.ts:3-7 | the normal form changes exactly the values that are not normal, so it is a normal form |
| CanonicalJson.SameNormIffSameLookups | src/shared/canonicalJson.ts:39-46 | records have one normal form exactly if every key leads to the same normal value: member order is the only thing forgotten |
| CanonicalJson.SameHashIffSameNorm | src/shared/canonicalJson.ts:12-14 | under an injective hash, hashes agree exactly if normal forms do |
| CanonicalJson.NormOfClone | src/domain/config/planner.ts:60-62 | a JSON copy of a defined value has the same normal form |
| CanonicalJson.StringRoundTrip | src/shared/canonicalJson.ts:25 | reading back a quoted string, in the form of section 7 of RFC 8259, gives all its code units, escapes included |
| CanonicalJson.NumberRoundTrip | src/shared/canonicalJson.ts:26 | a number token followed by a delimiter is read back whole |
| CanonicalForm.StringTextIsShortest | src/shared/canonicalJson.ts:25 | the printed string is the only shortest text that reads as the string, survives as UTF-8 and has lower-case escapes |
| CanonicalForm.EscapesRead | src/shared/canonicalJson.ts:25 | the reading that this speaks of knows the two-character escapes of section 7 of RFC 8259 |
| CanonicalForm.LongReads | src/shared/canonicalJson.ts:25 | it reads a backslash, "u" and four hexadecimal digits as the code unit of that number |
| CanonicalForm.RawReads | src/shared/canonicalJson.ts:25 | it reads every unit but controls, the quote and the backslash as itself |
| CanonicalForm.StringsAndArrays | src/shared/canonicalJson.ts:36-38 | strings and arrays have JSON's punctuation |
| CanonicalForm.RecordText | src/shared/canonicalJson.ts:39-46 | two members given out of order print in key order, with JSON's punctuation |
| CanonicalForm.UndefinedMember | src/shared/canonicalJson.ts:44 | an undefined member leaves no trace |
| CanonicalForm.SampleText | src/shared/canonicalJson.ts:23-50 | one whole text in literal characters, with minus zero, a non-finite number and undefined in it |
| JsonTree.SortedUnique | src/shared/canonicalJson.ts:40-41 | sorted member lists with the same members are equal, so key order fixes the text |
| JsText.LessTotal | src/shared/canonicalJson.ts:41 | the code-unit order of keys, that of section 3.2.3 of RFC 8785, is total |
| JsText.LessAtFirstDifference | src/shared/canonicalJson.ts:41 | it is decided by the code units at the first difference, or by which string ends there |
| CanonicalGraph.Printer.Stringify | src/shared/canonicalJson.ts:23-50 | on any finite object graph the recursion ends, returns the specified outcome and leaves the ancestor set as it was, also when it throws |
| CanonicalGraph.Printer.StringifyItems | src/shared/canonicalJson.ts:36-38 | the same for array slots, with undefined slots as null and the first throw ending the loop |
| CanonicalGraph.Printer.StringifyMembers | src/shared/canonicalJson.ts:39-46 | the same for sorted members, leaving out undefined ones |
| CanonicalGraph.StableStringify | src/shared/canonicalJson.ts:8-10 | throws exactly if a cycle or an unsupported value is reachable; otherwise prints the tree the graph unfolds to |
| CanonicalGraph.ThrowsExactlyOnTrouble | src/shared/canonicalJson.ts:28-32 | the printer throws exactly if a path of members leads to a cycle or an unsupported value |
| CanonicalGraph.PrintsTheUnfoldedTree | src/shared/canonicalJson.ts:34-46 | shared but acyclic graphs print as their unfolded tree |
| CanonicalGraph.UnfoldsOnce | src/shared/canonicalJson.ts:23-50 | a graph unfolds to at most one tree |
| CanonicalGraph.UnfoldedIsAcyclic | src/shared/canonicalJson.ts:32 | what unfolds reaches no cycle |
| ConfigPlanner.Merge | src/domain/config/planner.ts:31-36 | the loop over patch entries computes the recursive merge |
| ConfigPlanner.MergeLookup | src/domain/config/planner.ts:31-36 | at every path the merge holds the merged patch, or the base where the patch does not touch the path, or nothing |
| ConfigPlanner.MergeIdempotent | src/domain/config/planner.ts:31-36 | applying a patch twice equals applying it once |
| ConfigPlanner.MergeAssociativeIff | src/domain/config/planner.ts:31-36 | the two ways of merging three values print alike exactly if, wherever two records have a present non-record between them, the last has every defined member of the first, recursively |
| ConfigPlanner.MergeAddsNothing | src/domain/config/planner.ts:31-36 | merging a patch into a base prints like the patch alone exactly if the patch has every defined member of the base, recursively |
| ConfigPlanner.NoHiddenRecordAssociates | src/domain/config/planner.ts:31-36 | if no path has records on both outer values and a present non-record in the middle one, the two merges are equal, member order included |
| ConfigPlanner.MergeNotAssociative | src/domain/config/planner.ts:31-36 | a record with one member, null and an empty record merge to different canonical texts |
| ConfigPlanner.ApplyRemovePaths | src/domain/config/planner.ts:38-44 | the loop gives the object without the paths, and the missing ones in list order |
| ConfigPlanner.RemoveAllIsWithout | src/domain/config/planner.ts:38-58 | removing paths one by one equals one traversal that leaves out the listed set |
| ConfigPlanner.RemovalOrderIrrelevant | src/domain/config/planner.ts:38-58 | the result does not depend on order or repetition of the paths |
| ConfigPlanner.WithoutLookup | src/domain/config/planner.ts:46-58 | a path survives exactly if no listed path is a prefix of it, with a subtree that lacks only what is listed below it |
| ConfigPlanner.MissingExactly | src/domain/config/planner.ts:38-58 | a path is reported missing exactly if it is empty, absent from the merged object, or covered by an earlier listed path |
| ConfigPlanner.MergeRespectsNorm | src/domain/config/planner.ts:31-36 | bases with one canonical text merge with a patch to one canonical text |
| ConfigPlanner.PlannedHashes | src/domain/config/planner.ts:8-29 | without removals the planned hash is that of the merge, although the value is copied through JSON text |
| ConfigPlanner.PlanExactly | src/domain/config/planner.ts:8-44 | for either mode and any removals: refused exactly for another expected hash or a value without JSON text; otherwise next is a JSON copy of the requested value without the listed paths, with its hash, the current hash and the missing paths |
| ConfigPlanner.ReplanProposesNoChange | src/domain/config/planner.ts:8-29 | planning the same patch on the written result proposes no change |
| WriteApproval.ProposalHashPins | src/domain/config/writes.ts:310-316 | proposals have one hash exactly if operation, target, mode, both state hashes, removed paths, and the patch up to its normal form under its key agree |
| WriteApproval.PayloadPins | src/domain/bindings/approval.ts:1-15 | payloads have one normal form, and so one text, exactly if mode, both state hashes, removed paths and the patch under its key agree, for parameters and bindings |
| WriteApproval.PathsInLiterals | src/domain/config/planner.ts:40 | removed paths are hashed as lists of names, in order |
| ApprovalText.ProposalText | src/domain/config/writes.ts:310-316 | the hashed text is {"operation":...,"payload":...,"target":...} in literal names and order |
| ApprovalText.PayloadText | src/domain/bindings/approval.ts:1-15 | its payload's text holds the patch first as "bindings" or last as "values" |
| ApprovalText.RestText | src/domain/bindings/approval.ts:8-14 | and between them "currentHash", "mode" with merge or replace, "nextHash" and "removePaths" |
| BindingPlanner.ContextDraft | src/domain/bindings/contextualPlanner.ts:133-173 | the loops over kinds and schema names, with their tests of name, binding, score and margin, compute the specified lists and next bindings |
| BindingPlanner.DirectDraft | src/domain/bindings/directPlanner.ts:40-74 | the same for one target node, where nothing is ambiguous |
| BindingPlanner.BuildContextBindingPlan | src/domain/bindings/contextualPlanner.ts:122-208 | normalising, the loops and the patch make up the plan the results speak about |
| BindingPlanner.BuildDirectBindingPlan | src/domain/bindings/directPlanner.ts:27-101 | the same for the direct plan |
| BindingPlanner.VerdictMeaning | src/domain/bindings/contextualPlanner.ts:137-160 | a slot is skipped if bound and not overwritten, else unresolved if no match reaches the minimum score, else ambiguous if a best match has another such match within the margin, else proposed; in whatever order the matches were found |
| BindingResults.SlotListedOnce | src/domain/bindings/contextualPlanner.ts:133-173 | every slot that the schema offers and the caller asks for is in exactly one of the four lists, once, and no other in any; it is skipped exactly if the current value at ["actions"|"events", name] has a non-empty "node", or "action" or "event" for its kind, and overwrite is off |
| BindingResults.DirectPlanLists | src/domain/bindings/directPlanner.ts:40-74 | a direct plan leaves nothing unresolved exactly if every open slot has a match, proposes nothing exactly if none has, and calls nothing ambiguous |
| BindingPlanner.ProposalsAreBest | src/domain/bindings/contextualPlanner.ts:210-232 | every proposal names the first of the best matches of its slot, and that match reaches the minimum |
| BindingPlanner.NextIsWritten | src/domain/bindings/contextualPlanner.ts:161-162 | the next bindings are the normalised current ones with exactly the proposals written |
| BindingResults.ProposalIsWritten | src/domain/bindings/directPlanner.ts:60-64 | next bindings and patch hold exactly {node, action} or {node, event} of the proposal at the slot's literal path |
| BindingResults.OtherSlotsKept | src/domain/bindings/directPlanner.ts:60-64 | every other slot stays in the next bindings and is not in the patch |
| BindingResults.OtherMembersKept | src/domain/bindings/directPlanner.ts:124-134 | nothing beside the two groups changes, and the patch holds nothing else |
| BindingResults.StartsFromCopy | src/domain/bindings/directPlanner.ts:136-141 | planning starts from a JSON copy in which "actions" and "events" are records, empty if they were none |
| BindingPlanner.PatchFromProposals | src/domain/bindings/directPlanner.ts:124-134 | the patch holds exactly the proposed slots, a later proposal winning |
| BindingPlanner.PatchExact | src/domain/bindings/directPlanner.ts:124-134 | merging the patch gives the next bindings exactly if no proposed slot holds a record with keys other than node and its target field |
| BindingPlanner.NormalizedExact | src/domain/bindings/directPlanner.ts:136-141 | normalising keeps the canonical text exactly if both groups are records |
| BindingPlanner.HashesAgree | src/domain/bindings/contextualPlanner.ts:174-175 | both hashes of the plan are the ones a later merge computes exactly under the two conditions together |
| BindingPlanner.ProposalAppliable | src/mcp/tools/nodeWrites.ts:201-212 | for either planner the approval hash of the proposed change is the one computed when the patch is set later, under the same operation name, exactly if the current groups are records and no proposed slot has other keys |
| Approvals.ApprovalFile.ApproveWrite | src/state/approvals.ts:36-79 | a request is granted exactly if writes are enabled, the confirmation matches, the details are well formed, the store is readable and the id is new; a corrupt file is set aside, an old schema is emptied, expired approvals are dropped |
| Approvals.ApprovalFile.AssertWriteApproved | src/state/approvals.ts:82-112 | passes without the gate; otherwise succeeds exactly if the store is readable and holds a matching unexpired approval; the new store is stated for every branch, corrupt and legacy files included |
| Approvals.ConsumedOnce | src/state/approvals.ts:96-111 | what is consumed was stored, unexpired and for exactly these details; exactly that one and the expired ones are gone |
| Approvals.SingleUse | src/state/approvals.ts:94-111 | no later call, with whatever details, finds a consumed approval |
| Approvals.GrantedDistinct | src/state/approvals.ts:58-71 | ids stay distinct, and the store is the unexpired approvals and the new one |
| Approvals.GrantedIff | src/state/approvals.ts:44-71 | granted exactly if writes are enabled, "APPROVE " and the first twelve digits were typed, the details pass and no live approval has the id; it runs out after the given seconds |
| Approvals.ConsumedIff | src/state/approvals.ts:94-109 | consumed exactly if a live approval of the id has exactly the asked details; one with other details is a mismatch and stays |
| WriteLocks.LockTable.CallWithWriteLock | src/state/locks.ts:4-11 | the turn before the first await queues the call behind the stored promise and keeps the invariant of the chains |
| WriteLocks.LockTable.RunTask | src/state/locks.ts:12-14 | a task starts once the promise it awaits is resolved, and the invariant is kept |
| WriteLocks.LockTable.ResolveQueued | src/state/locks.ts:10 | a queued promise resolves once its own task has released and the one before it has resolved, and the invariant is kept |
| WriteLocks.LockTable.ReleaseTask | src/state/locks.ts:15-18 | the end of a task, by return or throw, releases, drops the key if nobody queued behind, and keeps the invariant |
| WriteLocks.RunKeepsInv | src/state/locks.ts:1-19 | the invariant of the promise chains holds in every reachable state |
| WriteLocks.TurnRefinesQueue | src/state/locks.ts:1-19 | every turn acts on one first-in first-out queue per key and leaves the other keys' queues alone |
| WriteLocks.MutualExclusion | src/state/locks.ts:1-19 | two running tasks of a key are one, and tasks start in call order after the earlier ones finished |
| WriteLocks.NextWaiterEnabled | src/state/locks.ts:10-18 | the next waiter can start once the earlier ones are finished, at most one promise resolution later, whatever other keys do |
| WriteLocks.PendingIffUnfinished | src/state/locks.ts:5-17 | a key is pending exactly while some task of it is unfinished |
| GuardedWrites.GuardedResource.TakeTurn | src/domain/config/writes.ts:169-253 | each turn of a task of the resource moves to the specified state and keeps the joint invariant |
| GuardedWrites.GuardedResource.Restart | src/state/locks.ts:1-3 | a restart forgets locks and tasks, keeps node, approvals, log and backups, and keeps the joint invariant |
| GuardedWrites.RunKeepsInv | src/domain/config/writes.ts:169-253 | the invariant of all write tasks, locks, approvals, backups and log holds in every state reachable by tasks, other resources and restarts |
| GuardedWrites.SendsIffApproved | src/domain/config/writes.ts:204-237 | a task that has read sends its request exactly if its planner says so, a live approval of these details is on offer and neither backup nor attempted line fails; otherwise it ends and releases the lock |
| GuardedWrites.EarlyEndsLeave | src/domain/config/writes.ts:204-216 | a turn that does not send leaves the node alone; without a change to make, a dry run included, it touches no approval, backup or log; without approval no backup or log; after a failed backup or attempted line the approval is spent |
| GuardedWrites.AnswerIsLogged | src/domain/config/writes.ts:216-252 | a logged success goes on to verification, any other answer ends the task, and an unlogged one adds no line |
| GuardedWrites.ApprovedWriteSucceeds | src/domain/config/writes.ts:169-253 | an approved write that nothing disturbs leads to the planned state on the node, its success on the log and the lock free |
| GuardedWrites.NoLostUpdates | src/domain/config/writes.ts:169-253 | remote changes form a chain from the initial to the present state, each planned from the very state it replaced |
| GuardedWrites.OneApprovalPerChange | src/domain/bindings/writes.ts:30-103 | each change consumed its own granted, then unexpired approval carrying its details; no two share one, and it is not on offer again |
| GuardedWrites.UnresolvedChangesRecoverable | src/state/audit.ts:136-157 | a change is logged before it happens, and until the log tells how it ended the file with its previous state is on disk under a name that gives its id back, through every pruning, log rotation and restart |
| WriteProtocol.SetOutcome | src/domain/config/writes.ts:174-207 | a request to set values is no change, a dry run, carried out or refused by exact conditions on expected hash, requested state, dry run and write gate; carried out, it writes the patch or the merge without the listed paths |
| WriteProtocol.ApplyOutcome | src/domain/bindings/writes.ts:124-193 | the same for applying a binding plan, which needs the very hash and a match for every open slot |
| WriteProtocol.ChangesAreRequested | src/domain/bindings/writes.ts:62-63 | in every run each change is the one its job asked for on the state its caller expected; no dry run and no disabled gate lets one through |
| WriteProtocol.ApprovalDescribesChange | src/domain/bindings/writes.ts:124-214 | in every run each change S to S' is backed by an approval of a proposal of this very change: operation, target, mode, patch, removed paths and the hashes of S and S' |
| WriteProtocol.ApprovalPinsChange | src/domain/config/writes.ts:182-188 | approvals with equal details are for the same canonical states before and after |
| AuditedMutation.AuditWriter.RunAudited | src/state/audit.ts:49-75 | the call produces exactly the specified events, log lines and outcome for every remote result and every failing log write |
| AuditedMutation.AmbiguousIffLeftOpen | src/mcp/tools/common.ts:56-93 | the tool error says ambiguous exactly if the log leaves the operation open, unless one of two named cases occurs |
| AuditedMutation.OneClosingPerOperation | src/state/audit.ts:49-75 | in every interleaving of calls on one log an operation has no line, its attempt, or its attempt and one closing line |
| AuditedMutation.ToldAmbiguousIffLogOpen | src/mcp/tools/common.ts:77-91 | in every interleaving a failed call's caller was told ambiguous exactly if the whole log leaves the operation open, outside the two cases |
| AuditedMutation.RemoteStartedIffAttempted | src/state/audit.ts:56-58 | in every interleaving an operation's remote call has started exactly if its attempt is on the log |
| AuditedMutation.CompletedIffLogged | src/mcp/tools/common.ts:29-41 | in every interleaving an ended call completed exactly if its success is on the whole log, and its caller was told "succeeded, not logged" exactly if the remote call returned and its line was refused, or itself threw that error |
| AuditedMutation.LogTellsEnd | src/state/audit.ts:56-74 | in every interleaving an ended call has its attempt and, unless refused, its end on the log: success, ambiguous for a timeout, network error, unreadable answer or redirect, else failed; no answer leaves the operation open, any other transport error closes it |
| AuditedMutation.ToldExactly | src/mcp/tools/common.ts:56-93 | what a failed call's caller is told: retryable, status and operation id, from the remote end and whether the closing line was refused |
| AuditedMutation.RefusedAttemptTold | src/state/audit.ts:55 | a call whose attempt was refused leaves no line, and its caller hears of a plain failure |
| AuditLog.AuditDirectory.AuditWrite | src/state/audit.ts:30-34 | an append performs exactly the specified sequence of file steps |
| AuditLog.AuditDirectory.RotateAudit | src/state/audit.ts:159-175 | rotation performs exactly the specified steps: unlink the oldest, shift upwards, recreate |
| AuditLog.AuditDirectory.ShiftFiles | src/state/audit.ts:169-173 | the downward loop moves every file one number up |
| AuditLog.RotateSound | src/state/audit.ts:159-175 | after every step of a rotation the files still read as a suffix of history |
| AuditLog.CutWriteSound | src/state/audit.ts:30-34 | a crash between any two steps keeps this, and no rename overwrites a file |
| AuditLog.WriteExactly | src/state/audit.ts:159-175 | without an overflow of the byte limit a write is one append; with one every kept file moves one number up and the line starts a new active file |
| AuditLog.BytesAddUp | src/state/audit.ts:162 | the size of a file is the sum over its lines |
| AuditLog.LogIsSuffixOfHistory | src/state/audit.ts:122-134 | after any sequence of completed and crashed writes the files, oldest first, read as a suffix of all lines appended, and are at most as many as retained |
| AuditLog.WriteGivesUpOldest | src/state/audit.ts:159-175 | a write cut after any file step gives up exactly the lines of the oldest file that may be kept, and only if the active file would overflow and its rotation has begun; all others can be read, with the new line behind them if it was not cut |
| AuditLog.ActiveWithinLimit | src/state/audit.ts:162-174 | after a completed append the active file is within the limit or holds exactly the new line |
| BackupNames.OperationIdRoundTrip | src/state/audit.ts:216-225 | the operation id of a backup name is the one it was made with exactly if its encoding does not end in a dash |
| BackupNames.DashedIdIsCut | src/state/audit.ts:216-225 | otherwise it loses its last character |
| BackupNames.UuidRoundTrip | src/state/audit.ts:146 | ids of UUID shape always come back |
| BackupNames.TildeIdIsCut | src/state/audit.ts:216-225 | the id "ab~" comes back as "ab" |
| BackupNames.OwnFilePasses | src/state/audit.ts:182-185 | a node's backups always pass the name test of its pruning |
| BackupNames.OtherFilePassesIff | src/state/audit.ts:182-185 | among ASCII names a node's backup passes a node's test exactly if they are the same node, or the tested name, made safe for files, is the encoded node part of the file name or that part with the parts before it |
| BackupNames.NamesakePasses | src/state/audit.ts:271-278 | the backups of "foo" pass the test of the node named "node_b64_Zm9v" |
| BackupNames.DashedNamePasses | src/state/audit.ts:182-185 | without ASCII the encoding can hold a separator: backups of a node whose encoding ends in "--Zm9v" pass the test of "Zm9v" |
| BackupNames.NameSample | src/state/audit.ts:146 | one whole file name in literal characters, and the end of older names |
| BackupNames.SafeNameShape | src/state/audit.ts:271-278 | a safe name has 1 to 120 safe characters and does not start with an underscore |
| BackupNames.SafeNameSamples | src/state/audit.ts:271-278 | runs of other characters are one underscore, none at the ends, and "node" stands for nothing left |
| BackupNames.Utf8Samples | src/state/audit.ts:146 | UTF-8 of one to four bytes and of a lone surrogate |
| Backups.BackupDirectory.PruneBackups | src/state/audit.ts:177-198 | the loops leave exactly the specified files |
| Backups.BackupDirectory.BackupState | src/state/audit.ts:136-157 | a backup adds its file and prunes, or refuses a value holding the sidecar token and changes nothing |
| Backups.TokenIffText | src/state/audit.ts:240-248 | the refused values are exactly those with the token as a string or a key at some depth |
| Backups.PruneSpares | src/state/audit.ts:184-189 | files whose name fails the node's test and files of operations that are not terminal stay |
| Backups.OutOfDateGoes | src/state/audit.ts:188-192 | a file that passes the test, is closed on the log and older than the days times 24 * 60 * 60 * 1000 milliseconds goes |
| Backups.FreshStay | src/state/audit.ts:193-197 | while the files that are not both closed and that old do not exceed the cap, exactly they are left of those that pass the test |
| Backups.ReadAsEndedGoes | src/state/audit.ts:200-214 | in a run, a readable line of success or failure lets the out-of-date backup go |
| Backups.OtherNodesSpared | src/state/audit.ts:182-189 | among ASCII names another node's backup stays unless the pruning node's safe name is a tail of the file name |
| Backups.NamesakeTakesBackup | src/state/audit.ts:182-197 | with a cap of one, the first backup of "node_b64_Zm9v" removes the only, unexpired backup of a closed operation of "foo" |
| Backups.CapOrNothingRemovable | src/state/audit.ts:194-197 | after a prune at most the cap of files that pass the node's test remains, or none of them is closed on the log; the cap never takes more than exceeds it |
| Backups.CapTakesOldestFirst | src/state/audit.ts:188-197 | a file the cap deletes is no newer than any removable one it leaves |
| Backups.LeftCount | src/state/audit.ts:193-197 | how many files that pass the test are left: those not both closed and out of date, less as many closed ones as exceed the cap |
| Backups.OpenBackupsSurviveIff | src/state/audit.ts:136-198 | the backup of an ASCII operation id outlives every run of logging, backing up, pruning and log loss in which the log does not close the operation, exactly if the encoded id does not end in a dash |
| Backups.DashedBackupLost | src/state/audit.ts:216-225 | the losing run for every such id, node, time and unique part, at the default retention: its backup is taken, the shorter id succeeds, and the pruning after expiry removes the backup |
| EditDistance.Levenshtein | src/nodel/v1UiCatalog.ts:66-84 | the two-row loop returns the recursive edit distance |
| EditDistance.DistanceIsMetric | src/nodel/v1UiCatalog.ts:66-84 | zero exactly on equal strings, symmetric, triangle inequality |
| EditDistance.DistanceIsShortestScript | src/nodel/v1UiCatalog.ts:66-84 | the distance is the length of a shortest script of insertions, deletions and replacements |
| PythonScanner.Scanner.SanitizePythonLine | src/nodel/recipeVerifier.ts:149-211 | the jumping scanner returns the text, the carried quote and the issues of the automaton that reads one character at a time |
| PythonScanner.Scanner.ScanPythonLines | src/nodel/recipeVerifier.ts:115-121 | the same for whole files, line after line |
| PythonScanner.FindStringEnd | src/nodel/recipeVerifier.ts:223-240 | the loop finds the first quote that is not escaped |
| PythonScanner.LinesRejoin | src/nodel/recipeVerifier.ts:117 | splitting at line breaks loses nothing but the breaks, which take a carriage return before them along, and no line keeps a line feed |
| PythonScanner.MaskCharacter | src/nodel/recipeVerifier.ts:149-211 | each output character is the input character where the automaton is in code, and a blank elsewhere |
| PythonScanner.MaskIsClean | src/nodel/recipeVerifier.ts:149-211 | output has the input's length and no quote or comment sign |
| PythonScanner.OneThenOther | src/nodel/recipeVerifier.ts:149-211 | the automaton reads a text piece by piece |
| PythonScanner.CodeStays | src/nodel/recipeVerifier.ts:206-207 | without quotes and number signs everything stays |
| PythonScanner.NumberSignComments | src/nodel/recipeVerifier.ts:167-169 | from a number sign in code on everything is blank to the end of the line |
| PythonScanner.StringHides | src/nodel/recipeVerifier.ts:172-204 | a quoted string is blank up to its first unescaped closing quote, or to the end of the line, and code goes on |
| PythonScanner.TripleHides | src/nodel/recipeVerifier.ts:194-203 | so is what stands between three quotes, which stay open without the closing three |
| PythonScanner.PrefixReported | src/nodel/recipeVerifier.ts:174-192 | a prefix of the letters r, u, b and f is reported for an f and for a b, at the column of its first letter; other letters are not |
| PythonScanner.IssuesOfStrings | src/nodel/recipeVerifier.ts:172-192 | the issues of a line are exactly those of the strings that open in it |
| PythonScanner.IssuesNameTheirLine | src/nodel/recipeVerifier.ts:115-121 | an issue of a file names the line it comes from, counted from 1 |
| PythonScanner.TripleQuoteCarries | src/nodel/recipeVerifier.ts:155-164 | inside a triple quote a line without the closing one is all blank and leaves it open |
| PythonScanner.ScanIdempotent | src/nodel/recipeVerifier.ts:115-121 | scanning the output again changes nothing |
| TextEdits.ApplyTextEdits | src/domain/recipes/operations.ts:22-47 | all edits are applied in turn or the first missing or ambiguous one refuses them all; the report is stated entry by entry |
| TextEdits.OccurrencesCountMatches | src/domain/recipes/operations.ts:30 | the count is the number of leftmost disjoint matches, the most any disjoint choice has, and zero exactly if nothing matches |
| TextEdits.ReplaceAllExact | src/domain/recipes/operations.ts:37 | split and join replaces exactly the leftmost disjoint matches, with length change n times the difference |
| TextEdits.JoinSplit | src/domain/recipes/operations.ts:37 | joining the split with the old text gives the input back |
| TextEdits.OnceAgainstAll | src/domain/recipes/operations.ts:37 | with one match both ways agree exactly if the new text expands to itself |
| TextEdits.SameIffPlain | src/domain/recipes/operations.ts:37 | they agree for all texts with one match exactly if the new text has no `$` pattern |
| TextEdits.NoDollarIsPlain | src/domain/recipes/operations.ts:37 | in particular if it has no `$` |
| TextEdits.ReplacesPattern | src/domain/recipes/operations.ts:37 | what a single replacement inserts for each dollar pattern |
| TextEdits.EditExactly | src/domain/recipes/operations.ts:30-37 | an edit is accepted exactly if its old text matches, and once unless all are to be replaced; then the leftmost disjoint matches, or the one match, are replaced |
| TextEdits.ReportEntry | src/domain/recipes/operations.ts:38-44 | each entry of the report: index, mode, occurrences and the hashes of old and new text |
| TextEdits.ReportAccountsForLength | src/domain/recipes/operations.ts:38-44 | without `$` patterns in single edits the reported occurrences account for the whole change of length |
| Base64.DecodeEncode | src/domain/recipes/operations.ts:63-64 | decoding an encoding gives the bytes back, in either alphabet |
| Base64.AcceptsExactlyEncodings | src/domain/recipes/operations.ts:59-67 | a string is accepted exactly if its trimmed text encodes some bytes by section 4 of RFC 4648, and those are returned |
| Base64.AcceptedPadBits | src/domain/recipes/operations.ts:64-65 | accepted padded text has zero pad bits |
| Base64.NonZeroPadBitsRefused | src/domain/recipes/operations.ts:64-65 | non-zero pad bits (section 3.5 of RFC 4648) are always refused |
| Base64.GroupIsNumber | src/domain/recipes/operations.ts:64 | the places of the encoded characters in the literal alphabet are the base-64 digits of the number whose base-256 digits are the bytes |
| Base64.GroupByGroup | src/domain/recipes/operations.ts:64 | longer sequences are encoded three bytes at a time |
| Base64.FilledUp | src/domain/recipes/operations.ts:64 | one byte and two are filled up with equals signs in standard text only |
| Base64.TrimExactly | src/domain/recipes/operations.ts:60 | white space at both ends goes and nothing else |
| Sessions.HttpApp.Initialize | src/mcp/server.ts:251-312 | a stateful initialization prunes, is refused exactly if the pool is full, and otherwise reserves a place; the capacity invariant is kept |
| Sessions.HttpApp.PruneExpiredSessions | src/mcp/server.ts:221-224 | exactly the sessions idle too long are forgotten and start to close |
| Sessions.HttpApp.ExpireSessions | src/mcp/server.ts:209-213 | the timer turn, which keeps the capacity invariant |
| Sessions.HttpApp.CloseSession | src/mcp/server.ts:217-220 | all ids of a session are forgotten before its entry starts to close |
| Sessions.HttpApp.PublishSession | src/mcp/server.ts:298-304 | publication turns the reservation into a session and keeps the capacity invariant |
| Sessions.HttpApp.FinishClose | src/mcp/server.ts:290-296 | clean-up returns an unpublished reservation, forgets the session only if it is still this entry's, and keeps the capacity invariant |
| Sessions.StepKeepsInv | src/mcp/server.ts:171-191 | every orderly turn keeps: sessions and reservations within the maximum, reservations equal to the active unpublished stateful entries |
| Sessions.PrunedExactly | src/mcp/server.ts:221-224 | exactly the sessions idle for the idle time go, and start to close |
| Sessions.AdmittedIffPlace | src/mcp/server.ts:257-290 | a stateful initialization is admitted exactly if, after pruning, sessions and reservations are fewer than the maximum, and takes one place |
| Sessions.SessionsExactly | src/mcp/server.ts:290-304 | publication adds exactly the entry's session, clean-up removes exactly it |
| Sessions.CapacityHolds | src/mcp/server.ts:273-326 | over every run the capacity holds, each entry returns its reservation exactly once or still holds it, and both counts are zero once nothing is active |
| Sessions.OrderlinessIsNeeded | src/mcp/server.ts:187 | a late publication always breaks this; a second clean-up, as a forced shutdown can bring, exactly if it takes another entry's reservation |
| StartupLock.ApartCallsExclude | src/state/store.ts:96-146 | calls that do not overlap leave at most one living holder, whatever deaths, reused process ids and left-behind files there are |
| StartupLock.PromptCallsExclude | src/state/store.ts:195-232 | without deaths and from a directory without a lock file, calls shorter than the grace period exclude each other for every interleaving of file steps |
| StartupLock.ExclusionIffWithinGrace | src/state/store.ts:195-232 | all such runs in which every call lasts less than a bound leave at most one holder exactly if the bound is at most five minutes |
| StartupLock.StalledReaderSharesLock | src/state/store.ts:201-209 | a reader that stalls for the grace period leads to two living holders although the writer finished at once |
| StartupLock.OverlappingRecoveryShares | src/state/store.ts:210-219 | from a dead process's lock, two overlapping calls can reach two living holders in no time |
| StartupLock.WholeCall | src/state/store.ts:96-134 | the file steps of an undisturbed call win the lock exactly if it is free, and change nothing otherwise |
| StartupLock.StateStore.AcquireStartupLock | src/state/store.ts:96-134 | a call keeps a held lock; otherwise it wins exactly if the lock can be had and neither the rename nor the write fails; a failed write takes its new file with it |
| StartupLock.StateStore.RecoverStaleLock | src/state/store.ts:195-220 | a stale or old incomplete file is put aside; a living holder's, a recent incomplete one, or one that cannot be renamed refuses and stays |
| StartupLock.StateStore.Close | src/state/store.ts:136-146 | closing removes the file only if the lock was held |

## Left out

- SHA-256, UUIDs and clocks: an injective function, fresh identifiers and arbitrary times stand for them.
- Object key order: JavaScript enumerates integer-like keys first; the model keeps insertion order, which the canonical text does not show.
- Sparse arrays, class instances and the `__proto__` key in JSON values: outside the plain JSON domain.
- Number formatting: number tokens are an arbitrary injective printing of the finite numbers other than minus zero.
- ConfigPlanner.Merge: models the fresh result record as a value; `removePath`, which deletes inside the copy it was given, is a function applied by the loop, so aliasing with the caller's object is not captured (the source copies first).
- BindingPlanner.BuildContextBindingPlan: how a match is scored and how a name is normalised are parameters; the report fields of a plan (reasons, options, summaries) are left out.
- GuardedWrites.NoLostUpdates: assumes no writer outside the sidecar on the resource, and that a request takes effect before its promise settles or never; one that has not taken effect dies with the process.
- GuardedWrites.OneApprovalPerChange: in runs the approval gate is on (`writeApprovalRequired`) and the store readable; with the gate off there is no approval to speak about.
- GuardedWrites.UnresolvedChangesRecoverable: operation ids are fresh UUIDs, as the source draws them.
- The read-back verification after a write, waiting for readiness, and `callAction`: they change nothing the results speak about.
- Approvals.ApprovalFile.ApproveWrite: the wording checks on details are one flag (an injective digest cannot have the 64 digits that one of them asks for); timing-safe comparison and the names of quarantined files are left out.
- AuditLog.LogIsSuffixOfHistory: an append is one step, so a torn last line is not modelled, and neither is a failing fsync after an append.
- Redaction of log records: it can rewrite an operation id that looks like a secret; ids are taken as logged.
- BackupNames.OperationIdRoundTrip: UTF-8 decoding is a parameter that is only required to be right on ASCII.
- PythonScanner.Scanner.SanitizePythonLine: text is in the Basic Multilingual Plane, where code points and code units agree; the source mixes indices of both. Python's escapes inside triple quotes are not honoured by the code, and the model follows the code.
- Regular-expression checks of scanned lines, import policy lists and recipe guidance: heuristics and data.
- TextEdits.ApplyTextEdits: edits with an empty old text are modelled as the code treats them, but the tool schema refuses them, and the results about matches are for non-empty old text.
- EditDistance.Levenshtein: the ranking of suggestions that uses the distance is left out.
- `normalizeTextContent` and the recipe save requests: plain data.
- Sessions.CapacityHolds: assumes no forced shutdown, no publication after a close has completed, and that building the server does not throw; HTTP and protocol handling are left out.
- StartupLock.ApartCallsExclude: a write that fails leaves an incomplete record until its file is unlinked; renames and unlinks that fail in a run, permissions, fsync and other file errors are left out.
- Configuration parsing, tool registration, discovery, XML tokenising and the UI catalogue data: plumbing or data.
