# Verification of the telemetry SDK and its ingester

A Dafny 4.11 model of the parts of the repository whose correctness does not depend on I/O, with proofs of what
they promise. `dafny verify dfyconfig.toml` checks the whole project.

What is modelled, by part of the system:

- **Loop collapse** (`LoopCollapse*.dfy`, `LoopCollapser.dfy`): requests plan against per-minute windows, then
  commit or roll back, while flushes collect, write, fail and retry. The state machine is a set of functions on the
  whole state; the class does what they say, method by method. Windows, plans and due samples are rows of tables
  that the state refers to by index, as the program refers to objects.
- **Source maps** (`Vlq*`, `Mappings`, `MappingMeaning`, `DecodedMappings`, `TableOverflow`, `Scope*`, `CliPositions`,
  `ShiftMappings`, `Inject*`): the base64 VLQ codec of ECMA-426, the meaning of `mappings`, the decoded table and the
  one-pass search that must agree with it, the function scopes format with its encoder, decoder and index, and the
  rewrite of a bundle and its map by the CLI, which may stop between its two writes.
- **Bounded buffers**: the sink delivery queue (`Sink*.dfy`), the two stores of the source map cache
  (`SourceMapCache*.dfy`) and the Python tail-retention processor (`RetainError*.dfy`). Each is a state machine with
  the history its promises are stated over, and a class that follows it.
- **Span trees**: one occurrence per thrown error (`SpanTree`, `TraceSignals`, `TraceGroups`, `TraceDedupe`,
  `TraceSurvivors`, `TraceGreedy`, `TraceRules`, `TraceDedupePass`) and one request per chain of spans (`RequestSpans`).
- **Small exact algorithms**: the glob of suppression rules (`Glob`), the protobuf record counter (`Proto*.dfy`) and
  the choice of source contents a stored map keeps (`SourcesContent*.dfy`).

The files named `...Exact`, `...Meaning`, `...Rules`, `...Bounds`, `...Settle`, `...Pumps`, `...Hits`, `...Loads` and
`...Place` state what the steps of a model do without naming the functions that compute it, both ways: what happens,
and that nothing else does.

Text is a sequence of UTF-16 code units. `Sorting` is the stable sort of ECMA-262 (section 23.1.3.30), `Texts` the
few string operations used.

Results where the program does less than its comments say, each with its exact condition and a concrete input:

- A retried batch can be counted although it was stored: an occurrence kept again under the reservation of another
  request loses it when that request rolls back. Exactly when a retry folds nothing, over any run:
  `ResentFoldsNothingExactly`; the run in which it does: `StoredThenCounted`.
- `evictOne` treats an empty org id as no org, so another org's batch can be evicted (`EveryEvictionIsFair`,
  `EmptyOrgEvictsOthers`).
- The decoded table holds 32-bit numbers, so a map whose accumulated fields exceed them can be read differently by the
  two lookups (`AgreeExactly`, `AgreeWhenAnswersFit`; `OverflowMatters`).
- The greedy choice of contents can keep none where several tiny files together would bring the map under the
  limit (`KeepsMostExactly`, `EmptyFilesAreLost`).
- VLQ round trips exactly below 2^31 (`VlqRoundTrip`).
- With `stripSourceMappingUrl` a further run can change the bundle again (`StripRerunExactly`; `TwoReferences`,
  `CommentOnTheSameLine`).

## Model

| member | source | states |
|---|---|---|
| `LoopCollapseTheorems.RunGood` | packages/otlp-ingester/src/loop-collapse.ts:218-441 | every interleaving of planning, committing, rolling back, ticking, starting a flush and failed or successful writes keeps the whole invariant |
| `LoopCollapseTheorems.StepGood` | packages/otlp-ingester/src/loop-collapse.ts:218-441 | one such step keeps it, whatever the other requests and the flush in progress are doing |
| `LoopCollapseTheorems.Conservation` | packages/otlp-ingester/src/loop-collapse.ts:296-441 | in every reachable state the folds committed so far are the stored ones, those counted in unflushed windows, those carried and those in the write being attempted, in number and occurrence by occurrence |
| `LoopCollapseTheorems.SamplesExact` | packages/otlp-ingester/src/loop-collapse.ts:414-421 | every stored sample stands for exactly its folds: `collapsedCount` is one less, and the sample is the latest of them |
| `LoopCollapseTheorems.Accounting` | packages/otlp-ingester/src/loop-collapse.ts:218-335 | `heldSamples` is the number of slots held and within `maxSamples`; a window keeps at most `after` ids, its kept and folded ids are disjoint, its folded ids are its reserved and committed folds, and its counters are sums over the open plans |
| `LoopCollapseTheorems.FlushWaits` | packages/otlp-ingester/src/loop-collapse.ts:372-403 | a window is flushed only after its minute (or at shutdown), and while a request is open only when forced |
| `LoopCollapseFlushExact.FlushTakesExactly` | packages/otlp-ingester/src/loop-collapse.ts:372-403 | a flush takes exactly the windows of past minutes (of all, at shutdown) that no request holds or that are overdue; each one's folds go into the write as its tenant's and route's sample with its count, the slot of one without folds is free, and the others stay as they are |
| `LoopCollapseFlushExact.CarriedIsWritten` | packages/otlp-ingester/src/loop-collapse.ts:372-376 | every carried sample is written too, as it was |
| `LoopCollapseFlushExact.MinutesGoExactly` | packages/otlp-ingester/src/loop-collapse.ts:379-402 | a minute is deleted exactly when the flush may take it and leaves none of its windows open |
| `LoopCollapseTheorems.CollectedNeverChanges` | packages/otlp-ingester/src/loop-collapse.ts:302-311 | a due sample that is being written is never changed again by any later step |
| `LoopCollapseTheorems.FrozenForever` | packages/otlp-ingester/src/loop-collapse.ts:374-376 | the same over any number of later steps |
| `LoopCollapseTheorems.ShutdownComplete` | packages/otlp-ingester/src/loop-collapse.ts:347-441 | with no write under way, a successful `flush(true)` leaves no window, no carried sample and no slot, and every fold is stored |
| `LoopCollapseReplan.PlanPartition` | packages/otlp-ingester/src/loop-collapse.ts:225-295 | every plan splits its input into kept, folded and repeated |
| `LoopCollapseBounds.PlanDealsExactly` | packages/otlp-ingester/src/loop-collapse.ts:218-295 | a request's occurrences are dealt out in order: kept, folded on their own window, or left out as folded before; what is kept without being admitted passed through, is counted as overflow, and did so only because the minute's windows or the samples held are at their bound |
| `LoopCollapseBounds.FirstAreKept` | packages/otlp-ingester/src/loop-collapse.ts:250-289 | while no bound is reached each window keeps the first ids new to it, as many as it may still admit, and folds the others; its counter grows by the number of new ids |
| `LoopCollapseBounds.IdsAreSpent` | packages/otlp-ingester/src/loop-collapse.ts:276-286 | each remembered fold uses one of the minute's ids, no other minute's change, and a window forgets its folded ids only when all of them are used up |
| `LoopCollapseSettle.CommitCounts` | packages/otlp-ingester/src/loop-collapse.ts:297-317 | a commit counts exactly the request's folds, each on its own window or, when that was flushed, on its carried sample; the sample is then the last of the newest, and everything else of the window stays |
| `LoopCollapseSettle.WriteStores` | packages/otlp-ingester/src/loop-collapse.ts:413-428 | a successful write stores exactly the first tenant's samples, each once and as it is, frees exactly their windows' slots and leaves the other tenants' to be written |
| `LoopCollapseSettle.WriteFails` | packages/otlp-ingester/src/loop-collapse.ts:429-438 | a failed write carries exactly those samples, behind what is carried already, and changes no window |
| `LoopCollapseResend.ReplanFoldsNothing` | packages/otlp-ingester/src/loop-collapse.ts:249-261 | a batch planned without reaching a bound and sent again in the same minute, after its commit and any other steps but a shutdown flush, keeps what it kept, reports the rest as repeated and reserves nothing, unless a request that had reserved one of its ids was rolled back in between |
| `LoopCollapseResend.RunIds` | packages/otlp-ingester/src/loop-collapse.ts:249-335 | over any such run an id stays recognised exactly unless a request that reserved it was rolled back and none reserved it again |
| `LoopCollapseResend.ResentFoldsNothingExactly` | packages/otlp-ingester/src/loop-collapse.ts:249-290 | sent again, a batch folds nothing exactly when each of its windows may still keep the ids that were lost so, or has no slot to fold them with |
| `LoopCollapseResend.StoredThenCounted` | packages/otlp-ingester/src/loop-collapse.ts:250-335 | the failing run: an occurrence kept under another request's reservation is stored, that request rolls back, and the retry folds it; no bound is reached |
| `LoopCollapserClass.LoopCollapser.PlanWindows` | packages/otlp-ingester/src/loop-collapse.ts:218-295 | planning changes the windows and adds the plan the state machine says |
| `LoopCollapserClass.LoopCollapser.PlanOccurrence` | packages/otlp-ingester/src/loop-collapse.ts:231-290 | one occurrence: its window is found or made, and it is kept, folded or repeated |
| `LoopCollapserClass.LoopCollapser.CommitPlan` | packages/otlp-ingester/src/loop-collapse.ts:297-317 | `commit` moves reservations to counts, or to the late sample of a flushed window, once |
| `LoopCollapserClass.LoopCollapser.RollbackPlan` | packages/otlp-ingester/src/loop-collapse.ts:319-335 | `rollback` gives back ids, reservations and unused slots, once |
| `LoopCollapserClass.LoopCollapser.CollectDue` | packages/otlp-ingester/src/loop-collapse.ts:372-403 | collecting takes the carried samples and the due windows of past minutes |
| `LoopCollapserClass.LoopCollapser.CollectMinute` | packages/otlp-ingester/src/loop-collapse.ts:382-402 | one minute: open windows wait unless forced, and an emptied minute goes |
| `LoopCollapserClass.LoopCollapser.Flush` | packages/otlp-ingester/src/loop-collapse.ts:361-370 | a flush starts only when none is under way; else nothing changes, and a forced one is to be started again afterwards |
| `LoopCollapserClass.LoopCollapser.SettleWrite` | packages/otlp-ingester/src/loop-collapse.ts:413-440 | a write that succeeds stores its tenant's samples and frees their slots; one that fails carries them with their slots |
| `Vlq.VlqRoundTrip` | packages/runtime-cli/src/scopes.ts:434-445 | decoding an encoded number gives it back, and stops where it ended, exactly for magnitudes below 2^31 |
| `Vlq.ReadEncodedGroup` | packages/otlp-ingester/src/source-map-mappings.ts:49-86 | a group of encoded values is read back whole, up to the separator |
| `Vlq.ForEachVlqGroup` | packages/otlp-ingester/src/source-map-mappings.ts:49-86 | the walk visits the groups of the text in order, and fails exactly where the text is malformed |
| `Vlq.EncodeVlq` | packages/runtime-cli/src/scopes.ts:434-445 | the encoder's loop writes the digits of the 32-bit value |
| `VlqMeaning.DigitsAreBase64` | packages/otlp-ingester/src/source-map-mappings.ts:36-40 | the digits are the characters of base64 in their order, and no other character is one |
| `VlqMeaning.ValueMeans` | packages/otlp-ingester/src/source-map-mappings.ts:68-84 | a value is read exactly when the text starts with at most seven digits, all but the last continuing; it is the base-32 number they form, cut to 32 bits, with the sign in its lowest bit |
| `VlqMeaning.GroupsSplit` | packages/otlp-ingester/src/source-map-mappings.ts:49-66 | what is on either side of a separator is read on its own, and a `;` starts the next line |
| `VlqMeaning.PieceIsOneGroup` | packages/otlp-ingester/src/source-map-mappings.ts:49-86 | a piece without separators is one group of its values, the first six kept, or none when it is empty |
| `Mappings.BestIsGreatestLowerBound` | packages/otlp-ingester/src/source-map-mappings.ts:226-251 | the scan finds the row with the greatest column at or before the target, the first one at the target and else the last one |
| `MappingMeaning.SegmentFields` | packages/otlp-ingester/src/source-map-mappings.ts:93-119 | for every text the fields of segment k are sums over its groups up to k: the column of the first values on its line; source, original line and original column of the second, third and fourth values; the name of the fifth; -1 where a segment has no source or name |
| `MappingMeaning.LookupMeans` | packages/otlp-ingester/src/source-map-mappings.ts:226-251 | a lookup gives the source, line, column and name of the closest segment on that line at or before the position, and nothing exactly when there is none or it has no source |
| `MappingMeaning.ExampleSegments` | packages/otlp-ingester/src/source-map-mappings.ts:93-119 | a concrete text of two lines with five different values in each segment, and what it decodes to |
| `MappingMeaning.ExampleLookups` | packages/otlp-ingester/src/source-map-mappings.ts:195-251 | and what three positions in it mean |
| `Mappings.SortKeepsBest` | packages/otlp-ingester/src/source-map-mappings.ts:181-193 | sorting a line by column does not change what any position on it means |
| `Mappings.LowerBoundIsBest` | packages/otlp-ingester/src/source-map-mappings.ts:195-219 | in a sorted line that row is the greatest lower bound itself |
| `Sorting.SortStable` | packages/otlp-ingester/src/source-map-mappings.ts:180-193 | the sort of a line keeps the order of segments at the same column |
| `DecodedMappings.ForEachSegment` | packages/otlp-ingester/src/source-map-mappings.ts:93-119 | every segment is visited with its accumulated fields |
| `DecodedMappings.FindInMappings` | packages/otlp-ingester/src/source-map-mappings.ts:226-251 | one pass over the text answers every position as its line's rows do |
| `DecodedMappings.Decode` | packages/otlp-ingester/src/source-map-mappings.ts:154-178 | decoding fills the table with the segments of each line, in bounds, sorted by column, and its real size is the predicted one |
| `DecodedMappings.SortLine` | packages/otlp-ingester/src/source-map-mappings.ts:181-193 | one line is sorted in place, stably, and no other changes |
| `DecodedMappings.Decoded.Find` | packages/otlp-ingester/src/source-map-mappings.ts:195-219 | the binary search answers as the decoded segments do |
| `DecodedMappings.StoredExactly` | packages/otlp-ingester/src/source-map-mappings.ts:156-168 | the 32-bit table stores every segment exactly when all fields fit 32 bits |
| `DecodedMappings.CountsSegments` | packages/otlp-ingester/src/source-map-mappings.ts:121-139 | the count made before decoding is the number of segments and covers their lines |
| `DecodedMappings.DecodedMappingsBytes` | packages/otlp-ingester/src/source-map-mappings.ts:141-144 | the predicted size is five numbers of four bytes a segment, the line table and the overhead |
| `DecodedMappings.LookupLoaded` | packages/otlp-ingester/src/symbolicate.ts:432-449 | a loaded map answers from the 32-bit table when it fits the budget, and exactly, in one pass, when it does not |
| `DecodedMappings.BudgetDoesNotMatter` | packages/otlp-ingester/src/symbolicate.ts:432-449 | when every field fits 32 bits both give the same answers |
| `TableOverflow.AgreeExactly` | packages/otlp-ingester/src/source-map-mappings.ts:154-251 | the table and the one pass agree at every position exactly when they agree at and just after the column of each segment and what 32 bits keep of it |
| `TableOverflow.AgreeWhenAnswersFit` | packages/otlp-ingester/src/source-map-mappings.ts:154-251 | while the columns fit, they agree at every position exactly when each row that some position means has no source or fields that fit |
| `DecodedMappings.OverflowMatters` | packages/otlp-ingester/src/source-map-mappings.ts:156-168 | with a field past 32 bits the decoded table answers differently: a concrete text |
| `CliPositions.LineStarts` | packages/runtime-cli/src/scopes.ts:252-263 | exactly the offsets after a line terminator, CR LF being one, in order |
| `CliPositions.PositionOf` | packages/runtime-cli/src/scopes.ts:265-274 | the last line that starts at or before the offset, and the column that leads back to it |
| `CliPositions.PositionInCode` | packages/runtime-cli/src/scopes.ts:252-274 | line and column together: the line is the number of lines started before, and none starts in between |
| `CliPositions.FindSegments` | packages/runtime-cli/src/scopes.ts:296-352 | every wanted position gets the first segment that starts exactly there, and only then |
| `CliPositions.AgreesWithLookup` | packages/runtime-cli/src/scopes.ts:340-350 | what the CLI finds where a segment starts is what the ingester's lookup gives there |
| `Scopes.RoundTrip` | packages/runtime-cli/src/scopes.ts:447-474 | decoding the encoded scopes gives them back exactly for start-sorted non-empty ranges with valid names in 32 bits |
| `Scopes.Reencode` | packages/otlp-ingester/src/source-map-scopes.ts:60-88 | whatever is decoded survives encoding and decoding again |
| `ScopeMeaning.DecodeMeans` | packages/otlp-ingester/src/source-map-scopes.ts:60-95 | a scopes text is accepted exactly when it is groups of three or four values that describe non-empty ranges within bounds, with a name that there is; scope k is then given by sums over the groups up to k |
| `ScopeMeaning.FieldShape` | packages/otlp-ingester/src/source-map-scopes.ts:117-122 | the field has the right shape exactly when it is an object with version 1, a list of strings and nulls, and a text |
| `ScopeMeaning.NamesInOrder` | packages/otlp-ingester/src/source-map-scopes.ts:164-168 | a name index counts through the map's names and then the field's; an entry that is null is unknown |
| `ScopeMeaning.ExampleScopes` | packages/otlp-ingester/src/source-map-scopes.ts:60-95 | a concrete text with a named function and an anonymous one inside it, decoded |
| `ScopeMeaning.ExampleNames` | packages/otlp-ingester/src/source-map-scopes.ts:175-194 | which of the two holds eight positions in and around them: a scope holds its start and not its end |
| `Scopes.DecodeScopes` | packages/otlp-ingester/src/source-map-scopes.ts:60-88 | the decoder's loop reads the rows of the text or rejects it |
| `Scopes.EncodeScopes` | packages/runtime-cli/src/scopes.ts:447-474 | the encoder's loop writes the text of the entries |
| `ScopeIndex.From` | packages/otlp-ingester/src/source-map-scopes.ts:117-162 | a field is accepted exactly when it has its shape, decodes and its scopes nest; the index then shows them |
| `ScopeIndex.BuildTable` | packages/otlp-ingester/src/source-map-scopes.ts:135-160 | the open stack accepts exactly the laminar families, and links each scope to the innermost one around it |
| `ScopeIndex.Index.NameAt` | packages/otlp-ingester/src/source-map-scopes.ts:175-194 | binary search and parent chain give the name of the innermost scope at the position, anonymous outside all |
| `ScopeIndex.InnermostIsInside` | packages/otlp-ingester/src/source-map-scopes.ts:175-194 | that scope lies inside every other scope that contains the position |
| `ShiftMappings.InsertLines` | packages/runtime-cli/src/inject.ts:69-74 | empty generated lines are inserted before the given one, after padding |
| `ShiftMappings.ShiftPreservesMeaning` | packages/runtime-cli/src/inject.ts:66-74 | a lookup before the inserted lines is unchanged, one after them gives what it gave before on its moved line, and the inserted lines map to nothing |
| `InjectBundle.SnippetLine` | packages/runtime-cli/src/inject.ts:40-64 | the loop returns the line the search finds |
| `InjectBundle.SnippetPlace` | packages/runtime-cli/src/inject.ts:33-64 | that line is the first, or the one below a shebang; there is none when the shebang's line, or after white space and whole comments alone a comment, never ends, or when the code starts with a quote |
| `InjectBundle.StripReference` | packages/runtime-cli/src/files.ts:32-44 | the last reference to the map goes when only blank lines and `//#` comments follow it |
| `InjectBundle.NoReferenceExactly` | packages/runtime-cli/src/files.ts:34-43 | nothing goes exactly when the blank and other `//#` lines at the end stop at a line that is neither, or at none |
| `InjectBundle.Disk.Inject` | packages/runtime-cli/src/inject.ts:97-148 | both files after a run, a dry run and a run that stops between the two writes, and the reported status |
| `InjectRerun.CrashThenRerun` | packages/runtime-cli/src/inject.ts:118-146 | a run after a crash between the writes ends in the same bundle and map as an uninterrupted run |
| `InjectRerun.SecondRunChangesNothing` | packages/runtime-cli/src/inject.ts:92-96 | without stripping, a further run changes neither file |
| `InjectRerun.InjectedIsMarked` | packages/runtime-cli/src/inject.ts:92-137 | after a run the bundle is recognised by its snippet and carries the id the map carries |
| `InjectPlace.RunAdds` | packages/runtime-cli/src/inject.ts:109-139 | a run gives the bundle the id of its last valid comment, else its content's hash; the snippet becomes the line recorded in the map, else the line found for it with the map shifted there, else a line above the trailing comments; the comment becomes the last line when there was none; every other line and field stays |
| `InjectPlace.LastCommentIsRead` | packages/runtime-cli/src/debug-id.ts:29-35 | the id read is that of the last line that is a debug id comment, and there is none exactly when no line is one |
| `InjectPlace.CommentExactly` | packages/runtime-cli/src/debug-id.ts:9-35 | a line is such a comment exactly when it is `//# debugId=`, an id in any case and blanks |
| `InjectPlace.AppendedBeforeTrailing` | packages/runtime-cli/src/inject.ts:76-89 | appended, the snippet is the line above the run of blank and `//#` or `//@` lines that ends the bundle, and no other line moves past another |
| `InjectStrip.ChangesNothingExactly` | packages/runtime-cli/src/inject.ts:109-148 | a run changes neither file exactly when the snippet is there, the bundle's id is the map's and, when stripping, no reference is left |
| `InjectStrip.StripRerunExactly` | packages/runtime-cli/src/inject.ts:118-137 | after a stripping run a further one changes nothing exactly when the bundle had one reference at most before it was stripped, on a line without the only snippet or the id comment that is read |
| `InjectStrip.OnlyReferencesCount` | packages/runtime-cli/src/files.ts:32-44 | when the reference has its line to itself, exactly when there is no second one |
| `InjectStrip.TwoReferences` | packages/runtime-cli/src/files.ts:32-44 | a concrete bundle with two references, which a second run changes |
| `InjectStrip.CommentOnTheSameLine` | packages/runtime-cli/src/files.ts:33-39 | a concrete bundle with one, whose line ends with the id comment after a carriage return, which a second run changes too |
| `InjectRerun.BundleAndMapMoveTogether` | packages/runtime-cli/src/inject.ts:118-130 | wherever a line of the bundle goes, its text and the meaning of every column on it go too |
| `SinkTheorems.StepInv` | packages/otlp-ingester/src/sink.ts:149-440 | enqueueing, a send's outcome, its callback, a wake and a stop each keep the whole invariant |
| `SinkTheorems.Conservation` | packages/otlp-ingester/src/sink.ts:149-179 | over every run each batch built is in exactly one of queued, being sent, delivered, overflowed and given up, and the counters add up |
| `SinkTheorems.Bounds` | packages/otlp-ingester/src/sink.ts:265-308 | after every step the queue is in enqueue order and within both bounds, and its byte counters, total and per org, are exact |
| `SinkEvictions.EvictionIsFair` | packages/otlp-ingester/src/sink.ts:310-326 | over a bound, the victim is the oldest batch of a heaviest org exactly when that org's id is not empty or the oldest batch's org is as heavy |
| `SinkEvictions.EveryEvictionIsFair` | packages/otlp-ingester/src/sink.ts:293-326 | over every run, whatever a step drops for overflow is a batch larger than the buffer or such a victim, one for each state over a bound, fair exactly under that condition |
| `SinkEvictions.EmptyOrgEvictsOthers` | packages/otlp-ingester/src/sink.ts:318-321 | a run in which a named org's batch is evicted although the org with the empty id is strictly heavier |
| `SinkTheorems.Health` | packages/otlp-ingester/src/sink.ts:94-100 | over every run `consecutiveFailures` is zero exactly when nothing failed or a send that started after the latest failure was delivered |
| `SinkTheorems.OneProbeWhileFailing` | packages/otlp-ingester/src/sink.ts:328-349 | while the sink fails, a send starts only when none is in flight |
| `SinkTheorems.AttemptsBounded` | packages/otlp-ingester/src/sink.ts:372-421 | over every run no batch is sent more than `sinkMaxAttempts` times (once when that is not positive) |
| `SinkTheorems.NoneStranded` | packages/otlp-ingester/src/sink.ts:351-370 | while a batch waits and nothing is in flight, a wake is set for the earliest retry |
| `SinkPumps.NothingDueWaits` | packages/otlp-ingester/src/sink.ts:328-379 | after every accepted batch, end of a send and wake, no due batch waits unless as many sends are under way as may be: the configured number, or one while failing; the oldest due batches start, and a wake is set for the earliest of the others exactly when one could start then |
| `SinkPumps.TwoAtOnce` | packages/otlp-ingester/src/sink.ts:328-348 | a healthy sink of two sends its first two batches at once |
| `SinkPumps.OutcomeMeans` | packages/otlp-ingester/src/sink.ts:394-441 | a delivered batch is done, a rejected or exhausted one given up, and any other failed one waits at its place for its retry or was dropped for a bound |
| `SinkPumps.StoppedStaysStill` | packages/otlp-ingester/src/sink.ts:149-218 | once stopped, nothing is queued or sent and no timer runs |
| `SinkEvictions.FirstHeaviest` | packages/otlp-ingester/src/sink.ts:311-318 | of several heaviest orgs the scan finds the first |
| `SinkForwarderClass.SinkForwarder.Enqueue` | packages/otlp-ingester/src/sink.ts:149-179 | an enqueued batch is refused alone when it is larger than the buffer, else queued, with overflow and pumping |
| `SinkForwarderClass.SinkForwarder.EnforceBounds` | packages/otlp-ingester/src/sink.ts:293-307 | eviction until both bounds hold |
| `SinkForwarderClass.SinkForwarder.EvictOne` | packages/otlp-ingester/src/sink.ts:310-326 | the victim leaves the queue and both byte counters |
| `SinkForwarderClass.SinkForwarder.HeaviestOrg` | packages/otlp-ingester/src/sink.ts:311-317 | the scan finds the first org with the most bytes |
| `SinkForwarderClass.SinkForwarder.InsertBySeq` | packages/otlp-ingester/src/sink.ts:282-286 | a retried batch goes back to its place in enqueue order |
| `SinkForwarderClass.SinkForwarder.PumpQueue` | packages/otlp-ingester/src/sink.ts:332-349 | due batches start while the limit allows, then a wake is set |
| `SinkForwarderClass.SinkForwarder.Answered` | packages/otlp-ingester/src/sink.ts:394-440 | a send's outcome: delivered, given up, or queued again |
| `SpanTreeModel.AncestorsAreAbove` | packages/otlp-ingester/src/trace-dedupe.ts:148-161 | a span's ancestors are the other spans its parent links lead to, nearest first, even around a cycle |
| `SpanTreeModel.SpanTree.AncestorsOf` | packages/otlp-ingester/src/trace-dedupe.ts:148-161 | the cached walk gives them |
| `SpanTreeModel.SpanTree.AreRelated` | packages/otlp-ingester/src/trace-dedupe.ts:177-179 | two spans are related when one is an ancestor of the other |
| `TraceSignals.MatchesSymmetric` | packages/otlp-ingester/src/trace-dedupe.ts:224-265 | type, message and stack match whichever of two recordings comes first |
| `TraceSignals.StacksMatchNotTransitive` | packages/otlp-ingester/src/trace-dedupe.ts:234-249 | matching is not transitive, so every member of a group must match |
| `TraceGroups.JoinsLatest` | packages/otlp-ingester/src/trace-dedupe.ts:350-376 | a recording joins the eligible open group recorded to last, and starts one only when none is eligible |
| `TraceDedupe.GroupsAreCliques` | packages/otlp-ingester/src/trace-dedupe.ts:328-378 | groups are disjoint; their members pairwise match on different spans of one chain, in time order with gaps within the window |
| `TraceGreedy.StartsOnlyWhenItMust` | packages/otlp-ingester/src/trace-dedupe.ts:338-378 | every recording that shares its trace and resource is in a group, and it is the first of a group only when no other group of them could take it: each was empty then, over 5000 ms ago, on the same span, or held a recording it does not match |
| `TraceGreedy.GroupedGreedily` | packages/otlp-ingester/src/trace-dedupe.ts:338-378 | the same for every member of every group, with the choice among groups that could take it: the one recorded to last, the older one on a tie |
| `TraceGreedy.SurvivorsMergedFully` | packages/otlp-ingester/src/trace-dedupe.ts:338-440 | no two survivors could have been one: the first recording of either could not have joined the other's |
| `TraceGreedy.TwoTwinsMerge` | packages/otlp-ingester/src/trace-dedupe.ts:338-440 | two matching recordings within 5000 ms, alone in their trace and resource, are one survivor |
| `TraceRules.ChildAndParentMerge` | packages/otlp-ingester/src/trace-dedupe.ts:314-440 | an error that a span and then its parent record, with one message and type, is one survivor for both |
| `TraceRules.StackExamples` | packages/otlp-ingester/src/trace-dedupe.ts:234-248 | which frames decide whether two stacks match, case by case |
| `TraceRules.PrefixOrSuffixMeans` | packages/otlp-ingester/src/trace-dedupe.ts:224-232 | two lists of frames match exactly when one is the other with frames added at one end |
| `TraceRules.PreferredExactly` | packages/otlp-ingester/src/trace-dedupe.ts:403-415 | which of two recordings is kept: an SDK's own, then one with a request's context, the outer span's, the earlier one |
| `TraceDedupe.RedundantExactly` | packages/otlp-ingester/src/trace-dedupe.ts:380-400 | a status signal is dropped exactly when an unhandled error of the same trace and resource is on the same span, an ancestor or a descendant |
| `TraceSurvivors.EverySignalOnce` | packages/otlp-ingester/src/trace-dedupe.ts:417-440 | every signal is in exactly one survivor's members, unless it is dropped, and then in none |
| `TraceSurvivors.SurvivorsAreOrderedCliques` | packages/otlp-ingester/src/trace-dedupe.ts:402-440 | survivors are in batch order, each first among its members and preferred to them, which are recordings of one error |
| `TraceSurvivors.ExplanationSurvives` | packages/otlp-ingester/src/trace-dedupe.ts:380-440 | an error of a dropped signal's own trace and resource, on its own, an ancestor or a descendant span, is itself in the output |
| `TraceDedupePass.DedupeTraceSignals` | packages/otlp-ingester/src/trace-dedupe.ts:314-441 | the pass with its tables, caches and loops puts out those survivors |
| `TraceDedupePass.BestGroup` | packages/otlp-ingester/src/trace-dedupe.ts:353-368 | the scan over open groups |
| `TraceDedupePass.GroupBucket` | packages/otlp-ingester/src/trace-dedupe.ts:338-378 | one bucket grouped in time order |
| `TraceDedupePass.ExplainSpans` | packages/otlp-ingester/src/trace-dedupe.ts:383-393 | the two sets of rule 2 |
| `RequestSpans.RequestMembership` | packages/otlp-ingester/src/request-spans.ts:54-107 | on any input every span is resolved, each from its parent's answer or where a chain ends or a cycle was cut |
| `RequestSpans.ParentExactly` | packages/otlp-ingester/src/request-spans.ts:50-72 | the walk steps to the first span of the trace with the parent's id, exactly when that is another one of the same process and the link is no remote call |
| `RequestSpans.AnswerIsOutermost` | packages/otlp-ingester/src/request-spans.ts:78-106 | on every chain that ends, the answer is the outermost server span and the number of links, whatever the order |
| `RequestSpans.OutermostIsHighest` | packages/otlp-ingester/src/request-spans.ts:10-26 | outermost means the server span highest on the chain, or none when there is none |
| `RequestSpans.RequestIsItsOwn` | packages/otlp-ingester/src/request-spans.ts:40-48 | on any input a request is a server span on the span's own chain, and its own request |
| `RequestSpans.WalkUp` | packages/otlp-ingester/src/request-spans.ts:84-96 | the walk stops at a resolved span, a top or a span it met |
| `RequestSpans.ResolvePath` | packages/otlp-ingester/src/request-spans.ts:97-104 | a walk is resolved from the top down without touching earlier answers |
| `SourceMapCacheTheorems.StepKeeps` | packages/otlp-ingester/src/symbolicate.ts:259-377 | every step of loads, lookups and content reads keeps the whole invariant |
| `SourceMapCacheTheorems.WeightsBounded` | packages/otlp-ingester/src/symbolicate.ts:224-257 | over every run both weights are exact sums within their budgets, and the map count is within its bound or one |
| `SourceMapCacheTheorems.ContentsAreOwned` | packages/otlp-ingester/src/symbolicate.ts:308-321 | after every step each stored content belongs to a cached map |
| `SourceMapCacheTheorems.ReadsItsOwn` | packages/otlp-ingester/src/symbolicate.ts:308-334 | a map reads only contents of its own parse, as that parse found them |
| `SourceMapCacheTheorems.LoadKeepsNewest` | packages/otlp-ingester/src/symbolicate.ts:355-369 | a kept map becomes the most recently used, and as few of the least recently used ones go as needed; one over half the budget changes nothing |
| `SourceMapCacheTheorems.ContentKeepsNewest` | packages/otlp-ingester/src/symbolicate.ts:336-346 | the same for a stored content |
| `SourceMapCacheUse.SlotsInOrderOfUse` | packages/otlp-ingester/src/symbolicate.ts:259-369 | over every run both stores hold their slots in the order of last use, a use being a store, a hit or a read |
| `SourceMapCacheTheorems.OneLoadAtATime` | packages/otlp-ingester/src/symbolicate.ts:259-276 | a map is fetched only when no load of it is under way |
| `SourceMapCacheLoads.FetchesExactly` | packages/otlp-ingester/src/symbolicate.ts:259-279 | a fetch starts exactly when there is no fresh answer for the id and none is under way for it, whatever else is being fetched |
| `SourceMapCacheLoads.EndsOneLoad` | packages/otlp-ingester/src/symbolicate.ts:273 | the end of a load ends that load and no other |
| `SourceMapCacheLoads.FilesWithRoomAreKept` | packages/otlp-ingester/src/symbolicate.ts:309-346 | where there is room for the files of a new map, none above half the budget, every one that is not empty is stored with its weight and expiry |
| `SourceMapCacheHits.HitIsLatestLoad` | packages/otlp-ingester/src/symbolicate.ts:259-320 | over every run, a hit is what the latest load stored under that id: the map that load parsed, or nothing after a failed, missing or malformed one, each only until its own time is over |
| `SourceMapCacheHits.FreshIsHit` | packages/otlp-ingester/src/symbolicate.ts:261-268 | and what the latest load stored is a hit until then, unless it was evicted |
| `SourceMapCacheHits.ContentIsParsed` | packages/otlp-ingester/src/symbolicate.ts:311-334 | over every run, a content read is the one the load of that parse found at that source, while it is fresh |
| `SourceMapCacheHits.FreshContentIsRead` | packages/otlp-ingester/src/symbolicate.ts:324-334 | and a stored one is read until then |
| `SourceMapCacheClass.SourceMapCache.Lookup` | packages/otlp-ingester/src/symbolicate.ts:259-276 | a fresh hit is moved last and answered; an expired one is removed |
| `SourceMapCacheClass.SourceMapCache.Load` | packages/otlp-ingester/src/symbolicate.ts:278-322 | what each outcome of a fetch stores, and for how long |
| `SourceMapCacheClass.SourceMapCache.StoreSlot` | packages/otlp-ingester/src/symbolicate.ts:355-369 | storing and evicting maps |
| `SourceMapCacheClass.SourceMapCache.KeepContent` | packages/otlp-ingester/src/symbolicate.ts:336-346 | storing and evicting contents |
| `SourceMapCacheClass.SourceMapCache.RemoveEntry` | packages/otlp-ingester/src/symbolicate.ts:371-377 | a map leaves with its contents |
| `SourceMapCacheClass.SourceMapCache.ContentOf` | packages/otlp-ingester/src/symbolicate.ts:324-334 | a content is read and moved last, or dropped when it expired |
| `Glob.GlobMatch` | packages/otlp-ingester/src/suppression.ts:115-130 | leftmost search without backtracking is true exactly when strings in place of the stars make the pattern the text |
| `Glob.MeansReads` | packages/otlp-ingester/src/suppression.ts:108-114 | that is reading the pattern character by character, a star being any string |
| `Glob.LeftmostIsEnough` | packages/otlp-ingester/src/suppression.ts:122-128 | placing a segment leftmost loses no match |
| `RetainErrorsProofs.StepKeeps` | adapters/python/autter_tracing.py:301-372 | any ended span and a shutdown keep the whole invariant |
| `RetainErrorsProofs.BudgetKept` | adapters/python/autter_tracing.py:344-372 | over every run the counter is the sum of the buffered spans, spans and traces are within the budget, and retained traces buffer nothing |
| `RetainErrorsProofs.ForwardedOnceAndOnlyErrors` | adapters/python/autter_tracing.py:301-334 | over every run an unsampled span is forwarded at most once, and only when its trace erred |
| `RetainErrorsProofs.WhatIsForwarded` | adapters/python/autter_tracing.py:311-334 | the first error forwards the first spans of the trace since its buffer was made, in end order, and itself; after it a span is forwarded at once; before it nothing is |
| `RetainErrorsProofs.ErrorRetains` | adapters/python/autter_tracing.py:316-321 | after an error the trace's buffer is retained and empty |
| `RetainErrorsExact.SpanLeaves` | adapters/python/autter_tracing.py:301-334 | in every reached state a span leaves exactly the buffers it should: a sampled one changes none; after an error its own is empty and retained; else the span joins while there is room, the oldest buffer with spans goes when there are too many, and a healthy local root closes its own trace; nothing else goes |
| `RetainErrorsExact.ArrivesExactly` | adapters/python/autter_tracing.py:312-315 | before that, exactly the expired buffers go when a sweep is due, and a missing buffer is made, the oldest going at the limit |
| `RetainErrors.EvictsOldest` | adapters/python/autter_tracing.py:358-366 | over budget, exactly the oldest buffer that holds spans goes |
| `RetainErrorTracesClass.RetainErrorTraces.EndSpan` | adapters/python/autter_tracing.py:301-334 | `on_end` as one step |
| `RetainErrorTracesClass.RetainErrorTraces.EntryFor` | adapters/python/autter_tracing.py:344-351 | the buffer of a trace is made anew when missing, the oldest going when there are too many |
| `RetainErrorTracesClass.RetainErrorTraces.EvictOverBudget` | adapters/python/autter_tracing.py:358-366 | whole traces go, oldest first, until the budget holds |
| `RetainErrorTracesClass.RetainErrorTraces.SweepOld` | adapters/python/autter_tracing.py:368-372 | traces first seen too long ago go |
| `ProtoCount.ReadWritten` | packages/otlp-ingester/src/ingest-drops.ts:196-206 | reading a written varint gives the number back and stops at its end, up to ten bytes |
| `ProtoCount.ReadVarintAt` | packages/otlp-ingester/src/ingest-drops.ts:196-206 | the loop reads the varint of its range and nothing outside it |
| `ProtoCount.CountProtoPath` | packages/otlp-ingester/src/ingest-drops.ts:214-250 | on any bytes the scan ends, reads in bounds, and counts or rejects |
| `ProtoCount.ScanAt` | packages/otlp-ingester/src/ingest-drops.ts:216-249 | one level of the scan, nested ones included |
| `ProtoCount.CountsMessage` | packages/otlp-ingester/src/ingest-drops.ts:208-250 | counting the encoding of a message gives the number of its fields at the end of the path |
| `ProtoMeaning.CountsExactly` | packages/otlp-ingester/src/ingest-drops.ts:196-250 | for any bytes there is a count exactly when they are well-formed fields one after the other, down the path, and it is the number of length-delimited fields at its end; for all others there is none |
| `ProtoMeaning.FieldExactly` | packages/otlp-ingester/src/ingest-drops.ts:219-245 | a field is read exactly when the bytes start with a tag and the body its wire type asks for |
| `SourcesContent.StoredSourcesContent` | packages/otlp-ingester/src/source-maps.ts:110-144 | candidates are collected, sorted by size and source order, and kept while they fit |
| `SourcesContent.FillKept` | packages/otlp-ingester/src/source-maps.ts:134-143 | the greedy loop keeps the longest prefix that fits at every step |
| `SourcesContentTheorems.FitsTheLimit` | packages/otlp-ingester/src/source-maps.ts:96-101 | when any content is kept the whole JSON fits the limit |
| `SourcesContentExact.StoredExactly` | packages/otlp-ingester/src/source-maps.ts:110-146 | what is stored is the map's own contents of allowed sources, each in its place: every one kept is smaller than every allowed one left out, or as large and of an earlier source; the JSON fits the limit, and with any other allowed content it would not |
| `SourcesContentTheorems.StoredIsFixedPoint` | packages/runtime-cli/src/upload.ts:101-103 | storing what was stored changes nothing, so the CLI's map is the one the ingester stores |
| `SourcesContentTheorems.KeepsMostExactly` | packages/otlp-ingester/src/source-maps.ts:131-143 | no choice that fits keeps more files, exactly unless the map is over the limit before any content, its smallest content does not fit alone and all its tiny ones together would |
| `SourcesContentTheorems.EmptyFilesAreLost` | packages/otlp-ingester/src/source-maps.ts:136-138 | a concrete map where two empty files would fit together and none is kept |

## Left out

- Express routes, ClickHouse, `fetch`, file walking, gzip, bundler hooks, configuration and setup detection: only
  "a write succeeded or failed" and "the process stopped between two writes" remain, as steps.
- Hashes, redaction, message normalisation, stack and JSON parsing: opaque functions or already parsed values.
- Rounding of JavaScript numbers: counters, byte sizes and times are exact integers, and protobuf varints above 2^53
  are exact too; the decoded VLQ value -0 is 0.
- Clocks: each step takes its time as an argument. In loop collapse the clock never goes backwards, as the program
  assumes; in the sink and the cache any times are allowed. Backoff and jitter: a retry may be due at any time.
- Loop collapse: an id reported as repeated while its first request is in flight, and lost when that request rolls
  back, is outside conservation, which is over committed folds. `planWindows` does not throw midway. Window keys are
  tuples instead of joined strings. Timers and failure logs are left out.
- Sink: a request that fails before it is under way (a `fetch` that throws instead of rejecting) and the drop callback.
  A forwarder without a URL does nothing. Bodies are never empty, so every batch has at least one byte.
- Trace pass: the content merged from other recordings into a survivor; which recordings it stands for is modelled.
  Ids and resource names hold no NUL characters, so joined keys are tuples. Signatures are computed once.
- Span requests: the tie between spans with the same ids is the first one, as in the program; nothing else is left out.
- Source map cache: the estimate of a parsed map's size and its metadata; promises shared by callers that wait for one
  load are represented by the set of loads under way.
- Scopes: finding functions and names in a bundle's syntax tree, and naming them; the model starts from scope entries
  and from wanted positions. Name indexes are below 2^31, as an array's are.
- Injection: a write that is itself cut short, the encoding of the bundle's bytes, and the snippet's constant text,
  which is a parameter (one line, starting with `;`). The snippet line recorded in a map is an integer.
- InjectRerun.BundleAndMapMoveTogether: stated of the bundle with its snippet, before the id comment is appended at
  the end, which moves no line.
- SourcesContentTheorems.StoredIsFixedPoint: the CLI and the ingester run the same steps on the same in-app rule, so
  the model has them once; equality of the two source texts is not a theorem here.
- ProtoCount.CountsMessage: fields followed before the end of the path must be messages; for other payloads the scan
  reads whatever bytes they hold, as the program does.
- RetainErrorsProofs.WhatIsForwarded: `on_end` is one step under its lock, and the forwarding after it is part of the
  step; forking a worker starts a new processor.
- DecodedMappings.LookupLoaded: the other parts of the size estimate are a parameter.
- Suppression filters other than the glob, sampling, log promotion, latency, drop counters, breadcrumbs, rate limiters
  and compatibility code: easier versions of what is here.
