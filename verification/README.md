# Verified model of the UniFi MCP server's stateful core

This project models, in Dafny, the parts of the server that carry state across calls, crashes and
concurrent callers, and proves what they promise.

- **Traffic collector** (`Schedule`, `RoundRobin`, `Publication`, `PublicationPoints`, `Base64`, `CollectorMachine`,
  `CollectorSafety`, `CollectorLedger`, `CollectorAgreement`, `CollectorLateSelector`, `CollectorReplay`,
  `CollectorFairness`, `CollectorStall`, `CollectorStatus`, `Worker`): the hourly scheduler, the building
  of a publication, and the crash-safe publisher. The publisher is a machine of atomic steps over a
  durable status, a durable pending snapshot, a volatile status and the sink. A crash, a rejected write,
  a lost acknowledgement, a partly applied batch, a failed file operation (with or without effect) or a
  late delivery may happen at every point where the worker can be interrupted. `Worker.Collector` is the
  object of the program; its methods are proved to be runs of the machine.
- **Protect events** (`ProtectEvents`): one page of a newest-first response, and the walk over all pages.
- **Local login session** (`LegacySession`, `SessionMachine`) and **key set cache** (`JwksCache`): the
  objects, and any number of callers as interleaved steps over a nondecreasing clock.
- **Streaming and batching**: stdio framing (`BoundedStdio`), request batching (`Publication`), template
  expansion under a ceiling (`SystemLog`).
- **Accounting and paging**: checked totals (`ActivityTotals`), WAN coverage (`WanReconciliation`), offset
  paging (`NetworkPages`).

`dafny verify dfyconfig.toml` checks all of it.

## Main results

- Selector soundness holds in every run, late deliveries included. A query joined on the selector sees
  exactly the points of the selected snapshot, and those points alone, in numeric part order, decode to
  its exact archive.
- Gap conservation holds in every run and in terms of the stored status alone: the counter is the number of
  hours, from the start of the first nonempty window on, whose flag was not set when it was last stored.
- The stored flags and the gap counter agree with the selectors in the sink in every run whose late selector
  writes say of their hour what is recorded of it. That condition is exact for the agreement of flags, hour
  by hour and for the gaps (`CollectorAgreement.HarmlessExact`, `LateCheckpointExact`, `LateGapsExact`), and
  a run that breaks it exists under every configuration
  (`CollectorLateSelector.AgreementNeedsPromptDelivery`). For agreement snapshot by snapshot the exact
  condition is `CollectorAgreement.LateSelectorExact`.
- While a snapshot is pending, every step of every run leads to the same stored status, its time and lag
  stamps apart, and the same stored points; the selectors follow unless a superseded one is delivered late.
- Round robin: an hour is overtaken by at most as many publications as there were candidates ahead of it,
  plus, if the cursor has passed it, the hours that arrived meanwhile. Every run of the machine, replays,
  crashes and lost saves included, is such a run of the round robin (`CollectorFairness.WorkerWaitBound`).
  So an hour above the cursor with m candidates up to it is published, if it stays a candidate, by the time
  ceil(m / per cycle) cycles have ended, however many others fail (`CollectorFairness.WorkerProgress`).
- What a publication says reads back from the bodies of its requests: one point for every part of the archive, one
  for every client with its counters and its name, one for the hour, and nothing else.
- The event walk succeeds exactly when every group of simultaneous events fits a page, and then returns
  the window as it was when the walk began, although newer rows may come and go.
- Successful logins exceed by at most one the number of different generations that were ever rejected.
- Greedy request batching is optimal among all splits of the same lines, in order, within the limit.

## Where the code does less than its description

- The rotation protects hours only from hours that publish, collected or not. An hour whose publication cannot
  be built ends its cycle with an error and leaves the cursor in place. It comes first again exactly as
  long as it stays a candidate and either the cursor has not passed it or no new hour arrives
  (`RoundRobin.StaysFirstIff`); as long as it does, nothing is published
  (`CollectorFairness.UnbuildableHourBlocks`), although other hours wait. The archive of an hour whose
  sources all failed can exceed its bound, since it holds the escaped text of their errors
  (`CollectorStall.OversizedHourStalls`); the comment at `crates/unifi-server/src/collector.rs:41` says that
  an unavailable old interval cannot starve new data.
- A pending publication that the sink does not accept holds everything up, even after its hour has left the
  history (`CollectorFairness.UnacceptedPublicationBlocks`).
- Gaps are counted from the first nonempty window. Hours that pass after an empty one are lost, and only those
  (`Schedule.CountStartsIff`). Over whole runs, a worker that restarts before a window was stored counts
  from its own first window (`CollectorLedger.OriginOpened`).
- Flags and gaps rely on a clock that does not go back. A flag survives exactly if its hour lies in every window
  in between (`Schedule.FlagSurvivesIff`). The counter comes out too high by the hours that reappear, which
  are counted twice, and by the resolved hours that were forgotten (`Schedule.BackwardClockRecounts`); a clock
  that leaps ahead and returns leaves it too high by the hours that the leap took for expired
  (`Schedule.LeapOvercounts`). Through any two calls it is right exactly under `Schedule.CountSurvives`
  (`Schedule.GapsSurviveClockIff`).
- A cache lifetime below the refresh cooldown makes a served key unavailable; the settings accept such a
  lifetime (`JwksCache.AvailableIffLifetimeCoversCooldown`).
- A network list of more than 2^31 records reports offsets that the next call refuses
  (`NetworkPages.WalkCompleteIff`).

## Assumptions

- Collector: settings within the bounds that configuration parsing enforces
  (`crates/unifi-server/src/collector/config.rs:75-102`), one worker per state directory, and scheduler
  times that do not decrease and fit 64 bits. A cycle deadline during a write counts as a failed write.
- The sink stores points by content and keeps, per hour, the selector written last. A write that was not
  acknowledged may have been applied, may be applied later, or never.
- Text in `Publication` is a sequence of single-byte characters; tags hold no space, quote or newline. JSON
  encoding, the digest and the projected fields of a snapshot are part of the snapshot; the query result
  assumes that the digest tells the selected revision from the other stored revisions of its hour.
- Responses, clocks, file system outcomes and parsers are parameters. The reader of the stdio transport ends or
  fails after the bytes it delivers; both close the transport.

## Model

| member | source | states |
|---|---|---|
| `Schedule.WindowShape` | crates/unifi-server/src/collector.rs:165-186 | window, correction window and their order are whole hours within the configured history |
| `Schedule.WindowMeaning` | crates/unifi-server/src/collector.rs:166-186 | the window ends at the greatest whole hour that has settled; it and the correction window reach back from there by their own numbers of hours, or to zero |
| `Schedule.ScheduleConservesGaps` | crates/unifi-server/src/collector.rs:165-185 | one scheduler call keeps the counter equal to the unresolved hours from the origin to the window, hours skipped by an outage included, and keeps surviving flags |
| `Schedule.FirstScheduleTracks` | crates/unifi-server/src/collector.rs:165-185 | the first call starts the count at zero with every hour of the window unresolved |
| `Schedule.CountStartsIff` | crates/unifi-server/src/collector.rs:166-180 | from a status without hours, two calls count the hours that left in between if and only if the first window was not empty or nothing left |
| `Schedule.FlagSurvivesIff` | crates/unifi-server/src/collector.rs:180-185 | through calls at any times, a set flag survives if and only if its hour lies in every window |
| `Schedule.BackwardClockRecounts` | crates/unifi-server/src/collector.rs:171-185 | after the clock went back and on, the counter exceeds the unresolved hours by exactly those that reappeared and the resolved ones that were forgotten |
| `Schedule.GapsSurviveClockIff` | crates/unifi-server/src/collector.rs:171-185 | through any two calls, at any times, the counter is that of the last window if and only if `CountSurvives` |
| `Schedule.LeapOvercounts` | crates/unifi-server/src/collector.rs:171-185 | after a leap ahead and back, the counter is too high by the unresolved hours between the two windows |
| `Schedule.ReappearingHoursCountTwice` | crates/unifi-server/src/collector.rs:171-185 | an hour that reappears before the old window is counted twice |
| `Schedule.CommitKnownHour` | crates/unifi-server/src/collector.rs:229-246 | publishing a known hour changes its flag alone; the trim loop has nothing to do |
| `Schedule.CommitFields` | crates/unifi-server/src/collector.rs:222-251 | the error tells incomplete hours from collected ones, the last published and last collected hours are the latest |
| `Schedule.TrimKeepsNewest` | crates/unifi-server/src/collector.rs:240-245 | the trim loop keeps the newest 168 hours and counts the unresolved ones among the rest |
| `RoundRobin.QueueShape` | crates/unifi-server/src/collector.rs:186-197 | the rotated candidate list is the candidate set in rotation order |
| `RoundRobin.CandidateIff` | crates/unifi-server/src/collector.rs:186-193 | candidates are the unresolved hours and, of the resolved ones, exactly as many of the newest as the correction window has hours |
| `RoundRobin.PickedIffRankSmall` | crates/unifi-server/src/collector.rs:194-199 | an hour is picked exactly when fewer than the per-cycle number of candidates come before it |
| `RoundRobin.AttemptsShortenWait` | crates/unifi-server/src/collector.rs:194-246 | each publication shortens the wait of every hour behind it by one |
| `RoundRobin.NextCycleRank` | crates/unifi-server/src/collector.rs:186-199 | later hours never delay an hour above the cursor; waits carry over to the next call |
| `RoundRobin.WaitBound` | crates/unifi-server/src/collector.rs:186-246 | bounded overtaking over every run, interrupted cycles included |
| `RoundRobin.RoundRobinProgress` | crates/unifi-server/src/collector.rs:186-246 | with m candidates after the cursor up to it, an hour is attempted within ceil(m / per cycle) complete cycles, failed ones in between not counted |
| `RoundRobin.FixedWindowProgress` | crates/unifi-server/src/collector.rs:186-246 | in a fixed window every one of n candidates is attempted within ceil(n / per cycle) complete cycles, failed ones in between not counted |
| `RoundRobin.StaysFirstIff` | crates/unifi-server/src/collector.rs:186-199 | after a cycle that publishes nothing, the hour that came first comes first again if and only if it is still a candidate and the cursor has not passed it or no hour arrived |
| `Base64.DecodeEncode` | crates/unifi-server/src/collector/sink.rs:43-51 | a strict decoder of section 4 of RFC 4648 inverts the encoding |
| `Base64.EncodeConcat` | crates/unifi-server/src/collector/sink.rs:43-51 | encodings of whole three-byte groups concatenate |
| `Base64.AlphabetShape` | crates/unifi-server/src/collector/sink.rs:47-50 | the alphabet of table 1 of RFC 4648 |
| `Base64.GroupIs` | crates/unifi-server/src/collector/sink.rs:47-50 | three bytes are four digits of six bits each, the first bits first |
| `Base64.TestVector` | crates/unifi-server/src/collector/sink.rs:47-50 | a test vector of section 10 of RFC 4648 |
| `Publication.QuotedRoundTrip` | crates/unifi-server/src/collector/sink.rs:24-26 | a quoted field reads back as its value and ends where it ended, whatever follows |
| `Publication.GroupsKeepLines` | crates/unifi-server/src/collector/sink.rs:146-157 | batches hold all lines, once and in order |
| `Publication.GroupsSized` | crates/unifi-server/src/collector/sink.rs:146-157 | no batch is empty or above 256 KiB; all but the last exceed 192 KiB |
| `Publication.GroupsMinimal` | crates/unifi-server/src/collector/sink.rs:146-161 | no split of the lines in order within the limit needs fewer requests |
| `Publication.GroupsBound` | crates/unifi-server/src/collector/sink.rs:146-161 | the number of requests is bounded by the total size |
| `Publication.Batch` | crates/unifi-server/src/collector/sink.rs:144-161 | the batching loop computes the greedy grouping; it fails exactly for a line above 64 KiB or more than 256 requests |
| `Publication.Build` | crates/unifi-server/src/collector/sink.rs:33-169 | a publication is built exactly when the collected activity and WAN reports can be read and archive, lines and requests are within their bounds |
| `Publication.ChunkEncodings` | crates/unifi-server/src/collector/sink.rs:43-51 | the encoded chunks concatenate to the encoding of the whole archive |
| `Publication.BodyLines` | crates/unifi-server/src/collector/sink.rs:144-161 | the written bodies split back into exactly the lines |
| `Publication.ArchiveRoundTrip` | crates/unifi-server/src/collector/sink.rs:43-51 | decoding the archive lines of the written bodies gives back the archive bytes |
| `Publication.OnePointPerPart` | crates/unifi-server/src/collector/sink.rs:43-51 | every part number of a publication has exactly one stored point and no other number has any |
| `Publication.ArchiveFromPoints` | crates/unifi-server/src/collector/sink.rs:43-51 | the archive reads back from the unordered set of stored points, by numeric part |
| `PublicationPoints.ClientPoints` | crates/unifi-server/src/collector/sink.rs:77-95 | the written bodies hold one point for every client, in order, with tags, counters, start, and the name, which reads back unless the line would exceed 64 KiB with it |
| `PublicationPoints.PartPoints` | crates/unifi-server/src/collector/sink.rs:43-51 | and one for every part of the archive, numbered from zero, with tags and start |
| `PublicationPoints.HourIsLast` | crates/unifi-server/src/collector/sink.rs:144 | the last line is the only point of the hour, with tags, summary and start |
| `PublicationPoints.RecordCount` | crates/unifi-server/src/collector/sink.rs:43-145 | no other line is written; the record count is that of parts and clients and one |
| `PublicationPoints.ChunkShape` | crates/unifi-server/src/collector/sink.rs:43-45 | every part but the last has 12,000 bytes |
| `PublicationPoints.BuildableIff` | crates/unifi-server/src/collector/sink.rs:33-161 | the bounds in numbers: 32 MiB of archive, 64 KiB a line, 256 requests, and readable reports |
| `CollectorSafety.StepSafe` | crates/unifi-server/src/collector.rs:202-305 | every step keeps map, pending snapshot, write order and selectors consistent |
| `CollectorSafety.SelectorSoundness` | crates/unifi-server/src/collector/sink.rs:216-221 | in every run a selected snapshot is stored completely |
| `CollectorSafety.JoinIsSelectedSnapshot` | crates/unifi-server/src/collector/sink.rs:12-18 | joining on the selector returns exactly the points of the selected snapshot |
| `CollectorSafety.JoinedArchive` | crates/unifi-server/src/collector/sink.rs:12-18 | in every run the points joined on a selector decode to the selected snapshot's archive |
| `CollectorSafety.DurableMapInvariant` | crates/unifi-server/src/collector.rs:121-128 | the durable map covers one window of at most 168 hours, contains the pending hour, and passes the startup checks |
| `CollectorSafety.RestartComesUp` | crates/unifi-server/src/collector.rs:116-154 | a restart never refuses its own saved status |
| `CollectorSafety.NoFetchWhilePending` | crates/unifi-server/src/collector.rs:215-221 | nothing is fetched and no window moves while a snapshot is pending |
| `CollectorStatus.LatestHours` | crates/unifi-server/src/collector.rs:226-239 | in every run the stored status names the latest published hour, and no set flag is later than the last collected hour |
| `CollectorStatus.SinkFields` | crates/unifi-server/src/collector.rs:222-228 | the sink is reported unavailable after a failed write, available after an acknowledged selector, with the number of its points |
| `CollectorStatus.LagIff` | crates/unifi-server/src/collector.rs:303-307 | the lag counts from the end of the last published hour |
| `CollectorStatus.RestartIff` | crates/unifi-server/src/collector.rs:116-128 | startup accepts a stored status exactly if it is bound to the same source and destination and has at most 168 hours |
| `CollectorStatus.ReplayIff` | crates/unifi-server/src/collector.rs:207-214 | a pending snapshot is replayed exactly if it is for one whole hour and can be built |
| `CollectorLedger.StepAccounts` | crates/unifi-server/src/collector.rs:202-285 | every step of every run keeps flags and gaps equal to what was recorded, in the volatile and the stored status |
| `CollectorLedger.FlagsRecorded` | crates/unifi-server/src/collector.rs:229-232 | in every run the flag last stored of an hour is `collected` of the snapshot recorded last |
| `CollectorLedger.GapConservation` | crates/unifi-server/src/collector.rs:165-182 | in every run the stored counter is the number of hours from the first nonempty window to the current one whose flag was not set when it was last stored |
| `CollectorLedger.GapsFit` | crates/unifi-server/src/collector.rs:172-179 | in every run the counter never exceeds the hours up to the window, so it fits 64 bits |
| `CollectorLedger.OriginOpened` | crates/unifi-server/src/collector.rs:168-185 | gaps count from the start of the first nonempty window scheduled since a worker started on a status without hours |
| `CollectorLedger.OriginFixed` | crates/unifi-server/src/collector.rs:168-185 | once stored, the hour from which gaps count never moves |
| `CollectorAgreement.StepFlagsGood` | crates/unifi-server/src/collector.rs:202-285 | every step whose late selector is harmless keeps flags and selectors in agreement |
| `CollectorAgreement.CheckpointAgreement` | crates/unifi-server/src/collector.rs:215-256 | without a pending snapshot for an hour, its stored flag is `collected` of the selected snapshot |
| `CollectorAgreement.GapsInSink` | crates/unifi-server/src/collector.rs:165-182 | the stored counter is the number of hours since the first window whose selector names no fully collected snapshot |
| `CollectorAgreement.HarmlessExact` | crates/unifi-server/src/collector.rs:215-221 | a late selector keeps the agreement of flags if and only if it says of its hour what is recorded, or the hour is still to be published |
| `CollectorAgreement.LateCheckpointExact` | crates/unifi-server/src/collector.rs:215-221 | at its hour, agreement holds afterwards if and only if the hour is pending, unknown, or flagged as the late snapshot says |
| `CollectorAgreement.LateGapsExact` | crates/unifi-server/src/collector.rs:215-221 | the gap counter agrees afterwards if and only if the hour has not left the window or was recorded as the late snapshot says |
| `CollectorAgreement.StepGood` | crates/unifi-server/src/collector.rs:202-285 | every prompt step keeps selected and recorded snapshots in agreement |
| `CollectorAgreement.PendingAgreement` | crates/unifi-server/src/collector.rs:215-256 | every hour selects the recorded snapshot, or the pending one if it is its hour |
| `CollectorAgreement.LateSelectorExact` | crates/unifi-server/src/collector.rs:215-221 | a late selector keeps that agreement if and only if it is the pending or the recorded snapshot |
| `CollectorAgreement.PromptRunsAgree` | crates/unifi-server/src/collector.rs:215-256 | every prompt run is harmless, so flags and gaps agree with the sink in it |
| `CollectorLateSelector.LateSelectorUndoesCorrection` | crates/unifi-server/src/collector/sink.rs:216-221 | for any settings and any two snapshots of an hour, a run ends with the older one selected after the newer one was recorded |
| `CollectorLateSelector.AgreementNeedsPromptDelivery` | crates/unifi-server/src/collector.rs:215-221 | under every configuration some run breaks checkpoint agreement |
| `CollectorReplay.CommitTwice` | crates/unifi-server/src/collector.rs:222-251 | committing a snapshot again changes nothing |
| `CollectorReplay.StepOutcome` | crates/unifi-server/src/collector.rs:202-256 | every step of every run keeps the checkpoint and the points that the pending publication leads to, or leaves them behind |
| `CollectorReplay.ReplayDeterminism` | crates/unifi-server/src/collector.rs:215-256 | in every run, any way of getting a pending snapshot published ends in the same stored status, time and lag stamps apart, and the same stored points |
| `CollectorReplay.ReplaySelectors` | crates/unifi-server/src/collector.rs:215-256 | without superseded selectors in between, it ends in the same sink |
| `CollectorFairness.NextFirstIff` | crates/unifi-server/src/collector.rs:186-199 | in any state of a worker that has published nothing since, the next call puts the hour first if and only if it would still come first |
| `CollectorFairness.UnbuildableHourBlocks` | crates/unifi-server/src/collector.rs:258-285 | while an hour that cannot be built comes first, no run makes anything pending, records or selects anything, late deliveries aside |
| `CollectorStall.OversizedHourStalls` | crates/unifi-server/src/collector.rs:263-281 | with room for two hours, a run ends with a second hour waiting and an hour of failed sources that cannot be built first again |
| `CollectorFairness.UnacceptedPublicationBlocks` | crates/unifi-server/src/collector.rs:202-221 | while the sink does not accept a pending publication, no run moves the window or fetches an hour |
| `CollectorFairness.StepFollows` | crates/unifi-server/src/collector.rs:165-285 | each step of the machine is a move of the round robin: a call, a publication, or none |
| `CollectorFairness.RunIsRoundRobin` | crates/unifi-server/src/collector.rs:165-285 | every run of the machine from a scheduler call on is a run of the round robin with as many publications and the same plan in the end |
| `CollectorFairness.WorkerWaitBound` | crates/unifi-server/src/collector.rs:186-285 | bounded overtaking over every run of the worker, in publications and in ended cycles |
| `CollectorFairness.WorkerProgress` | crates/unifi-server/src/collector.rs:186-285 | over every run of the worker, an hour above the cursor is published within ceil(m / per cycle) ended cycles or stops being a candidate |
| `CollectorFairness.WorkerFixedWindowProgress` | crates/unifi-server/src/collector.rs:186-285 | over every run in a fixed window, each of n candidates is published within ceil(n / per cycle) ended cycles or stops being one |
| `Worker.Collector.constructor` | crates/unifi-server/src/collector.rs:130-154 | startup on an empty directory is the machine's first restart |
| `Worker.Collector.Reopen` | crates/unifi-server/src/collector.rs:116-154 | startup on whatever an earlier worker left behind is accepted |
| `Worker.Collector.CallScheduler` | crates/unifi-server/src/collector.rs:165-200 | the scheduler's loops compute the specified status and picks |
| `Worker.Collector.Commit` | crates/unifi-server/src/collector.rs:222-251 | the status updates of an acknowledged publication, trim loop included |
| `Worker.Collector.SendBatches` | crates/unifi-server/src/collector/sink.rs:216-219 | each batch goes out after the one before it was accepted |
| `Worker.Collector.PublishPending` | crates/unifi-server/src/collector.rs:202-256 | batches, then selector, then save, then removal, as a run of the machine |
| `Worker.Collector.PublishPicks` | crates/unifi-server/src/collector.rs:263-283 | the picked hours are published in order, each with its flag and the cursor on it |
| `Worker.Collector.Cycle` | crates/unifi-server/src/collector.rs:258-285 | a cycle is a run of the machine; a success ends a cycle, leaves nothing pending and, if nothing was pending, is a complete cycle of the round robin |
| `Worker.CyclesChain` | crates/unifi-server/src/collector.rs:258-285 | the special case of unbroken successes: they are a run of complete cycles of the round robin |
| `Worker.Collector.Conclude` | crates/unifi-server/src/collector.rs:293-311 | the end of a cycle changes error, time and lag alone, and saves the status |
| `Worker.Collector.Run` | crates/unifi-server/src/collector.rs:287-324 | the service loop, whatever fails, is one run of the machine, in which every pass that it completes is an ended cycle |
| `ProtectEvents.FinishPage` | crates/unifi-api/src/legacy.rs:1921-2012 | the pops and truncations give the rows of one part of the window, or the first failing check |
| `ProtectEvents.PagePromises` | crates/unifi-api/src/legacy.rs:867-897 | whoever answers, a continuation lies in the window, strictly below the request, with a nonempty page above it, newest first |
| `ProtectEvents.BoundaryError` | crates/unifi-api/src/legacy.rs:1979-1996 | the boundary error occurs exactly when the newest remaining group exceeds the limit |
| `ProtectEvents.RequestRefusedIff` | crates/unifi-api/src/legacy.rs:874-888 | which requests are refused: start after end, a limit outside 1 to 999, a continuation outside the range |
| `ProtectEvents.ResponseRefusedIff` | crates/unifi-api/src/legacy.rs:1921-1996 | which responses are refused, row by row |
| `ProtectEvents.HonestPage` | crates/unifi-api/src/legacy.rs:1946-2011 | an honest page fails exactly when the newest group of the stored window exceeds the limit, and else holds exactly the stored rows of its part of the window |
| `ProtectEvents.WalkComplete` | crates/unifi-api/src/legacy.rs:854-897 | the walk succeeds exactly when every group fits, and returns the window as it was at the start, despite changes among newer rows |
| `ProtectEvents.FixedStoreWalk` | crates/unifi-api/src/protect.rs:544-552 | over a fixed store the walk returns the window |
| `LegacySession.BackoffWindow` | crates/unifi-api/src/legacy.rs:1755-1770 | one to sixty seconds, `Retry-After` (section 10.2.3 of RFC 9110) honoured inside that range, five seconds without it, one second for other failures |
| `LegacySession.LoginEffect` | crates/unifi-api/src/legacy.rs:1592-1673 | success needs a known kind, counts a generation and clears the failure; failure changes at most the kind; the kind stays unknown exactly without an answer or after a transient one, and is standalone exactly after 404 |
| `LegacySession.LoginSucceedsIff` | crates/unifi-api/src/legacy.rs:1639-1673 | a login succeeds exactly when its deciding answer exists, is readable, has a status from 200 to 299 and no rejection |
| `LegacySession.LoginErrors` | crates/unifi-api/src/legacy.rs:1639-1668 | the error of each refused answer |
| `LegacySession.LoginRequiredIff` | crates/unifi-api/src/legacy.rs:1864-1867 | status 401 or the rejection code `api.err.LoginRequired` |
| `LegacySession.LegacyClient.LogIn` | crates/unifi-api/src/legacy.rs:1589-1621 | detection of the console family, and no kind from a transient answer |
| `LegacySession.LegacyClient.EnsureSession` | crates/unifi-api/src/legacy.rs:1549-1564 | a generation exactly when authenticated; a shared failure changes nothing; a failed login is recorded |
| `LegacySession.LegacyClient.RefreshSession` | crates/unifi-api/src/legacy.rs:1566-1587 | a newer session is adopted, a shared failure returned, else one login is made |
| `SessionMachine.MethodsAreSteps` | crates/unifi-api/src/legacy.rs:1549-1587 | what the client methods do under the mutex is what the caller steps do |
| `SessionMachine.EnterIff` | crates/unifi-api/src/legacy.rs:1549-1564 | in every run a session check uses the session, begins a login exactly when every backoff is over, or ends with the shared failure |
| `SessionMachine.RefreshIff` | crates/unifi-api/src/legacy.rs:1566-1587 | a refresh adopts a newer session, begins a login exactly when every backoff is over, or ends |
| `SessionMachine.LoginEndsIff` | crates/unifi-api/src/legacy.rs:1419-1443 | exactly an authenticating answer lets a caller go on, and only a read goes out again |
| `SessionMachine.ReceiveIff` | crates/unifi-api/src/legacy.rs:1421-1441 | which replies lead to a refresh, which to another send after a pause of at most ten seconds |
| `SessionMachine.StepSafe` | crates/unifi-api/src/legacy.rs:1407-1443 | every step of every caller keeps the session, mutex, rejection and send-count invariants |
| `SessionMachine.SessionInvariant` | crates/unifi-api/src/legacy.rs:110-125 | authenticated means kind known and no failure; the generation counts successful logins |
| `SessionMachine.SendBound` | crates/unifi-api/src/legacy.rs:1419-1442 | each mutation is sent at most once, each read at most twice |
| `SessionMachine.SendsKnowTheKind` | crates/unifi-api/src/legacy.rs:1499-1505 | the check for a missing console kind never fails |
| `SessionMachine.LoginBeginsFresh` | crates/unifi-api/src/legacy.rs:1552-1587 | a login begins unauthenticated or from a caller whose generation is current |
| `SessionMachine.SingleFlight` | crates/unifi-api/src/legacy.rs:1566-1587 | successful logins exceed the number of rejected generations by at most one |
| `SessionMachine.KindLatched` | crates/unifi-api/src/legacy.rs:1592-1614 | the console kind, once known, never changes |
| `SessionMachine.LoginSpacing` | crates/unifi-api/src/legacy.rs:1740-1753 | no login begins before the backoff of an earlier failure is over |
| `SessionMachine.FailureRate` | crates/unifi-api/src/legacy.rs:1740-1770 | any D seconds hold at most D + 1 login failures |
| `JwksCache.IdentityVerifier.FindKey` | crates/unifi-server/src/auth.rs:289-337 | the double-checked lookup: cache, cache again under the mutex, then one fetch |
| `JwksCache.FindKeyIsSteps` | crates/unifi-server/src/auth.rs:289-337 | the lookup of the object is the look, acquire and complete steps, whatever steps other callers take before and during the fetch |
| `JwksCache.LookupIff` | crates/unifi-server/src/auth.rs:323-336 | in every run, from the sets served and the fetches completed alone: the key of the set served last if fresh, else unavailable exactly within thirty seconds of a fetch, else a fetch |
| `JwksCache.AcquireIff` | crates/unifi-server/src/auth.rs:299-308 | so a lookup without a fresh key begins a fetch exactly if none completed in the last thirty seconds |
| `JwksCache.CompleteIff` | crates/unifi-server/src/auth.rs:305-320 | a fetch answers its caller from the set it brought, which is then the set served last |
| `JwksCache.FetchSpacing` | crates/unifi-server/src/auth.rs:295-308 | a fetch begins at least thirty seconds after every completed one |
| `JwksCache.ReturnedKeysFresh` | crates/unifi-server/src/auth.rs:323-330 | every returned key was served less than the cache lifetime ago |
| `JwksCache.FailuresKeepKeys` | crates/unifi-server/src/auth.rs:305-320 | failed fetches never drop unexpired keys |
| `JwksCache.AvailableIffLifetimeCoversCooldown` | crates/unifi-server/src/auth.rs:289-337 | if every fetch brings a key, it is never reported unavailable exactly when the lifetime is at least the cooldown |
| `BoundedStdio.FrameEndMeaning` | crates/unifi-server/src/portable.rs:268-269 | a frame ends at the first newline |
| `BoundedStdio.MessagesStep` | crates/unifi-server/src/portable.rs:262-285 | a frame that is too long or does not parse ends the stream; any other yields its message |
| `BoundedStdio.UnfinishedFrame` | crates/unifi-server/src/portable.rs:262-285 | what follows the last newline is no message |
| `BoundedStdio.FramesRoundTrip` | crates/unifi-server/src/portable.rs:247-285 | concatenated frames read back as their messages |
| `BoundedStdio.Transport.Receive` | crates/unifi-server/src/portable.rs:262-285 | the outcome depends on the byte stream alone; a dropped call loses nothing; the partial message stays within the limit |
| `BoundedStdio.Transport.ReceiveAll` | crates/unifi-server/src/portable.rs:230-285 | for every cut into pieces the messages are those of splitting at newlines |
| `SystemLog.TokensLossless` | crates/unifi-mcp/src/tools/system_log.rs:150-172 | reading a template into tokens loses nothing and ignores entities |
| `SystemLog.InsertedTextVerbatim` | crates/unifi-mcp/src/tools/system_log.rs:132-133 | an inserted name appears as it is, even if it looks like a template |
| `SystemLog.ReplacementIff` | crates/unifi-mcp/src/tools/system_log.rs:141-164 | what the six placeholders stand for: the name of their entity, without one its id |
| `SystemLog.PlainThen` | crates/unifi-mcp/src/tools/system_log.rs:168-172 | plain text is shown as it is and does not change how the rest is read |
| `SystemLog.PlaceholderShown` | crates/unifi-mcp/src/tools/system_log.rs:151-165 | a closed brace shows its replacement or itself, and reading goes on behind it |
| `SystemLog.UnclosedShown` | crates/unifi-mcp/src/tools/system_log.rs:165-168 | a brace that is never closed is shown as it is |
| `SystemLog.TemplateIff` | crates/unifi-mcp/src/tools/system_log.rs:135-139 | the raw message, or the title when it is missing or empty |
| `SystemLog.FindReplacement` | crates/unifi-mcp/src/tools/system_log.rs:141-164 | a placeholder stands for the name of its entity, else its id, passing over empty ones; unknown names have no replacement |
| `SystemLog.Expand` | crates/unifi-mcp/src/tools/system_log.rs:149-176 | the loop's output is the first 257 characters of the unbounded one-pass expansion |
| `SystemLog.BoundedText` | crates/unifi-mcp/src/tools.rs:11671-11680 | unchanged if it fits 256 characters, else its first 255 and an ellipsis |
| `SystemLog.Message` | crates/unifi-mcp/src/tools/system_log.rs:132-178 | the displayed text is that of the unbounded expansion |
| `ActivityTotals.ValidMac` | crates/unifi-api/src/collection/totals.rs:22-57 | true exactly for six hexadecimal octets that are neither a group address nor all zero |
| `ActivityTotals.AddressIff` | crates/unifi-api/src/collection/totals.rs:22-57 | which texts are addresses, character by character |
| `ActivityTotals.BlanksIgnored` | crates/unifi-api/src/collection/totals.rs:73 | blanks around an address do not make another client |
| `ActivityTotals.CaseIgnored` | crates/unifi-api/src/collection/totals.rs:73 | nor does the case of letters |
| `ActivityTotals.NormalForm` | crates/unifi-api/src/collection/totals.rs:73 | and nothing else is identified |
| `ActivityTotals.Sum` | crates/unifi-api/src/collection/totals.rs:101-131 | succeeds exactly when no counter repeats and both sums fit 64 bits |
| `ActivityTotals.Totals` | crates/unifi-api/src/collection/totals.rs:59-87 | succeeds exactly for reports that add up, with the mathematical sums |
| `ActivityTotals.ReportOkIff` | crates/unifi-api/src/collection/totals.rs:62-87 | which reports add up, in terms of counters, addresses and received and transmitted bytes |
| `ActivityTotals.SumOkIff` | crates/unifi-api/src/collection/totals.rs:101-131 | which counter lists add up |
| `ActivityTotals.RowMeaning` | crates/unifi-api/src/collection/totals.rs:79-84 | the row of a client: normalized address, name, received and transmitted bytes |
| `ActivityTotals.TotalsConserved` | crates/unifi-api/src/collection/totals.rs:62-87 | the client total is the sum of the rows and of all nested counters |
| `ActivityTotals.OrderIndependent` | crates/unifi-api/src/collection/totals.rs:62-87 | the order of clients and applications affects neither acceptance nor totals |
| `ActivityTotals.UsageOrderIndependent` | crates/unifi-api/src/collection/totals.rs:101-119 | nor does the order of one client's counters |
| `WanReconciliation.AddUp` | crates/unifi-mcp/src/tools/activity.rs:337-372 | the row loop fails exactly for an unusable or repeated bucket of the window |
| `WanReconciliation.AcceptedIff` | crates/unifi-mcp/src/tools/activity.rs:350-372 | which rows are accepted: whole hours, finite counters that are not negative, no hour twice |
| `WanReconciliation.CompleteIff` | crates/unifi-mcp/src/tools/activity.rs:337-376 | when the window is complete: every row reports or lies outside, every hour is reported |
| `WanReconciliation.NewWindowIff` | crates/unifi-api/src/traffic.rs:17-24 | a window runs from one whole hour to a later one |
| `WanReconciliation.Coverage` | crates/unifi-mcp/src/tools/activity.rs:373-375 | as many distinct hours as the window has are all its hours, and the sums run over them once |
| `WanReconciliation.Reconcile` | crates/unifi-mcp/src/tools/activity.rs:327-393 | site counters are reported exactly when every hour has its bucket, none is missing and the sums are finite; they are what the rows report as received and as transmitted over the hours of the window |
| `NetworkPages.NextOffsetAdvances` | crates/unifi-mcp/src/tools/network_configuration.rs:163-193 | a reported offset is past the returned rows, above the requested one and below the total |
| `NetworkPages.ListRefusedIff` | crates/unifi-mcp/src/tools/network_configuration.rs:134-176 | which requests and pages are refused, in numbers |
| `NetworkPages.WalkReturnsList` | crates/unifi-mcp/src/tools/network_configuration.rs:129-193 | following the offsets returns the list once, within as many pages as records |
| `NetworkPages.WalkCompleteIff` | crates/unifi-mcp/src/tools/network_configuration.rs:134-139 | the walk completes for every honest choice of page sizes if and only if there are at most 2^31 records |

## Left out

- HTTP, TLS, WebSocket and file system plumbing; JSON decoding, digests and token signatures.
- The projection of reports into summary and client fields; only their framing into lines is modelled.
- Floating-point rounding of the WAN sums: counters are reals with a separate non-finite value, and a sum is
  finite up to a largest number.
- Cross-site request forgery tokens of the login session, and the sleep before a rate-limited read is retried.
- Identity claims, bearer checks, the tool registry, request schemas, mutations other than their send count,
  and the remaining tools: they would only add easy members.
- The byte limit of the status file, and log output.
