# Learning platform: verified model

A Dafny 4.11 model of the parts of the learning platform whose correctness depends on loops, interleavings or
arithmetic, with proofs of what those parts promise. `dafny verify dfyconfig.toml` checks everything.

| modules | what they model |
|---|---|
| `Bytes`, `BoxWalk`, `BoxFormat`, `VoiceAudio` | the M4A box walker and the duration check of voice recordings, with a printer of box files (section 4.2 and section 8.2.2 of ISO/IEC 14496-12) |
| `LearningGuard`, `EnrollmentRecord` | the guard that keeps stale learning writes out, against restarts of the enrollment: a protocol with separate lock, snapshot, delete, stamp and commit steps, and the methods themselves |
| `MemberKey`, `DirectConversations`, `ConversationStore` | identity of direct conversations: member keys, find-or-create, and the archive loop |
| `MessageList` | the client's message list: optimistic sends, live events, older pages |
| `MessageLines`, `MessageBlocks`, `MessageFences` | the message block parser: a three-buffer line machine against a run-grouping specification |
| `OfficeHours`, `UpcomingMerge`, `UpcomingTruth` | weekly recurrence in a time zone and the merged list of upcoming sessions, against what is still to come |
| `LessonCalendar` | weekday patterns, unlock dates, availability, and the edits that keep release days valid |
| `ArchiveImport`, `GithubSync` | the archive importer and the GitHub sync, with their accounting |
| `FollowUpJob`, `CableToken` | the follow-up notification job and single-use cable tokens, in every interleaving |
| `ImageViewer` | pinch-zoom geometry over the reals |
| `Options` | optional values and early returns |

Protocols are total step functions over explicit events, where an event that cannot happen changes nothing; a run is
any sequence of events. Loops and updates in place are methods and classes, proved against those functions.

Where a promise does not hold without a condition, the condition is stated as an equivalence:

- A module assignment lives through a restart with a writer from before it (`LearningGuard.GuardSafety`,
  `EnrollmentRecord.OldWriterSurvives`). The stored reset keeps microseconds, so a request that began in its microsecond
  is let through (`LearningGuard.OldRefusedIff`, `EnrollmentRecord.SlipsThrough`).
- An archived user can be back in an active conversation: an archived conversation that was re-keyed to the remaining
  members is found and reactivated (`DirectConversations.EnsureDetachedIff`, `DirectConversations.ArchivedMemberReturns`).
- The weekly search can skip an open occurrence when sessions run long, and the upcoming list then lacks it
  (`OfficeHours.JumpSafeIff`, `OfficeHours.OpenSessionSkipped`, `UpcomingTruth.UpcomingIsEarliest`,
  `UpcomingTruth.OpenSessionMissing`). An anchor with a fraction of a second is not its own first occurrence
  (`OfficeHours.AnchorIff`, `OfficeHours.FractionalAnchorMoves`).
- A dry run can differ from the real run when rows share a target (`ArchiveImport.DryRunIff`, `ArchiveImport.DryRunDiffers`).
  The importer reports a conflicting value only when the row also changes something (`ArchiveImport.ConflictReportedIff`,
  `ArchiveImport.ConflictUnreported`).
- A second GitHub sync can report changes when two exercise names, stripped, differ only in case (`GithubSync.SettlesIff`,
  `GithubSync.SharedBlockSyncsAgain`).
- A change of schedule can move a cohort's lessons off their weekdays (`LessonCalendar.StartOnFirstDayIff`,
  `LessonCalendar.ChangeMovesLessons`), and a reschedule that races with the job can go without a notice
  (`FollowUpJob.HonestIff`, `FollowUpJob.OutrunHappens`).
- A response or an older page that arrives after a deletion brings the message back, and a broadcast with other fields than
  the response leaves clients with different lists (`MessageList.ReconcileCommutesIff`, `MessageList.OlderCommutesIff`,
  `MessageList.SendDiverges`). A page that repeats an id leaves it twice (`MessageList.RunDistinctIff`,
  `MessageList.RepeatedPageRepeats`).

## Model

| member | source | states |
|---|---|---|
| `BoxFormat.RoundTrip` | api/app/services/voice_audio_inspection.rb:54-75 | Printing any forest of boxes (32-bit size, 64-bit size, or size 0 for the last box of a range) and walking the bytes yields exactly the listing of type, payload start and box end that the forest prescribes, at every nesting. |
| `BoxFormat.RoundTripComplete` | api/app/services/voice_audio_inspection.rb:54-75 | When containers nest no deeper than the walker's limit, that listing is the whole pre-order: no box is lost. |
| `BoxFormat.WalkPrint` | api/app/services/voice_audio_inspection.rb:54-75 | The same for a printed forest that stands anywhere inside other bytes and at any starting depth. |
| `BoxFormat.ListingIsPreorder` | api/app/services/voice_audio_inspection.rb:72 | The depth limit cuts nothing from a forest whose height fits under it. |
| `BoxFormat.ReadHeader` | api/app/services/voice_audio_inspection.rb:57-70 | Each of the three size encodings is read back as the box it was written for. |
| `BoxWalk.ReadBox` | api/app/services/voice_audio_inspection.rb:57-70 | The loop body reads a header exactly when a well-formed box starts there, and then its payload start and end. |
| `BoxWalk.EachBox` | api/app/services/voice_audio_inspection.rb:54-75 | The loop with its recursion and early return: the boxes it yields are the pre-order walk cut at the first box whose block returns, and its result is that block's value. |
| `BoxWalk.EnteredIff` | api/app/services/voice_audio_inspection.rb:69-73 | What lies inside a box is walked if and only if it is less than eight levels down and its four type bytes spell moov, trak, mdia, minf or stbl; the walk goes on after the box either way. |
| `BoxWalk.MalformedEnds` | api/app/services/voice_audio_inspection.rb:56-67 | Where there is no well-formed box the walk of a level ends. |
| `BoxWalk.BoxAt` | api/app/services/voice_audio_inspection.rb:57-70 | A box that is accepted has its payload start and its end inside the range, after its header. |
| `BoxWalk.WalkLaminar` | api/app/services/voice_audio_inspection.rb:54-75 | On any bytes all visited spans lie in the walked range and are pairwise nested or disjoint, in pre-order. |
| `BoxWalk.WalkLinear` | api/app/services/voice_audio_inspection.rb:54-75 | On any bytes at most one box is visited per eight bytes of the range, whatever the nesting and sizes. |
| `BoxWalk.WalkReadsOnlyItsRange` | api/app/services/voice_audio_inspection.rb:54-75 | Bytes outside the walked range cannot influence the walk. |
| `VoiceAudio.MovieDuration` | api/app/services/voice_audio_inspection.rb:37-52 | The duration is that of the first movie header in pre-order with a supported version and positive time scale; there is none exactly when no visited box is such a header. |
| `VoiceAudio.MovieHeader` | api/app/services/voice_audio_inspection.rb:39-49 | A header that answers is an `mvhd` box whose fields lie inside the box and whose time scale is positive. |
| `VoiceAudio.MovieHeaderIsLocal` | api/app/services/voice_audio_inspection.rb:39-49 | The block depends only on the payload of the box it is given. |
| `VoiceAudio.ReadPrintedTime` | api/app/services/voice_audio_inspection.rb:41-49 | Both header versions (32-bit and 64-bit durations) are read back, unless the time scale is zero. |
| `VoiceAudio.PrintedDuration` | api/app/services/voice_audio_inspection.rb:37-75 | End to end: the duration read from the bytes of a printed file is the one its box tree holds, and none when the tree holds none. |
| `VoiceAudio.OrdinaryRecording` | api/app/services/voice_audio_inspection.rb:37-75 | A file type box and a movie box whose first child is a movie header, in any size form and with any boxes after them, last ticks over time scale seconds, for every positive time scale. |
| `VoiceAudio.Inspect` | api/app/services/voice_audio_inspection.rb:17-33 | A recording is accepted exactly when it breaks no requirement, a rejection names a broken one, and the reported duration is within a twentieth of a second; it is reported as 0 exactly below that. |
| `LearningGuard.GuardSafety` | api/app/models/enrollment.rb:17-25 | In every interleaving of guarded writes and restarts, whenever the enrollment is unlocked: a live record is fresh if and only if it is not a module assignment untouched since the last reset, unless its writer began in the microsecond of the reset, where the guard lets it through; and every live unlock date was set by a request the guard let through since the reset. |
| `LearningGuard.Conservation` | api/app/services/enrollment_restart_service.rb:23-79 | In every interleaving each accepted record of an emptied table is live, was deleted through the guard, or is in exactly one restart snapshot; a module assignment is live or was deleted, and is in exactly the snapshots between its insert and that. |
| `LearningGuard.RestartsAccurate` | api/app/services/enrollment_restart_service.rb:43-72 | Nothing else is live or in a snapshot, and the counts of every restart agree with its snapshot and with the rows its deletes removed. |
| `LearningGuard.RestartsEmpty` | api/app/services/enrollment_restart_service.rb:67-72 | In every run, what the snapshot of a committed restart holds of submissions, attempts, progresses, watch progresses and lesson assignments is no longer live. |
| `LearningGuard.AbortRestores` | api/app/services/enrollment_restart_service.rb:12-16 | Whenever some process holds the lock, aborting it restores the consistent database it found. |
| `LearningGuard.RefusedIffStale` | api/app/models/enrollment.rb:17-25 | A request that gets the lock is refused if and only if it started at or before the stored reset; otherwise it may write and holds the lock. |
| `LearningGuard.RefusedAreStale` | api/app/models/enrollment.rb:17-25 | In every run a refused request is stale, and one that began after the last reset was refused only because it began at the very time stored. |
| `LearningGuard.OldRefusedIff` | api/app/models/enrollment.rb:17-25 | In every interleaving a request that began before the last reset is refused if and only if it did not begin in the microsecond of the reset. |
| `LearningGuard.RunKeeps` | api/app/services/enrollment_restart_service.rb:12-79 | Every run keeps the protocol invariant: one lock holder, a consistent committed database, and a restart that is exactly as far as its snapshot, deletes and stamp say. |
| `LearningGuard.StepKeeps` | api/app/models/enrollment.rb:17-25 | Every single step, including aborts and clock ticks, keeps it. |
| `LearningGuard.StampKeeps` | api/app/services/enrollment_restart_service.rb:74-79 | Stamping the reset, cut to the microsecond the column keeps, makes every earlier request stale or one of that microsecond. |
| `LearningGuard.DeleteStepKeeps` | api/app/services/enrollment_restart_service.rb:67-72 | Deleting one table removes exactly its rows of the snapshot and records their number. |
| `LearningGuard.WriteKeeps` | api/app/models/enrollment.rb:17-25 | A write by a request the guard let through keeps what holds of a committed database: its record, its unlock date and all records' places. |
| `LearningGuard.WriteLeaves` | api/app/models/enrollment.rb:17-25 | A guarded write leaves its request on the record, and the unlock date as it was unless it sets or clears one. |
| `LearningGuard.CommitKeeps` | api/app/services/enrollment_restart_service.rb:52-79 | Committing a finished restart adds one accurate restart record; the emptied tables are in it and gone, the module assignments are in it and stay without unlock dates. |
| `EnrollmentRecord.Enrollment.WithLearningWriteGuard` | api/app/models/enrollment.rb:17-25 | The guard method writes exactly when the request is not stale, and changes nothing otherwise. |
| `EnrollmentRecord.Enrollment.EmptyTables` | api/app/services/enrollment_restart_service.rb:67-72 | The deletes empty every guarded table but the module assignments and count the rows each held. |
| `EnrollmentRecord.Enrollment.ClearUnlockDates` | api/app/services/enrollment_restart_service.rb:73 | Every module assignment stays and loses its unlock date. |
| `EnrollmentRecord.Enrollment.CloseFollowUps` | api/app/services/enrollment_restart_service.rb:62-65 | No restart intervention and no recovery plan stays active; interventions with another trigger are untouched. |
| `EnrollmentRecord.Enrollment.Restart` | api/app/services/enrollment_restart_service.rb:12-124 | A restart is refused without effect exactly when the curriculum is ambiguous; otherwise only module assignments without unlock dates are live, the snapshot holds all that was, and exactly one restart intervention and one recovery plan are active. |
| `EnrollmentRecord.FullRecordAccurate` | api/app/services/enrollment_restart_service.rb:32-60 | The record of a restart holds all the rows found, and counts for exactly the five emptied tables. |
| `EnrollmentRecord.WriteIsRun` | api/app/models/enrollment.rb:17-25 | An uninterrupted guarded write of the protocol has exactly the effect of the guard method. |
| `EnrollmentRecord.RestartIsRun` | api/app/services/enrollment_restart_service.rb:12-79 | An uninterrupted restart of the protocol, one step per table, has exactly the effect of the restart method. |
| `EnrollmentRecord.AssignmentsSurvive` | api/app/services/enrollment_restart_service.rb:73 | Every module assignment lives through a restart with its old writer and without its unlock date. |
| `EnrollmentRecord.OldWriterSurvives` | api/app/services/enrollment_restart_service.rb:67-79 | A concrete run in which a live module assignment was written by a request from before the last reset. |
| `EnrollmentRecord.SlipsThrough` | api/app/models/enrollment.rb:17-25 | A concrete run in which a request from before the last reset, in its microsecond, is let through. |
| `MemberKey.KeyIdentifiesMembers` | api/app/models/direct_conversation.rb:22-24 | Two id lists give the same key string if and only if they hold the same ids, whatever the order and repetition. |
| `MemberKey.KeyNames` | api/app/models/direct_conversation.rb:22-24 | A key can be parsed back to exactly the ids it was made from, and only the empty list has the blank key. |
| `MemberKey.ParseJoin` | api/app/models/direct_conversation.rb:22-24 | Colon-joined decimals parse back to the same list of ids. |
| `MemberKey.SortUniq` | api/app/models/direct_conversation.rb:22-24 | Removing repeats and sorting yields a strictly increasing list of the same ids. |
| `MemberKey.IncreasingUnique` | api/app/models/direct_conversation.rb:22-24 | A set of ids has only one strictly increasing list. |
| `DirectConversations.IdentitySafety` | api/app/models/direct_conversation.rb:26-42 | Over any run of find-or-create, archive and unarchive from an empty directory: one conversation per workspace and key, every user in a key is a member, and keys of active conversations name only unarchived users. |
| `DirectConversations.RunKeeps` | api/app/models/user.rb:62-73 | The same from any directory that satisfies it. |
| `DirectConversations.DetachKeeps` | api/app/models/user.rb:114-133 | Every iteration of the archive loop keeps the loop invariant and settles one conversation, leaving the others alone. |
| `DirectConversations.ArchiveKeeps` | api/app/models/user.rb:62-69 | Archiving keeps the invariant, changes only the user's conversations, and right after it the user is a member of no active conversation. |
| `DirectConversations.ArchiveSettles` | api/app/models/user.rb:114-133 | Each of the user's conversations is archived as it stands or goes on without the user under the key of those who stay; the first whenever at most one stays, the second whenever more do and no key clashes. |
| `DirectConversations.EnsureKeeps` | api/app/models/direct_conversation.rb:26-42 | Find-or-create keeps the invariant and answers an active conversation keyed by exactly these users, all of them members. |
| `DirectConversations.AnswerUnique` | api/app/models/direct_conversation.rb:26-42 | The answer is determined, up to the id of a new conversation. |
| `DirectConversations.ArchiveStaysDetached` | api/app/models/user.rb:62-73 | Archive and unarchive keep every archived user out of every active conversation. |
| `DirectConversations.UnarchiveLifts` | api/app/models/user.rb:71-73 | Unarchiving takes the mark off this user alone and changes no conversation. |
| `DirectConversations.EnsureDetachedIff` | api/app/models/direct_conversation.rb:26-42 | Find-or-create keeps that if and only if the conversation it answers is new or has no archived member. |
| `DirectConversations.ArchivedMemberReturns` | api/app/models/direct_conversation.rb:26-42 | A concrete run in which an archived member is back in an active conversation, because a re-keyed archived conversation is found again. |
| `ConversationStore.CanonicalEqual` | api/app/models/direct_conversation.rb:13-24 | Canonical key strings are equal exactly when they name the same users. |
| `ConversationStore.MakeKey` | api/app/models/direct_conversation.rb:22-24 | The key made for a non-empty list is canonical and names exactly its users. |
| `ConversationStore.Ascending` | api/app/models/direct_conversation.rb:22-24 | The members are listed strictly increasing and without omission. |
| `ConversationStore.Store.FindBy` | api/app/models/user.rb:120-128 | The lookup by key string finds a row exactly when another conversation of the workspace names the same users. |
| `ConversationStore.Store.FindOrCreate` | api/app/models/direct_conversation.rb:26-42 | On rows with key strings it does what the model on named sets does, and fails without effect exactly for an empty list. |
| `ConversationStore.Store.Settled` | api/app/models/user.rb:116-130 | What an iteration makes of its conversation: archived as it stands, or without the user and keyed by those who stay. |
| `ConversationStore.Store.Detach` | api/app/models/user.rb:114-133 | One iteration on rows with key strings does what the model on named sets does, and keys stay canonical. |
| `ConversationStore.Store.Archive` | api/app/models/user.rb:62-69 | The whole loop does, visiting each of the user's conversations once. |
| `ConversationStore.Store.Unarchive` | api/app/models/user.rb:71-73 | Unarchiving only lifts the mark. |
| `MessageList.RunRefines` | mobile/src/lib/message-state.ts:3-38 | With creation times fixed per id, after any run of events, reconciliations and page loads in which no page adds an id twice, the list is the sorted listing of the corresponding map: ids stay unique and the order is kept. |
| `MessageList.OldestFirst` | mobile/src/lib/message-state.ts:3-8 | After any such run the list is oldest first, and by increasing id where the creation times are the same. |
| `MessageList.RunDistinctIff` | mobile/src/lib/message-state.ts:10-38 | Ids stay unique at every point of a run if and only if no page adds an id twice. |
| `MessageList.EventRefines` | mobile/src/lib/message-state.ts:10-22 | A live event on the list is the event on the map. |
| `MessageList.ReconcileRefines` | mobile/src/lib/message-state.ts:31-33 | Reconciling drops the optimistic message and files the canonical one. |
| `MessageList.PrependRefines` | mobile/src/lib/message-state.ts:35-38 | An older page adds exactly the messages the map lacks, provided that their ids differ. |
| `MessageList.PrependDistinctIff` | mobile/src/lib/message-state.ts:35-38 | After a page ids are unique if and only if the ids it adds differ. |
| `MessageList.RepeatedPageRepeats` | mobile/src/lib/message-state.ts:35-38 | A page with one new id twice leaves two messages of that id. |
| `MessageList.SortSorts` | mobile/src/lib/message-state.ts:3-8 | On distinct ids the sort gives the strictly increasing listing, by time and then id, of the same messages. |
| `MessageList.ShowsUnique` | mobile/src/lib/message-state.ts:3-8 | A map has only one sorted listing. |
| `MessageList.ShowsDistinct` | mobile/src/lib/message-state.ts:10-38 | A listing never holds two messages of one id. |
| `MessageList.RunPerId` | mobile/src/lib/message-state.ts:10-22 | What a run of events leaves under an id depends only on the events of that id. |
| `MessageList.Converges` | mobile/src/lib/message-state.ts:10-22 | Two deliveries that agree on the order of events per message end in the same list, however they interleave. |
| `MessageList.ReconcileCommutesIff` | mobile/src/lib/message-state.ts:10-33 | The answer to a send and a live event give the same list in either order if and only if the event does not delete the answered message or disagree with it, and does not create the optimistic id. |
| `MessageList.OlderCommutesIff` | mobile/src/lib/message-state.ts:10-38 | An older page and a live event give the same list in either order if and only if the event does not delete a message of the page and, for one the list lacks, the merge leaves no trace of the order. |
| `MessageList.SendConverges` | mobile/src/lib/message-state.ts:10-33 | The HTTP response and the broadcast of one send give the same list in either order if and only if the broadcast's fields agree with the response's. |
| `MessageList.SendDiverges` | mobile/src/lib/message-state.ts:10-33 | A concrete broadcast with a field that the response lacks: the two orders end differently. |
| `MessageList.ReplaceOrderIff` | mobile/src/lib/message-state.ts:13-21 | Merging a payload that changes the creation time keeps the order if and only if the message still fits between its neighbours. |
| `OfficeHours.NextWeeklyStart` | api/app/models/office_hour.rb:53-71 | Jump and correction loop terminate with the first week from the jump on whose occurrence has not ended. |
| `OfficeHours.CorrectWeek` | api/app/models/office_hour.rb:63-70 | The correction loop stops at the first week from its start that has not ended. |
| `OfficeHours.Correct` | api/app/models/office_hour.rb:63-70 | That week exists and everything between it and the jump has ended. |
| `OfficeHours.CorrectUnique` | api/app/models/office_hour.rb:63-70 | It is the only week with that property. |
| `OfficeHours.NextIsLeast` | api/app/models/office_hour.rb:53-71 | If time of day, duration and the zone's offset swing add up to less than a week, the result is the least week of all that has not ended. |
| `OfficeHours.NextIffJumpSafe` | api/app/models/office_hour.rb:53-71 | In general the result is the least such week if and only if every week the jump passes over has ended. |
| `OfficeHours.JumpSafeIff` | api/app/models/office_hour.rb:53-71 | One comparison decides that: the week just before the jump has ended. |
| `OfficeHours.FixedZoneIff` | api/app/models/office_hour.rb:53-71 | In a zone with a fixed offset the search is right for every query time if and only if time of day plus duration is under a week. |
| `OfficeHours.OpenSessionSkipped` | api/app/models/office_hour.rb:58-68 | A session of eight days that is still open after seven is passed over for the next week. |
| `OfficeHours.AnchorIff` | api/app/models/office_hour.rb:73-107 | Occurrence 0 is the anchor itself if and only if the anchor's clock shows a whole second. |
| `OfficeHours.FractionalAnchorMoves` | api/app/models/office_hour.rb:73-107 | A concrete anchor one microsecond past the second is not its own first occurrence. |
| `OfficeHours.StartBounds` | api/app/models/office_hour.rb:73-107 | Every start keeps its wall time up to the offsets of the zone, through gaps and repeated hours. |
| `OfficeHours.StartsIncrease` | api/app/models/office_hour.rb:73-107 | Starts of later weeks are strictly later. |
| `OfficeHours.UpcomingOccurrences` | api/app/models/office_hour.rb:32-49 | The method returns the specified list: the one occurrence still open, or consecutive weeks from the next one. |
| `OfficeHours.ListWeekly` | api/app/models/office_hour.rb:40-48 | The loop lists the requested number of consecutive weeks. |
| `OfficeHours.OccurrencesIncrease` | api/app/models/office_hour.rb:32-49 | Listed starts are strictly increasing and each is the start of its consecutive week. |
| `OfficeHours.OccurrencesPrefix` | api/app/models/office_hour.rb:32-49 | A shorter list is a prefix of a longer one. |
| `OfficeHours.OccurrencesLast` | api/app/models/office_hour.rb:109-114 | Every listed occurrence lasts as long as the session itself, and a single date is listed as it stands until it has ended. |
| `UpcomingTruth.UpcomingIsEarliest` | api/app/services/office_hour_serializer.rb:59-71 | For every limit the list is that of the earliest occurrences that have not ended, counted without the search, if and only if the jump of every active weekly session passes over ended weeks only. |
| `UpcomingTruth.ShortSessionsListed` | api/app/services/office_hour_serializer.rb:59-71 | Sessions whose time of day, duration and offset swing add up to less than a week are always listed in full, at every expansion. |
| `UpcomingTruth.SafeIsEarliest` | api/app/services/office_hour_serializer.rb:11-31 | With safe jumps the list is that of the earliest at every expansion to at least the limit. |
| `UpcomingTruth.UnsafeIsNotEarliest` | api/app/services/office_hour_serializer.rb:59-71 | If some jump passes over an open week, the list is short of it at the limit that counts it. |
| `UpcomingTruth.EarliestUnique` | api/app/services/office_hour_serializer.rb:59-71 | There is only one increasing list of the earliest. |
| `UpcomingTruth.UpcomingCounts` | api/app/services/office_hour_serializer.rb:59-71 | By any time the list has as many entries as the search reaches, up to the limit. |
| `UpcomingTruth.OpenSessionMissing` | api/app/services/office_hour_serializer.rb:59-71 | A session of eight days that is still open after seven is missing from the list. |
| `UpcomingMerge.ExpansionIrrelevant` | api/app/services/office_hour_serializer.rb:11-31 | However many occurrences of each session are written out first, and to whichever larger limit, the list is the same. |
| `UpcomingMerge.TakeEachSame` | api/app/services/office_hour_serializer.rb:11-31 | Of increasing lists only the first `k` of each can be among the first `k` of their union. |
| `UpcomingMerge.DropTail` | api/app/services/office_hour_serializer.rb:59-71 | The same for one list among other numbers. |
| `UpcomingMerge.RankBound` | api/app/services/office_hour_serializer.rb:59-71 | If `k` of the numbers are at most `x`, so are the first `k` of the sorted ones. |
| `UpcomingMerge.SortOrders` | api/app/services/office_hour_serializer.rb:70 | Sorting gives the increasing arrangement of the same starts. |
| `UpcomingMerge.SortCanonical` | api/app/services/office_hour_serializer.rb:60-70 | The order in which sessions come does not matter. |
| `MessageBlocks.ParseMessageBlocks` | mobile/src/lib/message-format.ts:89-109 | The fence loop with the line machine returns what the simple specification prescribes: tiles, maximal runs, one block per run, spacers collapsed. |
| `MessageBlocks.AppendTextBlocks` | mobile/src/lib/message-format.ts:15-87 | The three-buffer loop appends exactly one block per maximal run of equally classified lines, in source order. |
| `MessageBlocks.AppendLines` | mobile/src/lib/message-format.ts:46-86 | The same over classified lines. |
| `MessageBlocks.AcceptKeeps` | mobile/src/lib/message-format.ts:46-86 | After every line at most one buffer is non-empty, it holds the pending run, and what is still owed is the rest of the specification. |
| `MessageBlocks.FlushEmits` | mobile/src/lib/message-format.ts:22-44 | Flushing all buffers emits the pending run as one block, dropping blank quotes, and empties them. |
| `MessageBlocks.RunIsMaximal` | mobile/src/lib/message-format.ts:46-86 | The specification's runs are of one kind and end only where the kind changes. |
| `MessageBlocks.ParseTiles` | mobile/src/lib/message-format.ts:92-105 | The loop over fences yields the blocks of the tiles. |
| `MessageBlocks.TilesCover` | mobile/src/lib/message-format.ts:91-105 | Fences and text slices tile the body: every character is in exactly one of them, in order. |
| `MessageBlocks.ParsedShape` | mobile/src/lib/message-format.ts:105-109 | The result is never empty and has no leading, trailing or adjacent spacers. |
| `MessageBlocks.ParsedShows` | mobile/src/lib/message-format.ts:89-109 | Collapsing spacers loses no block and no gap between blocks; a body that shows nothing becomes one paragraph. |
| `MessageBlocks.ParagraphsKept` | mobile/src/lib/message-format.ts:22-44 | A paragraph run is never dropped, and holds the trimmed joined lines. |
| `MessageFences.FenceAtIsFirst` | mobile/src/lib/message-format.ts:91-95 | The finder returns the first fence from a position on, or the end when there is none. |
| `MessageFences.FenceRoundTrip` | mobile/src/lib/message-format.ts:91-103 | A fence written with a language, code and a closing fence is read back as one code block, language trimmed and code without outer line breaks, between the blocks of the text before and after it. |
| `MessageFences.OpenFenceRoundTrip` | mobile/src/lib/message-format.ts:91-103 | A fence that is not closed is read back with the code to the end. |
| `MessageFences.NameOnlyFence` | mobile/src/lib/message-format.ts:91-103 | A fence closed on its own line has a language and no code. |
| `MessageLines.ClassifyKinds` | mobile/src/lib/message-format.ts:46-86 | Blank lines are exactly those of white space; plain lines keep their text. |
| `MessageLines.JoinSplit` | mobile/src/lib/message-format.ts:46 | Joining the split lines gives the text back. |
| `MessageLines.JoinBlank` | mobile/src/lib/message-format.ts:22-44 | A joined text is blank exactly when every line is. |
| `MessageLines.TrimParts` | mobile/src/lib/message-format.ts:23 | Trimming cuts the white space off both ends, and nothing else. |
| `MessageLines.StripParts` | mobile/src/lib/message-format.ts:16 | Stripping cuts the line breaks off both ends, and nothing else. |
| `MessageLines.BulletLine` | mobile/src/lib/message-format.ts:53-61 | A dash or an asterisk, white space and an item make a bullet with the item trimmed. |
| `MessageLines.BareMarker` | mobile/src/lib/message-format.ts:53 | With only white space after the marker, two or more make an empty bullet, and one or none a plain line. |
| `MessageLines.OrderedLine` | mobile/src/lib/message-format.ts:63-71 | Digits, a point or a bracket, white space and an item make an entry of an ordered list with the item trimmed. |
| `MessageLines.QuoteLine` | mobile/src/lib/message-format.ts:73-79 | An angle bracket makes a quote of what follows it, less one white space. |
| `MessageLines.PlainLine` | mobile/src/lib/message-format.ts:81-83 | A line that begins with anything else is plain. |
| `MessageLines.BulletMeans` | mobile/src/lib/message-format.ts:53 | Only such a marker with white space right after it, and an item within the line, makes a bullet. |
| `MessageLines.OrderedMeans` | mobile/src/lib/message-format.ts:63 | Only digits and such a marker with white space right after it, and an item within the line, make an entry of an ordered list. |
| `MessageLines.QuoteMeans` | mobile/src/lib/message-format.ts:73 | Only an angle bracket makes a quote. |
| `ArchiveImport.Importer.ImportSubmissions` | api/app/services/prework_grader_archive_importer.rb:211-216 | The loop updates tables and report as the pass over the rows prescribes. |
| `ArchiveImport.Importer.ImportSubmission` | api/app/services/prework_grader_archive_importer.rb:218-251 | One row: skipped, updated, unchanged or created; a dry run only counts. |
| `ArchiveImport.Importer.UpdateExisting` | api/app/services/prework_grader_archive_importer.rb:266-281 | An existing submission gets the allowed attributes and its progress, after conflicts are reported. |
| `ArchiveImport.Importer.Create` | api/app/services/prework_grader_archive_importer.rb:283-296 | A new submission is stored with its progress. |
| `ArchiveImport.RowsBalance` | api/app/services/prework_grader_archive_importer.rb:211-296 | Every row lands in exactly one of created, updated, unchanged and skipped. |
| `ArchiveImport.ImportTwice` | api/app/services/prework_grader_archive_importer.rb:211-324 | Without overwriting, stored values are only gained, and a second pass at any time changes nothing and reports nothing created or updated. |
| `ArchiveImport.WriteGains` | api/app/services/prework_grader_archive_importer.rb:298-324 | Without overwriting, no present value is replaced, and all the row could add is there afterwards. |
| `ArchiveImport.WriteFills` | api/app/services/prework_grader_archive_importer.rb:298-324 | Each field is filled from its own column, only if it was blank or overwriting is on; attempts become the larger count; unknown grades change nothing. |
| `ArchiveImport.CreateStores` | api/app/services/prework_grader_archive_importer.rb:283-317 | A row for a block without a submission stores what the archive has: blanks stay empty, A, B, C and R are grades, and there is at least one attempt. |
| `ArchiveImport.GradeSetsProgress` | api/app/services/prework_grader_archive_importer.rb:339-347 | A row that brings a grade completes the block at the archived time, or at the present where there is none; a redo reopens it. |
| `ArchiveImport.AbsorbedPass` | api/app/services/prework_grader_archive_importer.rb:266-271 | Rows that could add nothing leave tables and counts of changes alone. |
| `ArchiveImport.PassProgress` | api/app/services/prework_grader_archive_importer.rb:339-347 | Every pass keeps progress in step with grades: complete except for a redo. |
| `ArchiveImport.OverwriteUpdates` | api/app/services/prework_grader_archive_importer.rb:298-300 | With overwriting every matched row is reported as updated once its submission exists. |
| `ArchiveImport.ConflictReportedIff` | api/app/services/prework_grader_archive_importer.rb:266-337 | A disagreement between row and submission is reported if and only if overwriting is on or the row has something else to add. |
| `ArchiveImport.ConflictUnreported` | api/app/services/prework_grader_archive_importer.rb:266-271 | A concrete text that differs from the stored one counts as unchanged and is not reported. |
| `ArchiveImport.StoreElsewhere` | api/app/services/prework_grader_archive_importer.rb:244-251 | A row touches only the submission and progress of its own student and block. |
| `ArchiveImport.DryRunAgrees` | api/app/services/prework_grader_archive_importer.rb:266-296 | If no two rows have the same target, dry run and real run report the same. |
| `ArchiveImport.DryRunIff` | api/app/services/prework_grader_archive_importer.rb:266-296 | A dry run predicts the real report for every stored state if and only if no two rows have the same target. |
| `ArchiveImport.DryRunDiffers` | api/app/services/prework_grader_archive_importer.rb:283-296 | Two rows for one target on empty tables: the dry run counts two created, the real run one. |
| `ArchiveImport.CreatedAreNew` | api/app/services/prework_grader_archive_importer.rb:283-296 | Rows counted as created are as many as the submissions a real run adds. |
| `GithubSync.Student.SyncStudent` | api/app/services/github_sync_service.rb:59-119 | The file loop leaves the tables and returns the count that the fold over files prescribes. |
| `GithubSync.Student.WriteFile` | api/app/services/github_sync_service.rb:64-116 | One file: skipped, created, resubmitted, or only its link and commit refreshed. |
| `GithubSync.SecondSyncIff` | api/app/services/github_sync_service.rb:63-117 | Syncing the same contents again reports 0 if and only if files for the same block have the same text. |
| `GithubSync.SettlesIff` | api/app/services/github_sync_service.rb:52-69 | Whatever the repository holds, a second sync reports 0, if and only if no two stripped exercise names differ in case only while some exercise has such a name. |
| `GithubSync.StrippedApartIff` | api/app/services/github_sync_service.rb:52-69 | For exercise names that are stripped already that means: different names also differ ignoring case. |
| `GithubSync.SharedBlockSyncsAgain` | api/app/services/github_sync_service.rb:52-69 | Two concrete pairs of exercises, whose names differ in case only or in case and a trailing space, are synced again every time. |
| `GithubSync.FilesIn` | api/app/services/github_sync_service.rb:181-185 | The files of a sync are exactly the non-blank texts behind the stripped names of its exercises. |
| `GithubSync.NamesOnce` | api/app/services/github_sync_service.rb:52-53 | Names are asked for once each, in the order in which they first come up. |
| `GithubSync.SecondSyncUnchanged` | api/app/services/github_sync_service.rb:63-117 | Under that condition the second sync leaves everything unchanged. |
| `GithubSync.NothingSyncedIff` | api/app/services/github_sync_service.rb:75-101 | Nothing is synced exactly when every file already is what is stored for its block. |
| `GithubSync.LastWins` | api/app/services/github_sync_service.rb:64-116 | A sync leaves the last file of each block with its link and commit, and does not touch other blocks. |
| `GithubSync.LinkRefersTo` | api/app/services/github_sync_service.rb:72-73 | A code link goes to the commit fetched, or to HEAD where there is none. |
| `GithubSync.SyncPerBlock` | api/app/services/github_sync_service.rb:75-101 | Every change of its text is one more attempt of a submission and completes it; a grade goes with the first change and only if not A, B or C; the last text stays. |
| `GithubSync.OnePerSync` | api/app/services/github_sync_service.rb:75-101 | Where files for the same block agree, a sync raises the attempts by one exactly when it changes the stored text. |
| `GithubSync.SyncCreates` | api/app/services/github_sync_service.rb:102-115 | A block without a submission gets one, ungraded and completed, exactly when some file is for it, with as many attempts as its texts change. |
| `GithubSync.SyncedCounts` | api/app/services/github_sync_service.rb:61-119 | The reported count is the number of attempts that the exercises gain. |
| `GithubSync.RunsGrow` | api/app/services/github_sync_service.rb:77-101 | Over any run of syncs no A, B or C grade is cleared, no work is lost, and no text changes without a further attempt. |
| `LessonCalendar.FirstIndexBounds` | api/app/models/curriculum_module.rb:4-48 | The first scheduled index is the least weekday of the pattern, for every schedule value. |
| `LessonCalendar.PatternDays` | api/app/models/curriculum_module.rb:4-10 | The weekdays of each of the five patterns. |
| `LessonCalendar.ValidDayBound` | api/app/models/curriculum_module.rb:69-77 | A valid release day is never before the first index. |
| `LessonCalendar.NextStartIsLeast` | api/app/models/curriculum_module.rb:79-83 | The suggested start is the least date from the given one on that falls on the pattern's first weekday. |
| `LessonCalendar.UnlockNotBeforeStart` | api/app/models/lesson.rb:55-58 | A lesson with a valid release day never unlocks before its module's effective start. |
| `LessonCalendar.StartPrecedence` | api/app/models/module_assignment.rb:7-11 | A module starts on the date set for the student, else on the date scheduled for the cohort, else by the cohort's start and offset; the lesson follows by its release day. |
| `LessonCalendar.OwnAssignmentDecides` | api/app/models/lesson.rb:60-63 | A lesson with an assignment of its own follows that alone: its date if one is set, and otherwise its flag. |
| `LessonCalendar.UnlockWeekdayIff` | api/app/models/lesson.rb:55-58 | It unlocks on the weekday of its release day if and only if the effective start is on the pattern's first day. |
| `LessonCalendar.UnlockOnPatternIff` | api/app/models/curriculum_module.rb:69-77 | On such a start the unlock date is a scheduled weekday if and only if the release day is valid. |
| `LessonCalendar.LegacyStartIff` | api/app/models/curriculum_module.rb:85-91 | A start computed from the cohort is on the first day if and only if cohort start and offset make a Monday. |
| `LessonCalendar.AvailableIff` | api/app/models/lesson.rb:60-71 | An unarchived lesson without its own assignment is available on exactly the days from its unlock date on, if and only if the module is ungated, force-unlocked, or the release day is not before the first index. |
| `LessonCalendar.ForceUnlockIrrelevant` | api/app/models/module_assignment.rb:15-20 | With a valid release day the module's `unlocked` flag makes no difference to its lessons. |
| `LessonCalendar.StaysAvailable` | api/app/models/lesson.rb:60-71 | Whatever the assignments, a lesson once available stays available. |
| `LessonCalendar.ModuleOpensOnNextUnlock` | api/app/models/module_assignment.rb:22-33 | A module with lessons opens exactly on the next unlock date it announces. |
| `LessonCalendar.CalendarSafety` | api/app/models/lesson.rb:75-82 | After any run of create, update, archive, restore, destroy and schedule changes, every unarchived lesson has a valid release day and is available exactly from its unlock date on. |
| `LessonCalendar.RunKeeps` | api/app/models/curriculum_module.rb:95-105 | Every run of edits keeps all lessons valid against the schedule as it then is. |
| `LessonCalendar.ArchiveAndRemove` | api/app/models/lesson.rb:23-25 | A lesson can always be archived and always be removed; neither touches another lesson. |
| `LessonCalendar.RestorableIff` | api/app/models/lesson.rb:27-29 | Edits keep every lesson restorable if and only if they do not save an archived lesson with a day off the schedule. |
| `LessonCalendar.ChangeRestores` | api/app/models/curriculum_module.rb:95-105 | An accepted change of schedule leaves every lesson restorable. |
| `LessonCalendar.StartOnFirstDayIff` | api/app/models/cohort_module_schedule.rb:11-19 | Scheduled starts stay on the first weekday under every edit except a change to a pattern that begins on another weekday. |
| `LessonCalendar.ChangeMovesLessons` | api/app/models/cohort_module_schedule.rb:11-19 | A concrete run in which such a change makes a Tuesday lesson unlock on a Monday, off its pattern. |
| `LessonCalendar.CurriculumModule.Update` | api/app/models/lesson.rb:10-13 | Saving a release day is refused without effect exactly when the validations fail. |
| `LessonCalendar.CurriculumModule.Archive` | api/app/models/lesson.rb:23-25 | Archiving a valid lesson always succeeds. |
| `LessonCalendar.CurriculumModule.Restore` | api/app/models/lesson.rb:27-29 | Restoring succeeds if and only if the release day fits the schedule as it now is. |
| `LessonCalendar.CurriculumModule.Reschedule` | api/app/models/curriculum_module.rb:95-105 | A schedule change is accepted exactly when it excludes no lesson, archived ones included, and keeps all lessons valid. |
| `LessonCalendar.CurriculumModule.CountInvalid` | api/app/models/curriculum_module.rb:99-102 | The count is the number of lessons the pattern excludes. |
| `FollowUpJob.AtMostOnce` | api/app/jobs/intervention_follow_up_job.rb:4-16 | In every interleaving of overlapping job runs, status changes and reschedules, each scheduling is notified at most once, never before it is due and never while inactive. |
| `FollowUpJob.RunKeeps` | api/app/jobs/intervention_follow_up_job.rb:8-14 | Every run keeps the invariant: one lock holder whose copy is the row, notices for strictly later and later schedulings, and a stamp for the current one once sent. |
| `FollowUpJob.CommitKeeps` | api/app/jobs/intervention_follow_up_job.rb:12-13 | Notifying and stamping under the lock keeps it. |
| `FollowUpJob.SaveKeeps` | api/app/controllers/api/v1/interventions_controller.rb:54-67 | So does a staff save of a possibly stale copy, which writes only the columns it changed. |
| `FollowUpJob.SaveWritesChanges` | api/app/controllers/api/v1/interventions_controller.rb:60-64 | A save writes what staff changed of the copy they loaded and leaves the other columns as they have become since. |
| `FollowUpJob.SaveRefused` | api/app/controllers/api/v1/interventions_controller.rb:54-58 | A copy loaded as terminal is not saved, nor an active one without a follow-up time. |
| `FollowUpJob.AbortLeavesNothing` | api/app/jobs/intervention_follow_up_job.rb:8-14 | A job that fails leaves the row and the notices as they were and gives up the lock. |
| `FollowUpJob.OutOfTurn` | api/app/jobs/intervention_follow_up_job.rb:5-14 | A job takes its steps in their order: query, lock, second look, commit. |
| `FollowUpJob.HonestIff` | api/app/models/intervention.rb:27-50 | A scheduling counts as notified without a notice if and only if its save moved the time to no later than a stamp written after the copy was loaded. |
| `FollowUpJob.StampTellsTruth` | api/app/models/intervention.rb:27-50 | In every run without such a save the stamp covers the current scheduling if and only if a notice for it was sent. |
| `FollowUpJob.OutrunHappens` | api/app/models/intervention.rb:27-50 | A concrete run with such a save: the second scheduling is never notified. |
| `FollowUpJob.AloneNotifiesIff` | api/app/jobs/intervention_follow_up_job.rb:4-16 | A job that runs alone sends one notice and one stamp if and only if the row is active, due and not stamped; otherwise it changes nothing. |
| `FollowUpJob.NotifiedOnce` | api/app/jobs/intervention_follow_up_job.rb:9-13 | After a notice no later run notifies until the time is moved past the stamp. |
| `FollowUpJob.Interventions.Perform` | api/app/jobs/intervention_follow_up_job.rb:4-16 | The loop notifies exactly the due, unstamped interventions, in order, and leaves none to notify. |
| `CableToken.SingleUse` | api/app/services/cable_token.rb:6-32 | Over every run of issue, cleanup and concurrent consumption each token succeeds at most once, only if checked before its expiry, and only for the user it was issued to. |
| `CableToken.RunKeeps` | api/app/services/cable_token.rb:6-32 | Every run keeps the invariant: rows match what was granted and are used exactly when consumed, and one request at a time holds a row. |
| `CableToken.SpentForever` | api/app/services/cable_token.rb:14-32 | A deleted, used or expired nonce never succeeds again, whatever happens later. |
| `CableToken.SweepTakesSpent` | api/app/services/cable_token.rb:8 | Cleanup deletes only such nonces, so it neither re-enables nor takes away a token. |
| `CableToken.CommitKeeps` | api/app/services/cable_token.rb:21-27 | Marking the locked row used adds a genuine success for a nonce that had none. |
| `CableToken.LockGranted` | api/app/services/cable_token.rb:21-22 | A request waits only for its own row: it is let in whenever no other holds that row, whatever other rows are held. |
| `CableToken.AloneSucceedsIff` | api/app/services/cable_token.rb:14-32 | A request alone succeeds if and only if its token is signed, unexpired and unused, and then spends it. |
| `CableToken.Service.IssueFor` | api/app/services/cable_token.rb:6-12 | The issued token is for the user, is usable at once, and cleanup, row and signature are as in the protocol. |
| `CableToken.Service.Consume` | api/app/services/cable_token.rb:14-32 | Returns the user exactly for a usable token, which is not usable afterwards. |
| `ImageViewer.FocalFixedIff` | mobile/src/lib/image-viewer.ts:62-84 | An unclamped zoom keeps the image point under the fingers fixed if and only if the start scale is at least 1 or nothing can move it. |
| `ImageViewer.ZoomsComposeIff` | mobile/src/lib/image-viewer.ts:62-84 | Two unclamped zooms at one focal point are one zoom if and only if the scale between them is at least 1 or it cannot matter. |
| `ImageViewer.ZoomKeepsFocal` | mobile/src/lib/image-viewer.ts:62-93 | The clamped zoom from a scale of at least 1 settles both axes, keeps the point under the fingers exactly where the unclamped zoom shows no gap, and centres at scale 1. |
| `ImageViewer.AxisClamped` | mobile/src/lib/image-viewer.ts:44-60 | On an axis there is no gap if and only if the scaled image covers the viewport, translation 0 if it does not, and otherwise the nearest translation without a gap. |
| `ImageViewer.ClampedShowsNoGap` | mobile/src/lib/image-viewer.ts:53-60 | So on both axes for every image, viewport, scale and translation, and clamping again changes nothing. |
| `ImageViewer.UnzoomedIsCentred` | mobile/src/lib/image-viewer.ts:53-60 | Scale 1 always gives zero translation, even before sizes are known. |
| `ImageViewer.FittedIsLargest` | mobile/src/lib/image-viewer.ts:34-42 | The fitted image keeps its proportions, lies inside the viewport, touches it, and no larger ratio fits. |
| `ImageViewer.UnknownSizeFills` | mobile/src/lib/image-viewer.ts:36-38 | While a size is not known the image counts as filling the viewport. |
| `ImageViewer.UnderShows` | mobile/src/lib/image-viewer.ts:62-84 | The image point under a screen point is the only one shown there. |

## Left out

- HTTP, storage, push, mail and GitHub calls: what they return is an arbitrary input; error returns before the GitHub write loop are not modelled.
- React Native components, hooks and the serial task queue of the image viewer.
- ActiveRecord: tables are maps or sequences, `with_lock` and `lock!` a mutex that reloads the row, a failed transaction no change.
- Time zone data: a zone is any function from wall time to its periods whose offsets lie between two bounds.
- Floating point: durations and zoom geometry are over the reals, so the last bits of a rounded quotient are not modelled.
- VoiceAudio.Inspect: takes the content type already in lower case, the test of the file extension as a flag, and the upload's size as the length of its bytes.
- Regular expressions of the message parser: written out as line classifiers and a fence finder; inline formatting and URL handling are not modelled.
- `mergePinnedMessageEvent` and `toggleOwnReaction`: one-step list edits that would add only easy members.
- Rows outside the guard in a restart (notifications, criterion results, check runs), module assignments made along with their enrollment, and staff writes that bypass the guard.
- What a guarded record holds, beyond the unlock date of an assignment and the request that wrote it last.
- EnrollmentRecord.Enrollment.Restart: closes and opens interventions and plans in one uninterrupted method; interleaving is proved for the guarded tables only.
- The workspace links, titles and visibility of direct conversations, and the retry after a unique-index race in find-or-create.
- UpcomingTruth.UpcomingIsEarliest: speaks of start times; which of several sessions with the same start comes first is left open, as in the source.
- Students, users and enrollments made by the archive importer, its unknown-grade and missing-student lists, and a stale-write error in the middle of an import.
- The archive importer looks a submission up without an order and the table has no unique index on student and block: the model holds the one row the lookup finds. The GitHub sync takes the latest row, which is the one row of its model.
- The text of a GitHub code link, and how file names are stripped and folded to lower case: any functions of the reference, the file and the name.
- Submission windows, which decide what exercises are open: the open exercises are an input.
- `maintain_resolution_state` of an intervention, its notes, owners and assignment notices: they do not touch the follow-up columns.
- Races between saving a lesson and changing its module's schedule: edits are one after another.
- Deletion of lessons that have student evidence: refusing it keeps everything as it is.
- Signing of cable tokens: the verifier accepts exactly the tokens that were issued and have not expired; nonces are never drawn twice; a user is not deleted while a token lives.
- CableToken.SingleUse: bounds the time of the expiry check, not of the write after it, because the source reads the clock again for the write.
