# A model of the caudio service, engine and client protocols

The project models the stateful core of caudio, a music player made of an audio engine, a SQLite store, a service
reached over a local pipe or socket, and a command-line client, and proves what that core promises over all inputs
and runs.

- **Playback order.** `SlotTable`, `SlotInsert` and `Db` hold the queue table (rows keyed by queue and position,
  shifted row by row) and the engine row. `PlayOrder` and `Playback` say what each transport call does to cursor,
  arrangement and loaded track over a listing. `Engine` is the engine itself: a class whose methods update its fields
  and the stored row in place, each proved equal to that description. `PlaybackLaws` proves the laws of laps, natural
  end, inverses and the link between the cursor and the loaded track, `TransportLaws` which mode, position and answer
  a call leaves and what plays after a crash; `Engine.RunThenCrash` proves recovery after any run.
- **Queue service.** `QueueService` and `QueueEdits` model the add, list, move and remove handlers and the client's
  descending multi-remove, as refinements of plain sequence operations.
- **Playlists and library.** `PlaylistTable` models positions with gaps, `LibraryScan` the batched upsert
  and `ScanLaws` what a whole scan leaves shown, `PlaylistText` the M3U/PLS writer and reader and `PlaylistLaws` what
  each line tells.
- **Protocols.** `Seqlock` is the shared-memory status record as a step system of single stores and loads, and
  `SeqlockProgress` that publishes complete and readers return; `PipeServer` is the ownership of pipe handles and
  connection threads, one access or system call per step, `PipeService` that clients are served, `PipeShutdown` its
  termination and `PipeListen` the copy of the handle the accept loop waits on; `Framing` is the length prefix over
  a transport that moves as many bytes as it likes.
- **Matching.** `Glob` is the greedy wildcard loop against the meaning of `*` and `?`; `Like` is LIKE escaping against
  the meaning of LIKE.
- `Common` and `Sequences` hold shared datatypes and facts about sequences.

Conventions. The surroundings of an engine call (is the lock obtained, what comes of opening the track, does the
decoder seek, what does the clock show, which arrangement would be drawn) are the fields of `Playback.Env`. Locks,
BEGIN and COMMIT outcomes are parameters elsewhere. `Valid()` of `Engine.Engine` contains the tie between memory and
the stored row, so every method that ensures it keeps that tie.

Where code and comments disagree the code is followed. On wrap the comment speaks of a reshuffle, but the same
arrangement is played again (`PlaybackLaws.LapsRepeat`). Turning shuffle off when it is off already rewinds the cursor
(`PlaybackLaws.ShuffleToggleAndLink`). The glob comment promises `*` and `?`, but the literal test runs before the
star test, which refuses some patterns on names that contain a `*` (`Glob.AgreesExactlyWithoutStars`,
`Glob.DecidesExactlyStarFreePatterns`). The completeness test of deframe adds in 32 bits, so an announced length of at
least 2^32 - 4 passes it and the copy leaves the buffer (`Framing.DeframeOverruns`, `Framing.OverrunExample`). The
client takes a snapshot index for a position, which after a track deletion can remove another item
(`QueueEdits.AfterHeadDeleted`, `QueueEdits.GapExample`). play with another queue id leaves the stored active queue
behind (`Engine.Engine.Play`). stop reports success without rewinding the cursor when the queue lock is busy, and the
next play skips the track (`PlaybackLaws.PlayAfterStop`, `PlaybackLaws.StopSkipsExample`). A busy lock also loses the
note of an append (`PlaybackLaws.StepKeepsSound`, `PlaybackLaws.LostNoteExample`). A newline in a title puts lines of
its own into an exported playlist (`PlaylistText.NewlineTitleExample`). An immediate rescan does not skip every file
when two are copies (`LibraryScan.RescanSkipsExactly`). A writer that dies in the middle of a publish leaves readers
spinning (`SeqlockProgress.ReturnsExactly`). A track that does not open still moves the cursor
(`PlaybackLaws.LinkLostExample`). An insert in the middle of the queue depends on the order in which the shift visits
its rows (`SlotInsert.MiddleInsert`). The scan branch that deletes a second row with the same fingerprint can never be
taken (`LibraryScan.Library.ScanOne`). A known file that was replaced by another of the same size and time, and is
found again under a later path, leaves its old path without a row (`ScanLaws.ReplacedFileLost`). After a crash play
starts the successor of the track that was paused, not the track itself, except in two cases
(`TransportLaws.PausedTrackResumes`). After a track failed to open, play reports success without a decoder
(`TransportLaws.FailedOpenThenPlay`).

Main results to read first: `PlaybackLaws.NaturalEnd`, `PlaybackLaws.PrevAfterNext`, `Engine.RunThenCrash`,
`TransportLaws.PausedTrackResumes`, `QueueEdits.RunQueue`, `QueueEdits.RemoveFiles`, `Seqlock.SnapshotShowsPublish`,
`SeqlockProgress.EveryReaderSees`, `PipeServer.ShutdownLeavesNothing`, `PipeShutdown.ShutdownIsReached`,
`PipeService.ClientIsServed`, `ScanLaws.ShownAfterScan`, `QueueEdits.RemoveDescending`, `PlaybackLaws.RunKeepsLink`,
`Glob.AgreesExactlyWithoutStars`, `Like.SearchMeansContains`, `PlaylistText.ExportImportRoundTrip`,
`Framing.Transfer`.

`dafny verify dfyconfig.toml` checks the whole project.

## Model

| member | source | states |
|---|---|---|
| `PlaybackLaws.LapVisitsEachOnce` | src/engine/engine.cpp:1309-1388 | With repeat Off or All, any n consecutive calls of the next-track step, wrap included, ask for each of the n queue positions exactly once, shuffled or not. |
| `PlaybackLaws.LapsRepeat` | src/engine/engine.cpp:1309-1388 | The position asked for n calls later is the same: the arrangement is kept on wrap, because turning shuffle on again returns early. |
| `PlaybackLaws.VisitedRotates` | src/engine/engine.cpp:1309-1388 | The positions k calls ask for are the visiting order, rotated to the cursor and read round and round. |
| `PlaybackLaws.NextVisits` | src/engine/engine.cpp:1309-1388 | One call asks for the item under the cursor (the head after the end), moves the cursor just past it and keeps the order. |
| `PlaybackLaws.StepKeepsSound` | src/engine/engine.cpp:435-830 | Every call, whether or not its track opens and its lock is obtained, keeps the cursor within the list, the arrangement empty or a full permutation, and a track loaded exactly when not stopped; an append does so if and only if the engine is told, nothing was added, or there is no arrangement. |
| `PlaybackLaws.RunKeepsSound` | src/engine/engine.cpp:435-830 | Over every run of calls and appends that holds at each moment if and only if no append loses a note that an arrangement needs. |
| `PlaybackLaws.LostNoteHides` | src/engine/engine.cpp:819-830 | After an append whose note is lost to a busy lock, playing one of the added tracks in shuffle answers not found. |
| `PlaybackLaws.LostNoteExample` | src/engine/engine.cpp:819-830 | Tracks 7 and 8 in the order 8, 7, with 9 added while the lock is busy: arrangement and link no longer fit the queue, and 9 cannot be played. |
| `PlaybackLaws.StepKeepsLink` | src/engine/engine.cpp:819-1057 | For every call, whether or not its track opens: the loaded track is still the item just before the cursor if and only if nothing is loaded, or the track starts, or the call tries no track or only the loaded one; for a shuffle toggle, if and only if it changes nothing; for an append, if and only if no note is lost that an arrangement needs. |
| `PlaybackLaws.RunKeepsLink` | src/engine/engine.cpp:819-1057 | Over every run queue state and link hold at each moment if and only if every call meets both conditions. |
| `PlaybackLaws.NextTries` | src/engine/engine.cpp:1309-1388 | The track next tries is the item under the cursor, the head on wrap, or the last one again under repeat One. |
| `PlaybackLaws.LinkLostExample` | src/engine/engine.cpp:1028-1038 | With 7, 8 queued and 7 playing, next on an 8 that does not open moves the cursor behind 8 and leaves 7 loaded without a decoder: the link is lost. |
| `PlaybackLaws.ShuffleToggleAndLink` | src/engine/engine.cpp:1264-1307 | A shuffle toggle keeps that link if and only if nothing is loaded, or shuffle was on and is turned on again. |
| `PlaybackLaws.NextMoves` | src/engine/engine.cpp:956-1057 | next puts the cursor after the following item, after the head on wrap, leaves it at the end under repeat One, or where it is when linear repeat One restarts the track; the loaded track follows. |
| `PlaybackLaws.PrevMoves` | src/engine/engine.cpp:1041-1057 | prev puts the cursor one back, at least behind the head, and the loaded track follows. |
| `PlaybackLaws.PrevAfterNext` | src/engine/engine.cpp:956-1057 | prev after next restores track and queue state if and only if next neither wrapped nor stayed, or there was nowhere else to go; all repeat modes. |
| `PlaybackLaws.NextAfterPrev` | src/engine/engine.cpp:956-1057 | next after prev restores track and queue state if and only if prev had an earlier item and next moves on from it, or there was nowhere else to go; all repeat modes. |
| `PlaybackLaws.PlayAfterStop` | src/engine/engine.cpp:595-636 | play after stop starts a track from its beginning. It is the stopped track, with the queue state it had, if and only if stop obtained the lock, or the cursor is at the end and play repeats the last item or there is only one. |
| `PlaybackLaws.StopSkipsExample` | src/engine/engine.cpp:620-630 | Track 7 of 7, 8 stopped while the lock is busy: the next play starts 8. |
| `PlaybackLaws.PlayTrackPlaysIt` | src/engine/engine.cpp:514-561 | For any arrangement, stale or not: playing a track id succeeds if and only if the lock is obtained, the track starts, the id is queued and a non-empty arrangement still has its first index; then exactly that track plays, and if it cannot be addressed nothing changes and the answer is not found. |
| `PlaybackLaws.PlayTrackLinks` | src/engine/engine.cpp:514-561 | On append-only use every queued track can be addressed, and the cursor ends up just after it. |
| `PlaybackLaws.NaturalRun` | src/engine/engine.cpp:435-512 | From stopped at the head with repeat Off, play and k automatic advances are playing item k of an order that is a permutation of the queue. |
| `PlaybackLaws.EndHalts` | src/engine/engine.cpp:1000-1027 | An automatic advance at the last item with repeat Off unloads, stops and clears the resume position; the queue state is left alone. |
| `PlaybackLaws.NaturalEnd` | src/engine/engine.cpp:1000-1027 | The whole natural end: n automatic advances halt with the cursor parked at n, and the next play starts the head of the same order from its beginning. |
| `PlaybackLaws.RepeatAllNeverHalts` | src/engine/engine.cpp:956-1039 | With repeat All the k-th automatic advance is playing item k mod n, for every k. |
| `PlaybackLaws.AppendKeepsWellFormed` | src/engine/engine.cpp:819-830 | Telling the engine about appended items keeps the queue state well-formed: cursor within the list, arrangement empty or full. |
| `PlaybackLaws.NoteKeepsFull` | src/engine/engine.cpp:819-830 | A full arrangement becomes a full arrangement of the grown queue, with the old one as its prefix. |
| `TransportLaws.PauseThenGoOn` | src/engine/engine.cpp:441-593 | Pausing a playing engine and then either resuming or playing answers success and goes on with the same queue state, loaded track and decoder, from the position the clock showed at the pause. |
| `TransportLaws.ModeChanges` | src/engine/engine.cpp:435-593 | pause changes the mode and succeeds exactly when playing, resume exactly when paused; play always succeeds when paused, and leaves every engine playing unless it answers an error, which keeps the mode. |
| `TransportLaws.PlayRestarts` | src/engine/engine.cpp:452-473 | play while playing touches nothing but the starting position, which is 0 exactly when it succeeds or was 0 before; it fails, with an I/O error, exactly when there is a decoder that does not seek. |
| `TransportLaws.StopReleases` | src/engine/engine.cpp:595-636 | After stop nothing is loaded or decoded and no resume position is left; stopping twice is stopping once; the cursor goes back by one exactly when the engine was not stopped and the lock was obtained. |
| `TransportLaws.PlayAnswers` | src/engine/engine.cpp:435-512 | The answer of play in every case: busy lock, empty queue, what opening the track gives, a refused seek. |
| `TransportLaws.NextAnswers` | src/engine/engine.cpp:956-1039 | The answer of next and autoNext in every case: the restart comes before the lock, the lock before the natural end, that before an empty queue. |
| `TransportLaws.PrevAnswers` | src/engine/engine.cpp:1041-1057 | The answer of prev in every case; at cursor 0 it is not found. |
| `TransportLaws.PlayTrackAnswers` | src/engine/engine.cpp:514-561 | The answer of playing a track id in every case, for any arrangement. |
| `TransportLaws.PickMeans` | src/engine/engine.cpp:1437-1585 | Whatever is picked: an error leaves mode, loaded track and positions alone; success means that the track is playing, from the saved position if it is the saved track, resuming was asked for and seeking works, and otherwise from its beginning. |
| `TransportLaws.PlayResumes` | src/engine/engine.cpp:474-511 | play on a stopped engine starts a track at the saved position exactly when it is the track that position belongs to and the decoder seeks; any other track starts at its beginning. |
| `TransportLaws.OthersStartAtZero` | src/engine/engine.cpp:956-1057 | next, autoNext and prev, where they start a track, start it at its beginning. |
| `TransportLaws.PlayTrackStartsAtZero` | src/engine/engine.cpp:514-561 | So does playing a track id; a failure leaves mode, loaded track and positions alone. |
| `TransportLaws.RestartingSeeksBack` | src/engine/engine.cpp:956-988 | Under linear repeat One next and autoNext seek the loaded track back to its beginning and touch nothing else. |
| `TransportLaws.FailedOpenThenPlay` | src/engine/engine.cpp:452-473 | After a next whose track did not open, play answers success although there is no decoder, and the old track stays loaded. |
| `TransportLaws.CrashThenPlay` | src/engine/engine.cpp:1178-1231 | After a crash a play that succeeds starts the last saved track at its last saved position if the decoder seeks, and any other track at its beginning. |
| `TransportLaws.NextAfterCrash` | src/engine/engine.cpp:1178-1207 | After a crash play takes the item behind the track that was loaded, the head on wrap, or the last item again under linear repeat One. |
| `TransportLaws.PausedTrackResumes` | src/engine/engine.cpp:1178-1231 | Pause, crash, play in a queue without duplicates: the paused track goes on where it was paused if and only if it is the only one, or the last under linear repeat One; otherwise another track starts at its beginning. |
| `TransportLaws.RepeatTakesEffect` | src/engine/engine.cpp:882-899 | At the end of the queue the repeat mode just set decides what autoNext does: Off halts, All starts the head, One plays the same track again. |
| `TransportLaws.RepeatChangeSavesPosition` | src/engine/engine.cpp:882-899 | A change of the repeat mode saves the position of the loaded track: after a crash a play that takes it goes on from there. |
| `TransportLaws.ShuffleStartsAfresh` | src/engine/engine.cpp:1264-1307 | Asking for shuffle while it is on with an arrangement changes nothing; any other request, even one for the order that is on, makes the next n steps visit the new order from its head. |
| `TransportLaws.NextFromAnywhere` | src/engine/engine.cpp:1309-1388 | From any cursor over any arrangement, stale ones included, next takes the first entry from the cursor on, else the last one again under repeat One and the first otherwise. |
| `TransportLaws.PrevFromAnywhere` | src/engine/engine.cpp:1390-1435 | From any cursor prev takes the entry before the one consumed last, the last entry if that is past the end, and the first entry again at cursor 1. |
| `Engine.Engine.LoadState` | src/engine/engine.cpp:1178-1207 | A fresh engine takes shuffle, repeat, arrangement, active queue, last track, its position and the cursor from the stored row, a negative position as 0 and a cursor at the end of an arrangement as 0; nothing else changes. |
| `Engine.Engine.SaveState` | src/engine/engine.cpp:1209-1231 | The stored row becomes the in-memory engine state with the arrangement and the current position. |
| `Engine.Engine.PersistShuffleBlobLocked` | src/engine/engine.cpp:1233-1244 | Only the shuffle flag, the arrangement (nothing when off) and the cursor of the row change, to the in-memory values. |
| `Engine.Engine.PersistCursorLocked` | src/engine/engine.cpp:1246-1254 | Only the cursor of the row changes, to the in-memory value. |
| `Engine.Engine.SetShuffleLocked` | src/engine/engine.cpp:1264-1307 | The loop that builds and shuffles the arrangement, and the early return, do what the shuffle function of PlayOrder says; the row keeps up. |
| `Engine.Engine.FetchTrackByPosLocked` | src/engine/engine.cpp:1256-1262 | The track at a listed index, or not found. |
| `Engine.Engine.QueueNextLocked` | src/engine/engine.cpp:1309-1388 | Picks the track and reaches the queue state that the step function of PlayOrder gives, for any arrangement, stale or not; the row keeps up. |
| `Engine.Engine.QueuePrevLocked` | src/engine/engine.cpp:1390-1435 | The same for the backward step. |
| `Engine.Engine.DoPlayTrack` | src/engine/engine.cpp:1437-1585 | The old decoder goes whatever happens. A track that opens, or silent playback where allowed, is loaded and playing from the requested position, or from 0 when seeking fails; otherwise the rest stays and the answer is NotFound for a file that does not open, Device for a missing audio device. |
| `Engine.Engine.Play` | src/engine/engine.cpp:435-512 | For any queue id: resumes when paused, restarts when playing, otherwise plays the next item of that queue, resuming at the stored position only when it is the stored track; whole new state and answer. The queue being played changes, the one the row names does not. |
| `Engine.Engine.PlayTrack` | src/engine/engine.cpp:514-561 | Whole new state and answer of playing a track id, including the search of the arrangement. |
| `Engine.Engine.Pause` | src/engine/engine.cpp:563-578 | Whole new state and answer; only a playing engine pauses. |
| `Engine.Engine.Resume` | src/engine/engine.cpp:580-593 | Whole new state and answer; only a paused engine resumes. |
| `Engine.Engine.Stop` | src/engine/engine.cpp:595-636 | Whole new state: unloaded, resume position cleared, cursor one back if the queue lock was obtained. |
| `Engine.Engine.Advance` | src/engine/engine.cpp:956-1039 | Whole new state and answer of next and autoNext: restart under linear repeat One, halt at the natural end, otherwise step and play. |
| `Engine.Engine.Previous` | src/engine/engine.cpp:1041-1057 | Whole new state and answer of prev. |
| `Engine.Engine.SetRepeat` | src/engine/engine.cpp:882-899 | Whole new state and answer of a repeat change. |
| `Engine.Engine.SetShuffle` | src/engine/engine.cpp:865-880 | Whole new queue state and answer of a shuffle toggle. |
| `Engine.Engine.SwitchQueue` | src/engine/engine.cpp:906-946 | Whole new state: switching to another existing queue clears arrangement and cursor, names it in the row, saves the position and leaves the loaded track; a missing queue or a busy lock changes nothing. |
| `Engine.Engine.NoteEnqueued` | src/engine/engine.cpp:819-830 | Appended positions join the arrangement of the active queue only, and are persisted. |
| `Engine.RecoveryRestores` | src/engine/engine.cpp:1178-1207 | Loading a row that persists a queue state gives that state back, the only change being a cursor at the end of the arrangement, which becomes 0. |
| `Engine.RecoveredIsUsable` | src/engine/engine.cpp:1195-1202 | Whatever the row holds, the recovered cursor is at an entry of a non-empty arrangement: the stored one if that is at an entry, the first otherwise. |
| `Engine.CursorStaysInPerm` | src/engine/engine.cpp:1264-1435 | Every step keeps a cursor within the arrangement there is. |
| `Engine.RunThenCrash` | src/engine/engine.cpp:1178-1254 | After any interleaving of engine calls (failing or not) with appends, removals, replacements and track deletions, a fresh engine on the same database comes up stopped with the same shuffle, repeat, arrangement and cursor, except that a cursor at the end of the arrangement comes back as 0, with the last track and its last saved position, and with the queue the row names, which is the one that was playing unless another queue id was passed to play. |
| `Engine.Draw` | src/engine/shuffle.cpp:9-17 | Swapping each place with an arbitrary earlier one yields a permutation, whatever the draws. |
| `Db.Database.Enqueue` | src/db/queue.cpp:18-64 | Appending puts the track at the end of the listing. Inserting at a position puts it there by rank if and only if the track exists and the position is free or the UPDATE visits no row before its upper neighbour; otherwise Internal, and the listing is as before. Other queues are untouched. |
| `Db.Database.ShiftUp` | src/db/queue.cpp:40-51 | The +1 shift, row by row in any order, goes through exactly when no row is visited before its upper neighbour, and is undone otherwise. |
| `SlotInsert.MiddleInsert` | src/db/queue.cpp:40-51 | On a contiguous queue, visiting upwards gets through only at the last item or behind it; visiting downwards always does. |
| `SlotInsert.UpwardsClimbs` | src/db/queue.cpp:40-51 | With gaps, visiting upwards gets through exactly when no two of the rows are neighbours. |
| `SlotInsert.ShiftedUpListing` | src/db/queue.cpp:40-51 | The +1 shift changes no listing and no rank of the position it frees. |
| `SlotInsert.InsertListing` | src/db/queue.cpp:52-63 | A row put into a free slot joins the listing at the rank of its position. |
| `Db.Database.ShiftDown` | src/db/queue.cpp:127-136 | The shift by -1, row by row in ascending order, never meets an occupied position, and ends with exactly the later rows one lower. |
| `Db.Database.Remove` | src/db/queue.cpp:109-138 | Removing a position deletes the listed item of that rank and nothing else, in this or any other queue, on contiguous positions or with gaps; contiguous stays contiguous. |
| `Db.Database.Dequeue` | src/db/queue.cpp:66-107 | Returns the head of the listing and leaves the tail; an empty queue is not found. |
| `Db.Database.Clear` | src/db/queue.cpp:140-156 | The queue lists nothing; other queues keep their rows. |
| `Db.Database.EnqueueBatch` | src/db/core.cpp:416-446 | All or nothing: the listing grows by the batch in order, or the table is as before; the answer is busy if it cannot begin, then that of the first refused id, then internal for a failed COMMIT. |
| `Db.Database.ReplaceAll` | src/db/core.cpp:453-488 | All or nothing: the listing becomes the given ids at positions 0..n-1, or the table is as before, with the same answers. |
| `Db.Database.DeleteTrack` | src/db/core.cpp:110-117 | The cascade leaves every listing as it was without that track, at the positions it had, so gaps remain. |
| `Db.Database.Count` | src/db/queue.cpp:184-198 | The length of the listing. |
| `Db.Database.IndexOf` | src/db/queue.cpp:200-230 | With or without gaps, counting the rows below the lowest position of the track gives its first index in the ordered listing. |
| `Db.Database.TrackAt` | src/db/engine_api.cpp:42-68 | The track of the row that has exactly so many rows below it, negative offsets counting as 0; nothing if and only if the listing is not that long. |
| `Db.Database.SaveEngineState` | src/db/engine_api.cpp:151-209 | Loading after saving gives the state back if and only if it had no arrangement without shuffle, an existing active queue (or queue 1) and a position from 0 on. |
| `Db.Database.SaveEngineShuffle` | src/db/engine_api.cpp:211-244 | Changes shuffle flag, arrangement and cursor of the row and nothing else. |
| `Db.Database.SaveEngineCursor` | src/db/engine_api.cpp:246-266 | Changes the cursor of the row and nothing else. |
| `Db.Database.LoadEngineState` | src/db/engine_api.cpp:70-149 | Reads the row back, falling back to queue 1 when the stored queue is gone. |
| `Db.CleanedOnce` | src/db/engine_api.cpp:70-209 | Cleaning a state on its way into the row and again on its way out is cleaning it once, and what was loaded can be stored and loaded back unchanged. |
| `Db.FirstHitIsFirstListed` | src/db/queue.cpp:200-230 | The number of rows below the lowest position holding a track is that track's first index in the listing. |
| `SlotTable.RemovalListing` | src/db/queue.cpp:109-138 | Deleting the i-th row and moving the later ones down is removing the i-th entry of the listing. |
| `SlotTable.ShiftTarget` | src/db/queue.cpp:127-136 | Before every single-row update of the shift the target position is free, so UNIQUE(queue_id, position) holds at each row. |
| `SlotTable.AppendAllEffect` | src/db/core.cpp:430-436 | Appending ids one by one appends the whole list to the listing, keeps contiguity and touches no other queue. |
| `SlotTable.CountBelowIsRank` | src/db/queue.cpp:200-230 | The number of rows below a listed position is its index. |
| `QueueService.QueueAdd` | src/service/dispatch_queue.cpp:371-394 | The listing grows by exactly the requested ids not yet queued, each once, in request order; on any failure listing and queue state are as before. A full arrangement keeps what it has and ends up full if and only if the engine obtained its lock or nothing was added. |
| `QueueService.AddKeepsNoDup` | src/service/dispatch_queue.cpp:373-387 | A duplicate-free queue stays duplicate-free. |
| `QueueService.PlaybackListing` | src/service/dispatch_queue.cpp:137-158 | The playback listing renders the tracks in an order of all positions in which those the arrangement names come first, as they first occur in it, and the others follow in ascending order; without an arrangement it is the insertion order. |
| `QueueService.ShownIsPerm` | src/service/dispatch_queue.cpp:137-158 | For an arbitrary, possibly stale arrangement the shown order is still a permutation of all items. |
| `QueueService.ShownOrder` | src/service/dispatch_queue.cpp:137-158 | For any arrangement: a position it names comes before another if it occurs first at a smaller index, every named position before those it does not name, and those in ascending order. |
| `QueueService.ShownOrderIsUnique` | src/service/dispatch_queue.cpp:137-158 | No other order of the positions is like that. |
| `QueueService.IntactShownAsIs` | src/service/dispatch_queue.cpp:137-158 | A full arrangement is shown as it is. |
| `Sequences.DistinctIsFirstOccurrences` | src/service/dispatch_queue.cpp:373-387 | What the duplicate filter keeps is the set of wanted ids, without repetition, ordered by first occurrence. |
| `QueueEdits.QueueRemove` | src/service/dispatch_queue.cpp:431-455 | A number that is a position removes the item of that rank; otherwise the first item with that track id; otherwise not found and unchanged. In a duplicate-free queue the number i removes the i-th listed item if and only if that item stands at position i, or position i is free and it has track id i. |
| `QueueEdits.HitsOwnItem` | src/service/dispatch_queue.cpp:431-455 | The same for any queue, duplicates included, about the index that is removed. |
| `QueueEdits.AfterHeadDeleted` | src/app/queue.cpp:238-240 | When the head track of a contiguous duplicate-free queue is deleted from the library, every snapshot index from 1 on names the item before the one it was taken from. |
| `QueueEdits.GapExample` | src/app/queue.cpp:238-240 | With tracks 8 and 9 at positions 1 and 2, asking for snapshot index 1, which is track 9, removes track 8. |
| `QueueEdits.RemoveLargestFirst` | src/app/queue.cpp:329-346 | After removing the largest selected index, the remaining selected indices select what they selected before. |
| `QueueEdits.RemoveDescending` | src/app/queue.cpp:329-346 | With or without gaps: every request removes the item it was meant for if and only if all selected items were in place at the start; then what is left is the snapshot without them, in order. On contiguous positions they always are, and every request takes the position branch. |
| `QueueEdits.RemovalKeepsInPlace` | src/app/queue.cpp:329-346 | A removal leaves every smaller snapshot index exactly as much in place as it was. |
| `QueueEdits.SelectByFiles` | src/app/queue.cpp:312-327 | Selects each snapshot index whose key was named, once, and reports exactly the files that select nothing. |
| `QueueEdits.UnservedCounts` | src/app/queue.cpp:312-327 | A file in the snapshot is reported once less often than it was named, any other as often as it was named. |
| `QueueEdits.RemoveFiles` | src/app/queue.cpp:289-346 | With or without gaps: every request removes the item it was meant for if and only if every item whose file was named is in place, as on contiguous positions; then exactly the other items are left, in their original order. The files that select nothing are reported in any case. |
| `QueueEdits.SortDownSorts` | src/app/queue.cpp:329-331 | Descending sorting keeps the selection and is strictly descending. |
| `QueueEdits.QueueMove` | src/service/dispatch_queue.cpp:469-511 | In range and with the transaction committed, the listing becomes erase-then-insert of one item, a multiset-preserving move; otherwise it is unchanged and the answer is invalid argument out of range, busy if the transaction cannot begin, internal if it cannot be committed. |
| `QueueEdits.RunQueue` | src/db/queue.cpp:18-156 | Over every run of append, dequeue, remove, clear and replace-all on a contiguous queue, positions stay 0..n-1 and the listing is what the operations do to a plain sequence. |
| `Sequences.MoveBack` | src/service/dispatch_queue.cpp:489-492 | A move is undone by the move with from and to swapped. |
| `Sequences.MoveAt` | src/service/dispatch_queue.cpp:489-492 | Erase-then-insert puts the item at its target and moves those in between by one towards the source. |
| `PlaylistTable.Playlists.AddTrack` | src/db/core.cpp:1234-1279 | Whole new table and answer, including that a refused INSERT leaves the shift in place. |
| `PlaylistTable.RefusedAddLeavesRoom` | src/db/core.cpp:1234-1279 | When the INSERT is refused nothing stands at the position any more; the table is as before if and only if nothing stood at it or behind it. |
| `PlaylistTable.AddedKeepsDistinct` | src/db/core.cpp:1242-1262 | Adding keeps the positions within each playlist pairwise distinct. |
| `PlaylistTable.AddedGoesThere` | src/db/core.cpp:1242-1262 | With or without gaps the new track comes right before what stood at its position, or last, and all others keep their order. |
| `PlaylistTable.AddedInserts` | src/db/core.cpp:1242-1262 | On contiguous positions an append is sequence append and an insert is sequence insert. |
| `PlaylistTable.Playlists.RemoveTrack` | src/db/core.cpp:1281-1302 | Exactly that row goes; the others keep their positions. |
| `PlaylistTable.Playlists.Reorder` | src/db/core.cpp:1304-1359 | Whole new table and answer; the two UPDATEs are proved equal to one reordering function. |
| `PlaylistTable.ReorderKeepsDistinct` | src/db/core.cpp:1325-1357 | A reorder to any target keeps positions pairwise distinct. |
| `PlaylistTable.ReorderKeepsOthersOrder` | src/db/core.cpp:1325-1357 | A reorder to any target keeps the relative order of all other tracks. |
| `PlaylistTable.ReorderIsMove` | src/db/core.cpp:1325-1357 | On contiguous positions with an in-range target it is exactly the sequence move. |
| `PlaylistTable.ReorderUndone` | src/db/core.cpp:1325-1357 | The reorder with from and to swapped restores the table, gaps or not. |
| `PlaylistTable.Playlists.ReorderThereAndBack` | src/db/core.cpp:1304-1359 | Two opposite calls leave the table as it was, and the second succeeds when the first did. |
| `PlaylistTable.Playlists.Run` | src/db/core.cpp:1234-1359 | Positions stay pairwise distinct over every run of adds, removes and reorders. |
| `LibraryScan.Library.ScanOne` | src/db/scan.cpp:116-317 | The three branches do one upsert, tags, library, soft-delete mark and dirty flag included: the row with the same content moves, the row with the same path gets the new content, or a row is added; the failure counter never moves and the delete branch is never taken. |
| `LibraryScan.UpsertFiles` | src/db/scan.cpp:131-315 | After a file that was not skipped exactly one row holds its content, at its path, in its library and live; every other row is as it was. |
| `LibraryScan.Library.Scan` | src/db/scan.cpp:54-334 | On success the table and the counters are those of upserting the files in order. It succeeds if and only if every batch of 500 files begins and is committed; otherwise the table is the one before the first batch that does not, and the answer is busy if it could not begin, internal if it could not be committed. |
| `LibraryScan.TallyAddsUp` | src/db/scan.cpp:110-317 | scanned = number of files = skipped + added + updated, and failed is 0. |
| `LibraryScan.ScanExtends` | src/db/scan.cpp:110-317 | No row is ever lost, ratings and play counts survive, and fingerprints stay unique. |
| `LibraryScan.FirstScanAddsAll` | src/db/scan.cpp:110-317 | Files with distinct paths and contents, unknown to the table, get exactly one new row each. |
| `LibraryScan.RescanSkipsAll` | src/db/scan.cpp:116-130 | Scanning any of those files again skips every one and leaves the table as it is. |
| `LibraryScan.RescanSkipsExactly` | src/db/scan.cpp:116-218 | For files at distinct paths, unknown to the table: an immediate rescan skips every one if and only if no two have the same content; copies share one row that moves between them. |
| `ScanLaws.FileIsShown` | src/db/scan.cpp:116-315 | For every table and file, whatever the verdict: afterwards some row has its path, size and time of last change. |
| `ScanLaws.VerdictMeans` | src/db/scan.cpp:116-131 | A file is skipped if and only if the first row at its path has its size and time, and added if and only if no row has its path or its content; skipping changes nothing. |
| `ScanLaws.UpdatedRow` | src/db/scan.cpp:131-309 | An update changes one row, the one with the file's content or else the first at its path. Extracted tags replace the old ones one by one, all are cleared if there are none, plays survive, and the row is clean unless it was dirty and kept its content. |
| `ScanLaws.AddedRow` | src/db/scan.cpp:309-314 | An added file gets a row of its own behind all others, with the tags of the walk, its library, clean and never played; no other row changes. |
| `ScanLaws.CountersMean` | src/db/scan.cpp:110-317 | added is the number of new rows; added, updated and skipped are the numbers of files with that verdict at their turn. |
| `ScanLaws.SkippedWhen` | src/db/scan.cpp:116-131 | In a scan of files with distinct paths and contents a file is skipped if and only if, of the old rows at its path whose content no earlier file took away, the first has its size and time. |
| `ScanLaws.ShownAfterScan` | src/db/scan.cpp:110-317 | After such a scan a file is shown if and only if it was not skipped, or some old row with its path, size and time does not have the content of another file that was not skipped. |
| `ScanLaws.HonestTableShowsAll` | src/db/scan.cpp:110-317 | So every file is shown if no old row with the path, size and time of one file has the content of another. |
| `ScanLaws.ReplacedFileLost` | src/db/scan.cpp:116-131 | When a known file is replaced by another of the same size and time and found again under a later path, the scan leaves no row for its old path. |
| `LibraryScan.Library.UpdateTrack` | src/db/core.cpp:592-614 | Fails on id 0, on a missing row and on a fingerprint another row has; otherwise replaces that row. |
| `LibraryScan.Library.InsertTrack` | src/db/core.cpp:568-590 | Fails exactly when the fingerprint is taken; otherwise adds one row. |
| `PlaylistText.WriteM3u` | src/app/format.cpp:54-67 | Writes the m3u lines, each ended by a newline. |
| `PlaylistText.WritePls` | src/app/format.cpp:68-83 | Writes the pls lines, each ended by a newline. |
| `PlaylistText.ParsePlaylist` | src/service/dispatch_library.cpp:753-785 | The line loop with its in-place trims finds the entries of the lines of the text. |
| `PlaylistText.ExportImportRoundTrip` | src/app/format.cpp:52-84 | For all tracks: reading back what was written gives the same paths if and only if every path is non-empty, on one line, without surrounding whitespace and, for m3u, not starting with #, and no label line is read as a file. |
| `PlaylistText.OneLineIsSilent` | src/app/format.cpp:52-84 | Titles and artists without newlines never are. |
| `PlaylistText.SecondLineCounts` | src/app/format.cpp:57-65 | A title of two lines yields exactly what its second line yields, in both formats. |
| `PlaylistText.NewlineTitle` | src/app/format.cpp:57-66 | A title with a path on its second line is read back as one more file. |
| `PlaylistText.NewlineTitleExample` | src/app/format.cpp:57-66 | The track /a.mp3 with the title "a", newline, "/b.mp3" is read back as /b.mp3 and /a.mp3. |
| `PlaylistText.LinesSplit` | src/service/dispatch_library.cpp:759-759 | A newline separates the lines before it from those after it, whatever they are. |
| `PlaylistText.EntriesSurvive` | src/service/dispatch_library.cpp:758-784 | Whatever text is read, every entry found is such a path. |
| `PlaylistText.ImportLines` | src/service/dispatch_library.cpp:786-834 | matched + skipped + duplicates = number of lines; the ids are the first occurrences of the tracks found, without repetition; not found exactly when there are none. |
| `PlaylistText.ExportThenImport` | src/service/dispatch_library.cpp:753-834 | Exporting library tracks and importing the file yields their ids in the same order, whenever every path survives the format and no label line is read as a file. |
| `PlaylistText.LinesOfJoined` | src/service/dispatch_library.cpp:759-759 | getline undoes joining one-line lines with newlines. |
| `PlaylistLaws.M3uLinesTell` | src/app/format.cpp:54-67 | Line 0 of the m3u text is its header; lines 2k+1 and 2k+2 tell track k: its rounded duration as a decimal numeral without leading zeros, artist before title, or the path of a track without a title; then the path. |
| `PlaylistLaws.PlsLinesTell` | src/app/format.cpp:68-83 | Line 0 of the pls text is its header; lines 3k+1 to 3k+3 tell path, artist and title, and duration of track k, numbered from 1; two more lines give their count and the version. |
| `PlaylistLaws.DigitsAreNumeral` | src/app/format.cpp:57-82 | The digits written for a number read back as that number and have no leading zero. |
| `PlaylistLaws.TrimStrips` | src/service/dispatch_library.cpp:760-762 | Trimming takes away the white space around a line and nothing else. |
| `PlaylistLaws.SpaceIsBlank` | src/service/dispatch_library.cpp:760-762 | White space is a blank, a tab, a carriage return or a newline. |
| `PlaylistLaws.M3uNames` | src/service/dispatch_library.cpp:760-784 | An m3u line names a file if and only if something that is not a comment is left after trimming, and then that. |
| `PlaylistLaws.PlsNames` | src/service/dispatch_library.cpp:760-781 | A pls line names a file if and only if it is no comment and consists of a key that starts with File, an equals sign and a non-empty rest, and then the trimmed rest. |
| `PlaylistLaws.SeparatorsDoNotMatter` | src/service/dispatch_library.cpp:788-816 | In a library that stores its paths with slashes, a line finds the same track however its separators are turned. |
| `PlaylistLaws.AsItStandsFirst` | src/service/dispatch_library.cpp:788-816 | A line that is stored as it stands finds that track, and what is found is stored under the same path up to separators. |
| `Framing.MakeFrame` | src/ipc/protocol.cpp:1529-1542 | The pushes produce the big-endian 32-bit length followed by the payload. |
| `Framing.Unframe` | src/ipc/protocol.cpp:1544-1563 | The checks and the copying loop give the value of the unframing function on every buffer; the copy asks for a byte outside the buffer, the one right behind it, if and only if the frame is incomplete and announces one of the four largest lengths. |
| `Framing.DeframeOverruns` | src/ipc/protocol.cpp:1553-1561 | Bounds safety fails exactly for an incomplete frame whose length is at least 2^32 - 4. |
| `Framing.OverrunExample` | src/ipc/protocol.cpp:1553-1561 | The four bytes 255, 255, 255, 255 are such a frame. |
| `Framing.HeaderRoundTrip` | src/ipc/protocol.cpp:1529-1552 | Reading the four length bytes gives the length back. |
| `Framing.HeadersCompare` | src/ipc/protocol.cpp:1529-1538 | Headers compare byte by byte, the first byte first, as their lengths do. |
| `Framing.DeframedMeans` | src/ipc/protocol.cpp:1544-1563 | A payload is unframed if and only if the buffer begins with its frame; apart from an overrun the answer is otherwise invalid argument. |
| `Framing.ReceivedMeans` | src/client/ipc_client.cpp:282-326 | A payload is received, and the rest left, if and only if the bytes are its frame followed by that rest and it is at most 16 MiB. |
| `Framing.ReceiveFails` | src/client/ipc_client.cpp:282-326 | Otherwise the answer is an I/O error if and only if the length is not there yet or more bytes would complete a frame, and everything has been taken; else invalid argument, and just the length has been taken. |
| `Framing.DeframeUndoesFrame` | src/ipc/protocol.cpp:1529-1563 | Unframing a framed payload followed by anything gives the payload if and only if its length fits 32 bits. |
| `Framing.ReceiveUndoesFrame` | src/client/ipc_client.cpp:282-326 | Receiving a framed payload gives it back and leaves exactly what follows, if and only if it is at most 16 MiB. |
| `Framing.StreamDelivers` | src/client/ipc_client.cpp:282-326 | Frames sent one after another are received one by one, whatever follows. |
| `Framing.Wire.RawSend` | src/client/ipc_client.cpp:210-228 | However the transport splits and interrupts sends, success means all bytes once and in order, failure a prefix; without faults it succeeds. |
| `Framing.Wire.RecvExact` | src/service/ipc_server.cpp:436-449 | However receives are split, success takes exactly the next count bytes; without faults it fails only when the peer closed early. |
| `Framing.Wire.RawRecv` | src/client/ipc_client.cpp:281-326 | However receives are split, result and leftover bytes are those of one receive on the whole byte stream. |
| `Framing.Wire.ReadOnce` | src/service/ipc_server.cpp:333-357 | The named-pipe server, which reads header and payload once each from a byte-mode pipe, gets a request if and only if it is there and each of the two reads moves all of its part. |
| `Framing.Transfer` | src/client/ipc_client.cpp:210-326 | Sending the frame of any json up to 16 MiB and receiving it under arbitrary short transfers returns exactly the json and consumes everything. |
| `Glob.WildcardMatch` | src/app/paths.cpp:25-45 | Terminates; the loop computes its answer function; true implies that the name matches the pattern; for names without * true exactly when it matches. |
| `Glob.LowerFoldsCase` | src/app/paths.cpp:27-27 | Two characters count as the same if and only if they are, or are the same ASCII letter in different case. |
| `Glob.LoopIsSound` | src/app/paths.cpp:25-45 | From any point of the loop, answering yes means a match from there or with the last star taking more. |
| `Glob.LoopIsComplete` | src/app/paths.cpp:25-45 | For names without *, as long as such a match exists the loop answers yes: backtracking to the last star only is enough. |
| `Glob.AgreesExactlyWithoutStars` | src/app/paths.cpp:25-45 | The loop decides matching for every pattern if and only if the name contains no *. |
| `Glob.Refused` | src/app/paths.cpp:25-45 | For every name with a * in it, a pattern that matches but is refused, because the literal test runs before the star test. |
| `Glob.DecidesExactlyStarFreePatterns` | src/app/paths.cpp:25-45 | The loop decides matching for every name if and only if the pattern contains no *. |
| `Glob.RefusedName` | src/app/paths.cpp:25-45 | For every pattern with a * in it, a name that matches but is refused. |
| `Like.EscapeLike` | src/db/fts.cpp:10-20 | The loop escapes character by character. |
| `Like.EscapedIsLiteral` | src/db/fts.cpp:10-20 | An escaped term matches exactly itself up to case, wherever the rest of the pattern goes on. |
| `Like.SearchMeansContains` | src/db/search.cpp:108-109 | The pattern %escaped% matches a text if and only if the term occurs in it as a contiguous substring up to ASCII case, for all terms and texts. |
| `Seqlock.PublishShows` | src/ipc/shm_status.cpp:311-327 | The stores of one publish make the record show the update, and leave duration and queue size alone. |
| `Seqlock.RunInv` | src/ipc/shm_status.cpp:207-343 | In every interleaving of a writer, out-of-bracket stores and any number of readers, sequence number, cells and copies in progress fit together. |
| `Seqlock.SnapshotsAreWhole` | src/ipc/shm_status.cpp:207-240 | Every returned snapshot has an even number and, in its protected fields, is the record after one whole number of completed publishes. |
| `Seqlock.SnapshotShowsPublish` | src/ipc/shm_status.cpp:207-240 | A snapshot numbered past the start shows exactly the update of that publish, in all fields and both strings. |
| `Seqlock.SnapshotIsCurrent` | src/ipc/shm_status.cpp:234-237 | At the moment a snapshot is returned it is of the last completed publish. |
| `Seqlock.SnapshotsNeverGoBack` | src/ipc/shm_status.cpp:207-240 | The snapshots one reader returns never go back in time. |
| `SeqlockProgress.ReturnsExactly` | src/ipc/shm_status.cpp:207-240 | Wherever a reader stands, with nobody else moving, it returns within two passes over the record if and only if the sequence number is even; otherwise it spins for ever. |
| `SeqlockProgress.FreshReturns` | src/ipc/shm_status.cpp:213-239 | Starting afresh on an even number it returns the record as it is, after one pass. |
| `SeqlockProgress.OddMeansAbandoned` | src/ipc/shm_status.cpp:298-331 | With no publish under way the number is odd if and only if the record was found in the middle of one and none has been completed since. |
| `SeqlockProgress.AloneInRun` | src/ipc/shm_status.cpp:207-240 | The solitary reader is what a run of its own steps makes of it. |
| `SeqlockProgress.PublishCompletes` | src/ipc/shm_status.cpp:298-331 | From every run that has no publish under way, and for every update, the run can be carried on until that update is the last completed publish and the number is even and two higher for each publish. |
| `SeqlockProgress.EveryReaderSees` | src/ipc/shm_status.cpp:207-240 | From there every reader, wherever it stands, can go on until the last snapshot it has returned shows that update. |
| `SeqlockProgress.OutsideStoresHappen` | src/ipc/shm_status.cpp:333-343 | Duration and queue size can be stored at any moment, to any value, whatever else is going on. |
| `PipeServer.RunInv` | src/service/ipc_server.cpp:238-393 | In every interleaving of accept loop, connection threads and shutdown, the ownership, cell, slot, lock and join invariants hold. |
| `PipeServer.SingleOwnership` | src/service/ipc_server.cpp:238-393 | A handle is open exactly when it has one owner, never has two, and none is closed twice. |
| `PipeServer.StoresFindCellEmpty` | src/service/ipc_server.cpp:243-317 | Every store into the shared handle finds it empty, so no live handle is overwritten. |
| `PipeServer.ShutdownLeavesNothing` | src/service/ipc_server.cpp:537-616 | When shutdown is done every handle ever created has been closed exactly once, and every connection thread has exited and been joined exactly once. |
| `PipeShutdown.GoesOn` | src/service/ipc_server.cpp:537-616 | Once shutdown has been called some step of some party is enabled until it is done: no deadlock between locks and joins. |
| `PipeShutdown.ShutdownIsBounded` | src/service/ipc_server.cpp:537-616 | After that call every run takes at most a fixed number of further steps, computed from where the parties stand. |
| `PipeShutdown.StuckMeansDone` | src/service/ipc_server.cpp:537-616 | A run that cannot go on after the call has finished the shutdown. |
| `PipeShutdown.ShutdownIsReached` | src/service/ipc_server.cpp:537-616 | Every run in which shutdown was called can be carried on to its end. |
| `PipeServer.ReapedThreadIsPastLock` | src/service/ipc_server.cpp:318-393 | A thread joined while the clients lock is held has already released that lock for good. |
| `PipeService.ClientIsServed` | src/service/ipc_server.cpp:238-393 | However far a run has got, unless the server was asked to stop, it can be carried on until one more client is being served with the handle it connected to, every earlier connection is closed, its thread joined and its slot swept, and another instance listens, or none if it could not be created. |
| `PipeService.ComesToRest` | src/service/ipc_server.cpp:318-393 | From every such point all connection threads can be carried on to their exit, and the accept loop to its head. |
| `PipeService.StaleIsReplaced` | src/service/ipc_server.cpp:266-288 | An instance that went stale while the loop waited on it can be closed and replaced, without a connection being made of it. |
| `PipeService.ConnectFails` | src/service/ipc_server.cpp:266-292 | A connect may fail at any time: the loop goes round again, or leaves if it was asked to stop, and nothing else has changed. |
| `PipeService.StaysDeaf` | src/service/ipc_server.cpp:245-265 | Without a listener the loop can go round for as long as no instance can be created. |
| `PipeService.OutsideStops` | src/service/ipc_server.cpp:240-242 | Asked to stop from outside, the accept loop can leave although shutdown has not been called. |
| `PipeService.DoneMeansPastLock` | src/service/ipc_server.cpp:523-535 | A slot is marked done if and only if its thread has given the lock back for good. |
| `PipeService.SlotsChangeUnderLock` | src/service/ipc_server.cpp:318-393 | The list of slots changes only in the hands of who holds the lock, apart from shutdown's joins. |
| `PipeListen.WaitsOnClosedHandle` | src/service/ipc_server.cpp:243-280 | While the accept loop waits on its copy of the listening handle, that handle has been closed if and only if shutdown has made its first close and waits for the loop. |
| `PipeListen.WaitsOnClosedExample` | src/service/ipc_server.cpp:566-572 | A run in which that happens. |
| `PipeListen.StoredAfterFirstClose` | src/service/ipc_server.cpp:566-591 | A run in which the accept loop finds the cell empty after shutdown's first close, creates another instance and stores it: why shutdown looks twice. |

## Left out

- Engine.Engine.Play: the option that resumes at a stored linear index is off.
- Engine.Engine.DoPlayTrack: decoder and output are only present or absent; ring buffer, pre-roll, events and history marks are not modelled; positions are milliseconds, and the duration that caps a resume position is not modelled.
- Engine.Engine.SaveState: writes of the engine row succeed; the paths without a database, volume, mute, seek and the suspend/resume pair around tag writing are not modelled.
- Engine.Engine.QueueNextLocked: the branches for an arrangement still empty after shuffling and for queue id 0 cannot be reached and are omitted.
- Engine.Engine.SwitchQueue: breaks the link between cursor and loaded track, as the code does; the laws of `PlaybackLaws` are about one active queue.
- PlaybackLaws.RunKeepsSound: is about runs that only append; removing, moving or clearing does not touch the arrangement in the code, so exact-permutation claims end there (`QueueService.ShownIsPerm` covers stale arrangements).
- PlaybackLaws.RunKeepsLink: is about runs that only append, like `PlaybackLaws.RunKeepsSound`.
- Db.Database.Enqueue: the order in which SQLite visits the rows of an UPDATE is a parameter.
- Db.Database.ShiftDown: visits the rows upwards, as a scan of the index on positions does.
- QueueService.QueueAdd: starts from the ids; parsing ids, searching and the single-path branch are not modelled.
- QueueEdits.RemoveFiles: the path key is a parameter; number parsing, the --id and --pos selections and the printed report are not modelled.
- QueueService.PlaybackListing: the tracks are given; rows whose track cannot be read are dropped before.
- LibraryScan.Library.ScanOne: what extraction yields is a parameter; the durable source columns are not modelled; `plays` stands for play count, rating and date added; a lookup by path yields the lowest row id.
- LibraryScan.Library.Scan: the directory walk yields the files; registering the library and its last-scanned time are not modelled.
- ScanLaws.ShownAfterScan: is about one scan of files with distinct paths and contents; walks that yield copies are covered by `LibraryScan.RescanSkipsExactly` and `ScanLaws.FileIsShown`.
- PlaylistText.WriteM3u: durations are whole seconds already; text-mode newline translation and the JSON format are not modelled.
- PlaylistText.ImportLines: follows the POSIX separator alternative and stops before the playlist is created.
- Framing.Unframe: what the copy reads outside the buffer is undefined in the code; that outcome has the value Err(Internal).
- Framing.Wire.RawRecv: is the socket variant; the client's pipe variant loops in the same way, without interrupted calls.
- Glob.WildcardMatch: lower-casing is ASCII; directory walks around it are not modelled.
- Like.SearchMeansContains: LIKE folds ASCII case only; full-text search and its term sanitizer are not modelled.
- SeqlockProgress.ReturnsExactly: is about a reader that runs alone; a writer that never pauses can keep it from returning.
- SeqlockProgress.EveryReaderSees: says how a run can go on, not that every run goes on so.
- Seqlock.RunInv: interleavings are sequentially consistent; memory orders and the wrap of the 64-bit sequence number are not modelled, and there is one writer.
- PipeServer.RunInv: is the named-pipe path for one listen, run and shutdown; handle ids are never reused, so a call on a closed handle only fails; thread creation succeeds, what a connection serves is abstracted, and the throwaway connection of shutdown is one possible outcome of the connect step.
- PipeService.ClientIsServed: says how a run can go on; whether a client ever connects is up to the clients.
- PipeShutdown.GoesOn: a blocked connect ends, as the throwaway connection of shutdown makes it; request handling ends.
- Audio decoding and output, fingerprints, tags, file watching, process spawning, the SQLite engine itself, the command and result JSON codecs, configuration and command-line rendering are not modelled.
- SpscRing and MpscQueue are declared in headers that are not part of this model.
