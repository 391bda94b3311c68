# Verification of metiche's realtime board and its two text codecs

metiche keeps an append-only log of what a team's coding agents do, and shows
it live. This project models the path an event takes, from the backend's table
to a row on somebody's screen, the views the board derives from what it has
received, and the two text formats that identify a repository and its team. It
proves what that code keeps over every run and on every input.

The path, in the order the events travel:

- `StreamServer`: the backend's stream server. A connection subscribes, replays
  what it missed from the table, then follows a fan-out whose buffer may drop.
- `Live`: the board's reader, an SSE parser with a cursor inside a reconnect
  loop. `EndToEnd` puts the two together.
- `Freshness`: a backend that commits events while its state is read in turns,
  and what the board reflects at each head of the hub's loop.
- `Store`: deduplication, two cursors, a bounded log, and the entities behind
  pointers, each event folded into them in place. `Tables` has rows and the
  pointers between them, `Entities` the rows of the seven kinds, `Folding` and
  `Filling` the changes in place, `Showing` the proof that they are the fold
  that `Fold` says on values, and `Meaning` what that fold says of every status
  and field. `StoreRuns` has the properties of whole runs, and `Snapshots` what
  a reader's copy shows while the store goes on.
- `Hub`: subscribers with bounded queues, and the drain-refresh-broadcast loop.
- `Resume`: a browser that reconnects with the last id it received.
  `Handshakes`: how its connections arise between the steps of the hub's loop.
- `Fixture`: a recording replayed as a feed.

The views: `Roster` and `Lanes` (who is working), `Nesting` (subagents under
their supervisors), `Shapes` and `Matrix` (who produces and consumes what, and
whether they agree), `Graph` (who is entangled with whom).

The codecs: `RepoUrl` with `Spellings`, and `Binding` over `Editing` and
`Entries`.

`Model`, `Logs`, `Text`, `Sorting` and `Counting` hold the entities and the
vocabulary the others share.

Objects and loops of the source are classes and loops here, each proved equal
to a function; the results are stated about the functions. Wherever the code is
shown below not to do what it is for on every input, there is a lemma with an
input that shows it and a lemma saying exactly when it does:

- A connection that ends cleanly inside a frame can lose an event for good
  (`Live.CutFrameIsLost`, `Live.TruncatedFrameIsLost`, `Live.ConnectionExact`).
- A frame dropped from a full fan-out buffer leaves a gap as soon as a later one
  is written (`StreamServer.DroppedFrameIsAGap`), and so does a fan-out whose
  mark the first subscriber's cursor has set above what is committed: the rows
  in between are never fanned out (`StreamServer.SeedAheadIsAGap`), although the
  comment in the backend's hub.go says that who joins later loses nothing.
  `StreamServer.ConnectionIsExact` says exactly when a connection has no gap.
- Whether the board is fresh hangs on the order of the reads
  (`Freshness.TeamMustComeFirst`), and a failed refresh can leave it stale
  (`Freshness.FailedRefreshIsStale`) or not (`Freshness.FailedRefreshMayBeFresh`);
  `Freshness.FreshExactlyWhen` tells.
- A reader's snapshot of a recording can show part of an event that came after
  it was taken, for it shares agents and assertions with the store
  (`Snapshots.StatusReachesReader`, `Snapshots.SnapshotMoves`), although the
  comment in store.go calls it immutable.
- A browser that resumes can miss a row or get one again
  (`Resume.ResumeIsExact` says exactly when, for any id it asks with). Three
  races while it connects do that (`Resume.BoardAheadOfBacklog`,
  `Resume.BoardBehindBacklog`, `Resume.RowBroadcastAfterReconnect`); for an id
  that this hub has given out and the store reaches back to they are all
  (`Resume.OnlyRaces`). Without any race it happens after a restart that reads
  its backfill again (`Resume.RestartRepeats`), after one that loads past what
  the browser has (`Resume.RestartSkips`), and when the rows were evicted
  (`Resume.EvictionSkips`). The comment in hub.go says resuming is exact because
  board frames carry the latest row's sequence; the model follows the code.
- A recording replayed slowly enough runs backwards where a duration out of
  range wraps (`Fixture.TooSlowRunsBackwards`, `Fixture.AdvancesExactly`).
- A hold that lasts no time overlaps one around it without sharing an instant
  with it (`Graph.InstantHoldOverlaps`, `Graph.OverlapMeansSimultaneous`).
- A claim on everything under a directory is drawn in another area than the
  files in it (`Graph.GlobLandsElsewhere`), although the comment in graph.go
  speaks of one area for what may collide.
- A cell hides a side published after a blank role (`Matrix.BlankRoleByOrder`,
  `Matrix.CellShowsRoles`), and a colon in a field's direction can hide a
  difference (`Shapes.ColonHidesMissing`, `Shapes.KeyTells`).
- A stored repository URL is not always read back as it was
  (`RepoUrl.RoundTrip`, `Spellings.TrailingDotIsLost`,
  `Spellings.BracketedSlashIsLost`).
- An at sign in a repository's path gives it another's identity, and "//" after
  the colon of the scp form loses its own (`Spellings.AtTakesIdentity`,
  `Spellings.SlashesMakeAScheme`, `Spellings.OneIdentity`).
- Agents of different members can share a key, and then a lane of theirs is not
  in its own member's list (`Roster.SlashSharesKey`, `Roster.StrangersShareALane`);
  `Roster.KeyShared` and `Roster.OwnLane` say exactly when.
- One overlong line hides the team from the reader (`Binding.LongCommentHidesTeam`,
  `Binding.TeamSurvives`).
- With a cycle of supervisors the subagent counts do not match what is drawn
  (`Nesting.CycleIsMiscounted`, `Nesting.SubagentsCounted`).

Check it with `dafny verify dfyconfig.toml` (Dafny 4.11).

## Model

| member | source | states |
|---|---|---|
| `Live.Pump.Scan` | code/frontend/internal/feed/live.go:294-391 | reading a body line by line leaves the cursor and the events sent on that the line-by-line specification gives, with the flush at a clean end and none at a read error |
| `Live.Pump.FlushMessage` | code/frontend/internal/feed/live.go:325-362 | ending a message sends its event on if it is new, advances past a body that will not parse, and clears the message |
| `Live.Stream` | code/frontend/internal/feed/live.go:261-291 | the reconnect loop carries the cursor and what came out from connection to connection, as the specification does that the rows below are about |
| `Live.RefusedChangesNothing` | code/frontend/internal/feed/live.go:261-291 | an attempt that is refused, wherever it falls among others, changes nothing of what comes out before or after |
| `Live.GoneEnds` | code/frontend/internal/feed/live.go:261-291 | being told that there is no such team ends the loop for good |
| `Live.AnyServerInOrder` | code/frontend/internal/feed/live.go:261-391 | whatever a server sends over any number of drops, events come out strictly increasing and above the cursor asked for |
| `Live.FeedIsParseThenDeliver` | code/frontend/internal/feed/live.go:294-391 | the one-pass reader does what parsing an event stream first (WHATWG HTML, section 9.2.6) and delivering its messages after would do |
| `Live.MessageMeans` | code/frontend/internal/feed/live.go:364-391 | the lines up to a blank one make a message of their data lines, joined by newlines from the first that is not blank, and of the last id line that is a number; any other line adds nothing |
| `Live.MessageEnds` | code/frontend/internal/feed/live.go:325-362 | where a message ends: without data it is dropped, a body that will not parse moves the cursor to a higher id, and one that does is sent on, numbered by the id if it has no number, if and only if that is above the cursor |
| `Live.SignsParse` | code/frontend/internal/feed/live.go:364-391 | an id line's number is read back with either sign or none if and only if 64 bits hold it |
| `Live.WrittenFrameCarries` | code/backend/metiche/app/stream/frame.go:119-129 | a frame as the backend writes it parses back to one message carrying its event and id |
| `Live.ConnectionExact` | code/frontend/internal/feed/live.go:339-391 | a connection that sends the next events of the log skips nothing if and only if the message pending at its end is harmless |
| `Live.ExactlyOnce` | code/frontend/internal/feed/live.go:261-391 | over any number of connections from such servers, what comes out is a prefix of the log above the cursor, and the rest is what lies above the new cursor: no gap, no repeat |
| `Live.EverythingComesOut` | code/frontend/internal/feed/live.go:261-391 | over such a run, as soon as one connection sends all that is left of the log, what comes out is all of the log above the cursor asked for, whatever was refused or cut before and after |
| `Live.TruncatedFrameIsLost` | code/frontend/internal/feed/live.go:339-345 | after a clean end inside a frame that names an id, no later connection brings the events up to that id |
| `Live.CutFrameIsLost` | code/frontend/internal/feed/live.go:339-345 | such a body: an id line and part of the data, cleanly ended; the event is lost for good |
| `StreamServer.Replay` | code/backend/metiche/app/stream/sse.go:277-294 | the batched replay loop writes what its specification says for any sequence of table sizes met |
| `StreamServer.ReplaySkipsNothing` | code/backend/metiche/app/stream/sse.go:277-294 | the replay writes the log above the cursor in order, and once done has reached everything the log held at its first read |
| `StreamServer.ReplayReachesEnd` | code/backend/metiche/app/stream/sse.go:277-294 | the replay ends, at the latest with the read after which no full batch is left |
| `StreamServer.Deliver` | code/backend/metiche/app/stream/hub.go:310-334 | the fan-out skips what was fanned out before and sends the rest without waiting |
| `StreamServer.FanOutCovers` | code/backend/metiche/app/stream/hub.go:267-334 | over any reads of the tailer and from any starting mark, what was fanned out above the mark and the base is the next stretch of the log, in order |
| `StreamServer.Follow` | code/backend/metiche/app/stream/sse.go:206-245 | the handler's loop after the replay writes the frames above the highest sequence so far |
| `StreamServer.ConnectionIsExact` | code/backend/metiche/app/stream/sse.go:147-245 | a connection has written exactly the next stretch of the log above its cursor if and only if no frame above the replay's end was dropped before the last one written, and nothing was followed after rows that the fan-out's starting mark passed over |
| `StreamServer.AllDeliveredIsWritten` | code/backend/metiche/app/stream/sse.go:147-245 | a connection without a gap that was followed to the end of its buffer has written all of the table above its cursor as far as any delivery above the mark reached |
| `StreamServer.DroppedFrameIsAGap` | code/backend/metiche/app/stream/hub.go:318-333 | on any log of three rows: a possible connection whose second row does not fit writes the first and the third |
| `StreamServer.SeedAheadIsAGap` | code/backend/metiche/app/stream/hub.go:141-165 | on any log of three rows: with the mark at the second, which was committed after, every frame fits and the second is never written |
| `EndToEnd.LinesCarry` | code/backend/metiche/app/stream/frame.go:119-129 | what the server writes, keepalives included, parses to one message per frame in order |
| `EndToEnd.ServedRunIsHonest` | code/backend/metiche/app/stream/sse.go:147-245 | connections of the stream server without gaps, cut after any frame or inside one, are the well-behaved servers the reader's exactness asks for |
| `EndToEnd.TableToTimeline` | code/frontend/internal/hub/hub.go:123-197 | from the table to the store's timeline over any drops and reconnects of connections without gaps: exactly the next events above the store's cursor, one each |
| `EndToEnd.TimelineHoldsTheTable` | code/frontend/internal/hub/hub.go:123-197 | as soon as one such connection is written to the end of the table, the timeline holds all of it above the store's cursor, one row each |
| `Store.Store.Apply` | code/frontend/internal/state/store.go:99-124 | the whole new state and the stamped event, for every event and state: duplicates change nothing, the log is trimmed, the fold is skipped under a snapshot; rows are changed in place and keep their pointers |
| `Store.Store.EventsAfter` | code/frontend/internal/state/store.go:128-138 | the logged events above a sequence, in order |
| `Store.Store.Load` | code/frontend/internal/state/store.go:152-165 | entities, resume cursor and board revision after a snapshot is loaded; the log is kept, and of what the store was made of only its maps are changed |
| `Store.Store.Refresh` | code/frontend/internal/state/store.go:176-185 | entities replaced, the sequence cursor and the log untouched, the revision raised if the snapshot's is higher; the old rows are left as they are |
| `Store.Store.Replace` | code/frontend/internal/state/store.go:213-238 | all entity maps show the snapshot's rows and nothing else, in new objects |
| `Store.Store.Mutate` | code/frontend/internal/state/store.go:380-641 | the in-place update of the rows by one event leaves them showing the fold of that event, with every pointer kept; what the fold says is in the rows of `Meaning` |
| `Store.Store.Snapshot` | code/frontend/internal/state/store.go:241-305 | new copies of all the rows, pointing where the rows point, with the log and the cursors |
| `Folding.FoldEvent` | code/frontend/internal/state/store.go:380-641 | the rows found or made, and written through their pointers, hold after an event what the view of it says |
| `Folding.FindAgent` | code/frontend/internal/state/store.go:421-426 | the walk over the agents a row points at finds the first with a key, or that there is none |
| `Showing.ShowsAfter` | code/frontend/internal/state/store.go:380-641 | for every world and event: rows that show the world, changed in place, show the folded world |
| `Meaning.SessionStatus` | code/frontend/internal/state/store.go:437-504 | for every world, event, session and status: the session has that status after the event if and only if the event starts it, gives it a status line, ends, stalls or revives it so, or it had it and none of these happened |
| `Meaning.IntentStatus` | code/frontend/internal/state/store.go:461-504 | likewise for an intent: its declaration, its updates, and the end of its session, which completes one that was open |
| `Meaning.ClaimStatus` | code/frontend/internal/state/store.go:461-522 | likewise for a claim: made, released, expired, or released by the end of its session |
| `Meaning.DecisionStatus` | code/frontend/internal/state/store.go:555-595 | likewise for a decision: recorded, superseded by one recorded in its place or by itself, or ended |
| `Meaning.ConflictStatus` | code/frontend/internal/state/store.go:597-635 | likewise for a conflict: raised, escalated, acknowledged, resolved |
| `Meaning.SessionFields` | code/frontend/internal/state/store.go:437-478 | whose a session is, when it began and ended, when it was last heard of and its status line, after any event |
| `Meaning.SessionRows` | code/frontend/internal/state/store.go:437-504 | which sessions there are after any event: those there were, and one the event names |
| `Meaning.IntentFields` | code/frontend/internal/state/store.go:480-504 | whose an intent is, what it says, its kind and its revision |
| `Meaning.ClaimFields` | code/frontend/internal/state/store.go:506-522 | whose a claim is, on which paths, how and until when: half an hour if it does not say how long |
| `Meaning.DecisionFields` | code/frontend/internal/state/store.go:555-595 | a decision recorded again is revised: the revision given, the first, or one more if the wording is new; it keeps when it was first recorded |
| `Meaning.DecisionSuccessor` | code/frontend/internal/state/store.go:555-595 | by which decision one is superseded |
| `Meaning.ConflictFields` | code/frontend/internal/state/store.go:597-635 | a conflict is counted each time it is raised or escalated, and keeps when it was first raised and first put to a person |
| `Meaning.MemberFields` | code/frontend/internal/state/store.go:413-430 | a member is named and given a role by joining, and made known by an agent too |
| `Meaning.NewAgent` | code/frontend/internal/state/store.go:419-430 | an agent registered under a key its member does not have comes last, active unless said otherwise |
| `Meaning.AgentFields` | code/frontend/internal/state/store.go:419-435 | an agent registered again under its key is renamed, stated and shown seen, a status of its own states it and shows it seen, and no other event changes it |
| `Meaning.ContractFields` | code/frontend/internal/state/store.go:524-553 | a contract is of the kind last published, and its publications come one after the other |
| `Meaning.AssertionFields` | code/frontend/internal/state/store.go:524-553 | an active publication is superseded by its session's next on the same side, withdrawn with what its session publishes, and changed by no other event |
| `Meaning.EndedStaysEnded` | code/frontend/internal/state/store.go:437-478 | over any events after a session's end with a status that is neither live nor stale: it is not at work again until it starts, has a status line or stalls, whatever heartbeats and intents come |
| `Meaning.WorkingExactlyWhen` | code/frontend/internal/state/store.go:437-478 | over every history: a session is at work if and only if no end was the last word on it |
| `Meaning.HeldExactlyWhen` | code/frontend/internal/state/store.go:461-522 | over every history: a claim is active if and only if it was made and since then neither released, expired nor made again, nor its session ended |
| `Meaning.InForceExactlyWhen` | code/frontend/internal/state/store.go:555-595 | over every history: a decision is in force if and only if it was recorded so and since then neither recorded again, nor ended, nor recorded in place of |
| `Entities.ShowsOne` | code/frontend/internal/state/store.go:36-47 | rows show one world only |
| `Tables.Family.WriteKid` | code/frontend/internal/state/store.go:421-435 | writing through one pointer is seen at its place and nowhere else |
| `Tables.LooksLive` | code/frontend/internal/state/store.go:247-282 | copies of rows show, through the pointers they were made with, what the rows now hold there |
| `Snapshots.Later` | code/frontend/internal/state/store.go:241-305 | a snapshot taken of any store, after any events, loads and refreshes: its rows, log and cursors are as they were, and its agents and assertions as they were last before the rows were replaced |
| `Snapshots.AgentChanges` | code/frontend/internal/state/store.go:419-435 | an agent changes on exactly the registrations of its key and the changes of its status that say something new |
| `Snapshots.AssertionChanges` | code/frontend/internal/state/store.go:524-553 | an assertion changes on exactly its session's publications on its side and withdrawals, while it is active |
| `Snapshots.SnapshotMoves` | code/frontend/internal/state/store.go:241-305 | what a snapshot shows changes with an event if and only if the event reaches an agent or assertion that it has |
| `Snapshots.SnapshotStays` | code/frontend/internal/state/store.go:241-305 | over a run none of whose folded events reaches it, a snapshot shows what it did |
| `Snapshots.LiveSnapshotStays` | code/frontend/internal/state/store.go:114-116 | under a loaded snapshot what a reader was given never changes |
| `Snapshots.StatusReachesReader` | code/frontend/internal/state/store.go:432-435 | a status set after the snapshot was taken shows in it |
| `StoreRuns.FoldsOnlyRecords` | code/frontend/internal/state/store.go:99-124 | however often and in whatever order events come, the store is the fold of those that were higher than all before them |
| `StoreRuns.RedeliveryFoldsOnce` | code/frontend/internal/state/store.go:99-124 | overlapping redelivery of stretches of a log equals folding it once |
| `StoreRuns.LogIsAccepted` | code/frontend/internal/state/store.go:99-124 | the log is the accepted events in order, cut to the newest |
| `StoreRuns.AcceptedInOrder` | code/frontend/internal/state/store.go:99-124 | accepted sequences strictly increase and end at the cursor |
| `StoreRuns.AcceptedCameIn` | code/frontend/internal/state/store.go:99-124 | an accepted event is one that came in, unchanged but for the revision stamped on it and a number where it had none |
| `StoreRuns.NextNumber` | code/frontend/internal/state/store.go:103-109 | an event without a number takes the next one; one with a number is taken if and only if that is higher than the cursor |
| `StoreRuns.RevisionCountsStructural` | code/frontend/internal/state/store.go:110-112 | the board revision rises by one on exactly the accepted structural events |
| `StoreRuns.StampsRevision` | code/frontend/internal/state/store.go:110-113 | each accepted event carries the revision the board had with it |
| `StoreRuns.RefreshSwallowsNothing` | code/frontend/internal/state/store.go:176-185 | refreshing in between loses no event, moves no cursor and never lowers the revision |
| `StoreRuns.LoadLeavesRows` | code/frontend/internal/state/store.go:193-238 | after a load or a refresh, of each of the seven kinds a key has a row if and only if the snapshot lists one, and it is the last it lists |
| `StoreRuns.SnapshotTakesOver` | code/frontend/internal/state/store.go:152-185 | from a load or a refresh on no event changes an entity, and the revision a refresh leaves is the higher of the two |
| `StoreRuns.ResumeDespiteTrimming` | code/frontend/internal/state/store.go:114-138 | reading the trimmed log above k gives everything ever logged above k if and only if k is not below the newest evicted event |
| `StoreRuns.RunsKeepWorldOk` | code/frontend/internal/state/store.go:380-641 | over every log: agent keys unique per member, a decision in force neither ended nor superseded, one active assertion per contract, session and role |
| `StoreRuns.StoreFoldsAccepted` | code/frontend/internal/state/store.go:99-124 | the store of a recording is the fold of the events it accepted |
| `StoreRuns.EndedSessionHoldsNothing` | code/frontend/internal/state/store.go:380-522 | from the end of a session to the next claim made for it, no claim of it is active |
| `Hub.Hub.Subscribe` | code/frontend/internal/hub/hub.go:291-302 | a new subscriber is registered with an empty queue, or closed at once on a closed hub |
| `Hub.Hub.Unsubscribe` | code/frontend/internal/hub/hub.go:305-315 | the subscriber is gone and its channel closed, once |
| `Hub.Hub.Close` | code/frontend/internal/hub/hub.go:251-262 | no subscribers are left and every channel is closed; what was queued stays |
| `Hub.Hub.Broadcast` | code/frontend/internal/hub/hub.go:317-333 | every registered subscriber gets the frame last, or is dropped for a full buffer; each one's frames stay a prefix of the broadcasts since it subscribed |
| `Hub.Hub.Receive` | code/frontend/internal/hub/hub.go:291-333 | a browser takes the oldest queued frame and nothing else changes |
| `Hub.Hub.Ingest` | code/frontend/internal/hub/hub.go:185-197 | one event is applied, and broadcast as a row if it was accepted |
| `Hub.Hub.Drain` | code/frontend/internal/hub/hub.go:152-168 | a burst is applied in order, its accepted events broadcast as rows, and whether any was structural is known |
| `Hub.Hub.TakeTurn` | code/frontend/internal/hub/hub.go:123-232 | one turn: the burst, then a refresh and one board at most |
| `Hub.Hub.Run` | code/frontend/internal/hub/hub.go:123-177 | the state and the broadcasts after any number of turns, with every subscriber's queue invariant kept |
| `Hub.TurnRepaintsOnce` | code/frontend/internal/hub/hub.go:152-172 | a turn broadcasts a row for each event it accepts, in order, and after them one board if and only if one of those is structural |
| `Hub.NothingReread` | code/frontend/internal/hub/hub.go:199-223 | over a recording, or while every read fails, any number of turns leave the store that their events leave, one after another |
| `Hub.BoardsKeepUp` | code/frontend/internal/hub/hub.go:123-232 | over any number of turns: the last board broadcast carries the revision the store is left at, however it got there |
| `Freshness.Snapshot` | code/frontend/internal/feed/live.go:230-256 | the reads succeed together or not at all; field by field, what they answered: members, sessions, intents and claims of the team, its conflicts and then the settled ones, the contracts, the decisions; sequence and revision are the first read's; the resume cursor is the sequence less the backfill when that is between the two, else the sequence |
| `Freshness.TeamMustComeFirst` | code/frontend/internal/feed/live.go:219-256 | over every run of a backend that commits events while it is read: the board is fresh at every head with no failed refresh outstanding if and only if the team is read first, or the cursor never passes a read |
| `Freshness.FreshExactlyWhen` | code/frontend/internal/hub/hub.go:123-223 | after any steps, with any refreshes failed: every structural event at or below the cursor shows in team, contracts and decisions if and only if the newest one accepted is within the last good snapshot |
| `Freshness.FreshAtEveryHead` | code/frontend/internal/hub/hub.go:123-223 | at every head of the loop with no failed refresh outstanding, it does; that the team leads follows from its being read first |
| `Freshness.FailedUntilRead` | code/frontend/internal/hub/hub.go:199-223 | a failed refresh is outstanding until the next good read and leaves the store alone; a failed load is begun again |
| `Freshness.PartReadThen` | code/frontend/internal/feed/live.go:219-256 | each part of the board reflects what was committed when that part was read, in whatever order they are |
| `Freshness.NeverMissed` | code/frontend/internal/hub/hub.go:210-223 | while refreshes succeed, none is ever outstanding |
| `Freshness.BoardIsWhatWasRead` | code/frontend/internal/hub/hub.go:210-223 | after the load, row by row: of each of the seven kinds a key is on the board if and only if the last good reads have a row with it, and the row is the last such |
| `Freshness.RunTakesTurns` | code/frontend/internal/hub/hub.go:123-223 | the store of every run is the one the hub's loop leaves after its turns |
| `Freshness.FailedRefreshIsStale` | code/frontend/internal/hub/hub.go:210-223 | a witness on any log that starts with a structural event: a run whose failed refresh leaves the board without it |
| `Freshness.FailedRefreshMayBeFresh` | code/frontend/internal/hub/hub.go:210-223 | a witness of the other case: a failed refresh for an event of the history, which the load had read |
| `Freshness.RevisionAfterBackfill` | code/frontend/internal/state/store.go:110-112 | re-delivered history raises the revision again, by one per structural event |
| `Resume.LoopFollows` | code/frontend/internal/hub/hub.go:123-232 | from any state, the hub's frames are its rows in log order with boards that carry the sequence of the row before them |
| `Resume.EveryEventHasARow` | code/frontend/internal/hub/hub.go:123-197 | over any turns from any state, every event accepted is broadcast as one row, in order |
| `Resume.HistoryIsAccepted` | code/frontend/internal/hub/hub.go:123-223 | over a recording, or while every read fails, those are the events accepted of all the turns' events, one after another |
| `Resume.Serve` | code/frontend/internal/web/server.go:406-512 | the stream handler writes the replay, then the subscription without the rows the replay covered |
| `Resume.ResumeIsExact` | code/frontend/internal/hub/hub.go:268-285 | for a browser that asked with any id at all and was cut off anywhere: it can resume with no row missed or repeated of what the hub logged if and only if the cut is not faulty, that is, where nothing was to be missed the id is where the log stood when the board was drawn or the broadcasts when it subscribed, and otherwise nothing was evicted, the board was drawn with the backlog, and the last frame is not older than it |
| `Resume.OnlyRaces` | code/frontend/internal/web/server.go:406-512 | for an id already logged when it subscribed, that the store reaches back to, a cut is faulty if and only if it is one of the three named races |
| `Resume.CaughtUp` | code/frontend/internal/web/server.go:406-512 | a browser not cut at a faulty point has every row above its id, each once, up to the last row or board it was sent |
| `Resume.VisitIsExact` | code/frontend/internal/state/store.go:152-165 | over all the team ever logged, however far back the process loaded: exact if and only if the load passed over nothing the browser lacks and the cut is not faulty |
| `Resume.QuietIsNeverRacy` | code/frontend/internal/hub/hub.go:268-285 | a connection during whose start nothing is logged or broadcast meets none of the races |
| `Resume.ReconnectsExactly` | code/frontend/internal/web/server.go:406-512 | over any number of reconnections and restarts of the board, none cut at a faulty point, every row above the first id is received once |
| `Resume.LastReceived` | code/frontend/internal/web/server.go:406-512 | over any number of reconnections a browser ends with the last id of its last connection |
| `Resume.BoardAheadOfBacklog` | code/frontend/internal/hub/hub.go:268-285 | an event logged between the two locked reads is skipped by a browser cut right after the board |
| `Resume.BoardBehindBacklog` | code/frontend/internal/web/server.go:406-512 | a board broadcast between two rows already replayed takes the last id back |
| `Resume.RowBroadcastAfterReconnect` | code/frontend/internal/web/server.go:406-512 | a row logged but not yet broadcast is received again after a reconnection |
| `Resume.RestartRepeats` | code/frontend/internal/web/server.go:406-512 | after a restart whose hub has not logged the rows of its backfill again, a browser that has them gets the first once more, with none of the races |
| `Resume.RestartSkips` | code/frontend/internal/state/store.go:152-165 | a restart that loads past a row makes the first board take a browser without it past it |
| `Resume.EvictionSkips` | code/frontend/internal/state/store.go:117-138 | on any log longer than the store keeps, a browser that has none of it and is cut after the first row has missed the evicted ones |
| `Handshakes.LoopStepsRun` | code/frontend/internal/hub/hub.go:123-232 | the hub's loop, its turns taken apart into single loggings and broadcasts, is a run of steps that leaves the same log and frames |
| `Handshakes.HandshakesArise` | code/frontend/internal/web/server.go:406-512 | however a connection's subscription and its two reads fall between those steps, they see the log in the order a handshake does, and what is broadcast after follows it |
| `Handshakes.HubMakesConnections` | code/frontend/internal/hub/hub.go:291-333 | any subscriber of a hub that has run its loop, registered or dropped, and any id it asked with, make a connection such as the exactness of resuming is about |
| `Handshakes.HubMakesVisits` | code/frontend/internal/hub/hub.go:291-333 | with the events the store was loaded past, that is a connection after a restart |
| `Fixture.Stream` | code/frontend/internal/feed/fixture.go:101-187 | the replay loop emits exactly the renumbered passes above the cursor, with the recording's offsets |
| `Fixture.Offsets` | code/frontend/internal/feed/fixture.go:125-141 | the offsets array accumulates the clipped pauses |
| `Fixture.PauseIs` | code/frontend/internal/feed/fixture.go:125-141 | between two events: no pause where the clock runs back, else the time between at the speed asked for, in whole nanoseconds and at most the longest gap; a time too long for a duration counts as the longest one |
| `Fixture.KeepsItsTime` | code/frontend/internal/feed/fixture.go:112-141 | at its own speed, which no speed stands for, a recording that never pauses longer than the longest gap (three seconds if none is given) is replayed in exactly its own time |
| `Fixture.LoadedIncreasing` | code/frontend/internal/feed/fixture.go:84-85 | a recording with distinct sequences is loaded strictly ordered, with nothing lost |
| `Fixture.ReplayAdvances` | code/frontend/internal/feed/fixture.go:112-141 | at any speed and gap asked for, and however numbers out of range are converted, offsets never decrease and advance by at most the longest gap per event, if every quotient and their sum fit a duration |
| `Fixture.AdvancesExactly` | code/frontend/internal/feed/fixture.go:112-141 | on a machine where a number out of range becomes the least duration, offsets advance so if and only if every quotient and their sum fit a duration |
| `Fixture.TooSlowRunsBackwards` | code/frontend/internal/feed/fixture.go:125-141 | two events a second apart, replayed ten thousand million times slower, run backwards |
| `Fixture.PassesIncreasing` | code/frontend/internal/feed/fixture.go:146-184 | however often it loops, the stream strictly increases above zero and ends where the next pass begins |
| `Fixture.PassesNumber` | code/frontend/internal/feed/fixture.go:152-177 | event i of pass k is the recorded one with its own sequence plus k times the last one, at its offset from when that pass began |
| `Fixture.ResumesExactly` | code/frontend/internal/feed/fixture.go:165-167 | resuming above a cursor gives exactly the part of the whole stream above it |
| `Roster.TeamState` | code/frontend/internal/feed/wire.go:189-282 | the maps filled session by session are the derived members, agents and sessions that the rows below describe |
| `Roster.SessionsAreReported` | code/frontend/internal/feed/wire.go:189-282 | the derived sessions are those reported, in order, each with its own member, agent key and times |
| `Roster.MembersAreReported` | code/frontend/internal/feed/wire.go:189-282 | a member is derived if and only if some session reports it, and is named and dated as the sessions that report it say |
| `Roster.AgentsAtHome` | code/frontend/internal/feed/wire.go:200-235 | an agent is listed under a member if and only if the first session reported with its key names that member |
| `Roster.AgentIsReported` | code/frontend/internal/feed/wire.go:217-232 | such an agent is active if that session's status is live or not given, else idle, and was last seen at its last heartbeat or start |
| `Roster.KeyShared` | code/frontend/internal/feed/wire.go:576-586 | two pairs of member and label share an agent key if and only if they are the same, one stands alone where the other's name or label does, or a slash more in one name makes up for one in the other's label |
| `Roster.SlashSharesKey` | code/frontend/internal/feed/wire.go:576-586 | the shared keys "a/b" with "c" and "a" with "b/c", "x" with nothing and nothing with "x" |
| `Roster.PlainKeysApart` | code/frontend/internal/feed/wire.go:576-586 | without a blank or a slash in them, only the same member and label share a key |
| `Roster.DerivedOk` | code/frontend/internal/feed/wire.go:200-235 | for any sessions reported: members once each in order of appearance, every agent key at one place on the whole board, every session's agent among them |
| `Roster.LoadedIsCovered` | code/frontend/internal/state/store.go:193-217 | after loading such a snapshot every live session's agent is listed exactly once, however the rows are listed |
| `Roster.LiveBoard` | code/frontend/internal/state/derive.go:109-220 | from the snapshot's sessions to the drawn board: every live or stale session in exactly one lane, every agent without one in exactly one lane with its last session, and as many lanes as these make |
| `Roster.OwnLane` | code/frontend/internal/feed/wire.go:189-282 | on the live path the lane of a live session is in its own member's list if and only if the first session reported with its agent's key names that member |
| `Roster.StrangersShareALane` | code/frontend/internal/feed/wire.go:189-282 | two sessions of two members with one agent key: the second's lane is not in its member's list |
| `Roster.PlainLanesAtHome` | code/frontend/internal/feed/wire.go:189-282 | with no slash and no blank in names and labels, every live session's lane is in the list of the member it was reported with, once |
| `Lanes.Lanes` | code/frontend/internal/state/derive.go:109-220 | each member's list holds exactly the lanes of that member's agents, nested from a list with the busy ones first, each told whether its agent has several sessions at work |
| `Lanes.MemberLanes` | code/frontend/internal/state/derive.go:172-209 | a member's lanes: those of its agents, sorted busy first and then nested, none lost and none added |
| `Lanes.Group` | code/frontend/internal/state/derive.go:114-134 | the live sessions and the last finished session of every agent |
| `Lanes.LastOfIs` | code/frontend/internal/state/derive.go:114-134 | the session an idle agent shows is the first of those it started last, if it has any |
| `Lanes.LiveInOrder` | code/frontend/internal/state/derive.go:172-202 | the lanes of an agent at work stand in the order its sessions began, by key if two began together |
| `Lanes.SessionShown` | code/frontend/internal/state/derive.go:172-202 | for any members at all, a live session has as many lanes as times its agent is listed, all under its own agent |
| `Lanes.EverySessionOneLane` | code/frontend/internal/state/derive.go:109-220 | with every agent listed once, every live session is in exactly one lane, every agent without one has exactly one lane, and the lanes are counted |
| `Lanes.NestedInList` | code/frontend/internal/state/derive.go:109-280 | with every agent listed once and no cycle, a lane of a member's list is nested if and only if it works and names the session at work in another lane of that list |
| `Nesting.Placement.Place` | code/frontend/internal/state/derive.go:256-268 | the recursive placing of a lane adds it at its depth, then only deeper lanes, and leaves nothing under a drawn lane undrawn; it terminates for any parent relation |
| `Nesting.Order` | code/frontend/internal/state/derive.go:254-279 | the two passes draw every lane, each nested lane after its supervisor one level up with only lanes at least as deep between, siblings and top lanes in order, and nest every supervised lane if and only if there is no cycle |
| `Nesting.NestSubagents` | code/frontend/internal/state/derive.go:229-280 | the reordered, annotated lanes for any member's lanes, cycles of supervisors included, as the rows below describe them |
| `Nesting.SupervisorIs` | code/frontend/internal/state/derive.go:233-252 | for any lanes: a lane has this supervisor if and only if both work, they are two lanes, and it is the last working lane of the session that the first names |
| `Nesting.DrawnLaneShows` | code/frontend/internal/state/derive.go:233-280 | a drawn lane shows its agent and session, the supervisor it names, whether that session lives anywhere on the board, and how many lanes have it for a supervisor |
| `Nesting.NestedBelowSupervisor` | code/frontend/internal/state/derive.go:254-279 | a nested lane is drawn below its supervisor's, one level deeper, with only lanes at least as deep between |
| `Nesting.SupervisedAreNested` | code/frontend/internal/state/derive.go:254-279 | without a cycle the nested lanes are those that have a supervisor |
| `Nesting.NestedUnderTheNamed` | code/frontend/internal/state/derive.go:229-280 | with no session in two lanes and no cycle, a lane is nested if and only if it works and another drawn lane works on the session it names |
| `Nesting.EveryLaneOnce` | code/frontend/internal/state/derive.go:222-228 | as many lanes come out as went in, none twice |
| `Nesting.SubagentsCounted` | code/frontend/internal/state/derive.go:256-264 | each lane's count of subagents is the number of lanes drawn directly under it, for every lane, if and only if the supervisors form no cycle |
| `Nesting.CycleIsMiscounted` | code/frontend/internal/state/derive.go:254-279 | two lanes that name each other as supervisor each count one subagent, and one of them has none drawn under it |
| `Shapes.SnakeCase` | code/frontend/internal/state/derive.go:700-716 | the respelling loop computes the respelled name |
| `Shapes.OneSpelling` | code/frontend/internal/state/derive.go:700-716 | camel, Pascal, kebab, dotted, spaced and snake spellings of the same words are respelled alike |
| `Shapes.DiffShapes` | code/frontend/internal/state/derive.go:748-810 | the three passes over maps of the fields, sorted, are the specified comparison |
| `Shapes.ReportsExactly` | code/frontend/internal/state/derive.go:748-810 | a difference is reported if and only if a required out field is not given, a required in field is not sent, one of them is only spelled differently, or both sides type a shared field differently; with what is expected, what is there instead, and how grave it is; fields are matched as their keys match |
| `Shapes.KeyTells` | code/frontend/internal/state/derive.go:748-760 | two fields have one key if and only if they are the same, or a colon in one direction makes up for the difference |
| `Shapes.TakenWithoutColon` | code/frontend/internal/state/derive.go:748-760 | fields whose directions hold no colon are taken for one if and only if they agree in direction and name |
| `Shapes.ColonHidesMissing` | code/frontend/internal/state/derive.go:748-810 | a required field is taken to be given by another whose direction holds a colon |
| `Shapes.SevereFirst` | code/frontend/internal/state/derive.go:806-809 | the sorted report is what breaks a side, then what is only spelled differently, else as found: what the consumer needs, what the producer needs, then the types |
| `Shapes.SelfAgreement` | code/frontend/internal/state/derive.go:748-810 | a shape agrees with itself if and only if it gives no field two types |
| `Matrix.Columns` | code/frontend/internal/state/derive.go:562-587 | columns are exactly the sessions with an active assertion, each once, called by its member's name or else its key, by name and then key |
| `Matrix.ByRole` | code/frontend/internal/model/model.go:235-244 | the active assertions of one role, sorted by session |
| `Matrix.Compare` | code/frontend/internal/state/derive.go:621-636 | every consumer is compared with every producer, and its session's cell marked with its own differences |
| `Matrix.BuildRow` | code/frontend/internal/state/derive.go:589-654 | the whole row of a contract |
| `Matrix.ContractMatrix` | code/frontend/internal/state/derive.go:559-665 | columns as above, and the rows of the contracts, sorted |
| `Matrix.RowEach` | code/frontend/internal/state/derive.go:589-654 | there is one row for each contract |
| `Matrix.MatrixInOrder` | code/frontend/internal/state/derive.go:656-663 | the rows are those, in reading order: what nobody produces, what disagrees, what several produce, what nobody consumes, then the rest, by key among equals |
| `Matrix.RowSides` | code/frontend/internal/state/derive.go:589-591 | a row names the active assertions of each side and no others, by session, those of one session in the order they were published |
| `Matrix.RowDiffers` | code/frontend/internal/state/derive.go:621-636 | a row lists a difference if and only if some active producer and some active consumer of its contract differ so |
| `Matrix.CellTells` | code/frontend/internal/state/derive.go:596-636 | a cell tells the shape its session published last, counts the fields of all it actively asserts, and shows the differences of its last consuming assertion that a producer disagrees with |
| `Matrix.CellShowsRoles` | code/frontend/internal/state/derive.go:596-612 | a cell shows exactly the sides its session actively asserts, in whatever order they were published, if and only if no blank role comes before a single side |
| `Matrix.BlankRoleByOrder` | code/frontend/internal/state/derive.go:596-612 | a blank role and then a side show the side alone; the other way round they show both |
| `Matrix.CellMarked` | code/frontend/internal/state/derive.go:621-645 | a cell is marked if and only if its session's consumption disagrees with a producer or it is one of several producers |
| `Matrix.StatusMeans` | code/frontend/internal/state/derive.go:667-698 | each verdict holds if and only if the active assertions stand as it says: unclaimed, mismatch, contested, unconsumed, converged |
| `Matrix.SeverityMeans` | code/frontend/internal/state/derive.go:667-698 | a row is critical if and only if somebody consumes what nobody produces, high if and only if a difference breaks a side or several produce it without a difference, low if and only if it differs in spelling only |
| `Matrix.FoldedSides` | code/frontend/internal/state/store.go:524-545 | on any folded log a session has at most one active assertion per contract and side |
| `Matrix.Converges` | code/frontend/internal/state/store.go:534-545 | when the only consumer publishes the only producer's field list the row becomes converged, unless that list gives a field two types |
| `Graph.OverlapMeansSimultaneous` | code/frontend/internal/model/history.go:117-126 | holds overlap if and only if they share an instant, except exactly when one lasts no time and lies strictly inside the other |
| `Graph.HoldCovers` | code/frontend/internal/model/history.go:103-126 | a hold covers the instants from its beginning to its release, or all after it while it has none |
| `Graph.InstantHoldOverlaps` | code/frontend/internal/model/history.go:117-126 | a hold that lasts no time and one around it overlap and share no instant |
| `Graph.FilesShareArea` | code/frontend/internal/state/graph.go:111-130 | two files share an area if and only if they are in one directory |
| `Graph.AreaIs` | code/frontend/internal/state/graph.go:111-130 | the area of a path is the path to its last slash; that of a bare name is the name, and of nothing the root |
| `Graph.GlobLandsElsewhere` | code/frontend/internal/state/graph.go:111-130 | a claim on everything under a directory other than the root is never in the area of the files there |
| `Graph.BareGlob` | code/frontend/internal/state/graph.go:111-130 | a glob with nothing in front of it covers the root |
| `Graph.GraphBuild.Touch` | code/frontend/internal/state/graph.go:179-192 | a touch is recorded once per artifact and session, in order |
| `Graph.GraphBuild.AddMark` | code/frontend/internal/state/graph.go:196-203 | an artifact keeps its worst severity and any alarm |
| `Graph.HeldTogether` | code/frontend/internal/state/graph.go:148-161 | the four loops answer whether two different sessions have overlapping holds |
| `Graph.GraphBuild.Layout` | code/frontend/internal/state/graph.go:335-458 | every touched artifact once in strict order; edges exactly the touches of known sessions, as many as the degrees sum to; crossings plus hand-offs are the shared artifacts, and the alarmed ones are counted |
| `Graph.RowsInOrder` | code/frontend/internal/state/graph.go:342-357 | crossings come first, then what is shared at different times, each from the worst severity down and by name |
| `Graph.NodeShows` | code/frontend/internal/state/graph.go:335-458 | a drawn artifact shows how many sessions touched it, whether it is shared and no crossing, its worst severity and any alarm |
| `Graph.WorstShows` | code/frontend/internal/state/graph.go:196-203 | its severity is critical, high, medium or low if and only if it is marked so and with nothing worse |
| `Graph.StrokeShows` | code/frontend/internal/state/graph.go:335-458 | a stroke is drawn if and only if a listed session touched the artifact, hot at a crossing and alarmed with it |
| `Graph.StableLayout` | code/frontend/internal/state/graph.go:342-357 | the rows depend only on which touches, holds and marks there were, not on their order or repetition |
| `Graph.BuildWindow` | code/frontend/internal/state/graph.go:283-315 | the build of a past window holds exactly the visits and marks its holds and conflicts ask for |
| `Graph.WindowCrossing` | code/frontend/internal/state/graph.go:283-315 | an area of a past window is a crossing if and only if two listed sessions held paths in it with overlapping holds |
| `Graph.WindowMarked` | code/frontend/internal/state/graph.go:283-315 | an area of a past window is marked with a severity if and only if a conflict of that severity is over a path in it, and never alarmed |
| `Graph.CrossingMeansSimultaneous` | code/frontend/internal/state/graph.go:146-161 | when every hold lasts some time, a crossing is an instant at which two sessions held the artifact |
| `RepoUrl.CleanRepoPath` | code/cli/internal/gitx/gitx.go:260-289 | the path loops compute the cleaned path |
| `RepoUrl.KeptMore` | code/cli/internal/gitx/gitx.go:260-268 | of a path's parts those that are neither empty nor "." are kept, in order |
| `Text.FoldTells` | code/cli/internal/gitx/gitx.go:269-280 | texts are equal but for case if and only if they differ in the case of ASCII letters only |
| `RepoUrl.ParseRepoURL` | code/cli/internal/gitx/gitx.go:189-230 | host and path of any text |
| `RepoUrl.TailIsCut` | code/cli/internal/gitx/gitx.go:189-199 | a query or a fragment changes nothing of what a text names |
| `RepoUrl.BackslashIsSlash` | code/cli/internal/gitx/gitx.go:189-199 | texts that differ only in which way their slashes lean name the same |
| `RepoUrl.FileIsLocal` | code/cli/internal/gitx/gitx.go:200-205 | a file URL names no host, and its path is cleaned in its own letter case |
| `RepoUrl.RootKept` | code/cli/internal/gitx/gitx.go:260-289 | a local path keeps its root and is else cleaned like any other |
| `Spellings.HostIs` | code/cli/internal/gitx/gitx.go:232-238 | a host without a port is told by a dot that does not end it and by starting with a letter or a digit |
| `Spellings.AliasIsHost` | code/cli/internal/gitx/gitx.go:214-218 | a bare text has a host, dotted or not, in front of a colon that is neither first nor second and before any slash |
| `Spellings.RootedIsLocal` | code/cli/internal/gitx/gitx.go:207-223 | a bare text that starts with a slash names no host |
| `Spellings.DriveIsLocal` | code/cli/internal/gitx/gitx.go:207-223 | nor does one with a colon second and a slash third |
| `Spellings.UndottedIsLocal` | code/cli/internal/gitx/gitx.go:207-223 | nor does one without a colon or a dotted host before its first slash |
| `RepoUrl.ParsedIsShaped` | code/cli/internal/gitx/gitx.go:189-289 | a parsed host is lower case without outer dots, the path has no empty, inner "." or trailing .git part, and nothing the parser cuts by is left in either |
| `RepoUrl.RoundTrip` | code/cli/internal/gitx/gitx.go:139-151 | re-parsing the stored form gives the same host and path if and only if no slash or stray bracket is in the host, no "." ends the path and no white space ends the text |
| `RepoUrl.StoredIsStable` | code/cli/internal/gitx/gitx.go:125-151 | under that condition storing again changes neither the stored form nor the identity |
| `Spellings.OneIdentity` | code/cli/internal/gitx/gitx.go:125-136 | a spelling of a repository (any scheme and port, scp form or bare, user information without a slash, a query or fragment sign, a backslash or white space, extra slashes and "." parts, .git runs, letter case where the host ignores it) is read as its host and path, and has its identity, if and only if no at sign stands after the user information and no "://" after the host of a text without a scheme |
| `Spellings.IdentityTells` | code/cli/internal/gitx/gitx.go:125-136 | two such spellings have the same identity if and only if they name the same repository |
| `Spellings.LetterCase` | code/cli/internal/gitx/gitx.go:123-136 | on github.com, gitlab.com and bitbucket.org a repository's name is identified in lower case, on every other host as it is written |
| `Spellings.AtTakesIdentity` | code/cli/internal/gitx/gitx.go:189-230 | on any host that keeps letter case, the path "@" and then another repository's host and path has that repository's identity |
| `Spellings.SlashesMakeAScheme` | code/cli/internal/gitx/gitx.go:189-230 | the scp form with "//" before the path does not have the identity of what it names |
| `Spellings.SpellingsRestore` | code/cli/internal/gitx/gitx.go:139-151 | every such spelling can be stored and read back |
| `Spellings.TrailingDotIsLost` | code/cli/internal/gitx/gitx.go:269-280 | on any host, a path "..git" is not read back |
| `Spellings.BracketedSlashIsLost` | code/cli/internal/gitx/gitx.go:214-216 | any bracketed host with a slash in it is not read back |
| `Binding.Parse` | code/cli/internal/binding/binding.go:58-84 | what a text says, up to the first line too long for the scanner |
| `Binding.WrittenReads` | code/cli/internal/binding/binding.go:88-101 | a written line is read back as its key, in lower case whatever case it was written in, and its value, if and only if the value holds no comment sign and no outer white space |
| `Binding.SplitIndented` | code/cli/internal/binding/binding.go:88-101 | white space in front of a line changes nothing of what it says |
| `Binding.NothingSaid` | code/cli/internal/binding/binding.go:88-101 | a line says nothing if and only if no equals sign, or no key before it, stands before its comment |
| `Binding.LinesOpen` | code/cli/internal/binding/binding.go:58-84 | a last line without a newline is a line too |
| `Binding.Rewrite` | code/cli/internal/binding/binding.go:191-225 | the loop with its two flags writes the specified lines |
| `Binding.RewriteChanges` | code/cli/internal/binding/binding.go:191-225 | for any text: one team line, one project line or none, every other line kept in order, and a second rewrite changes nothing |
| `Binding.RewriteReads` | code/cli/internal/binding/binding.go:191-225 | reading a rewritten text gives exactly that team and project, no duplicate of either, and what it said of other keys before |
| `Binding.TeamSurvives` | code/cli/internal/binding/binding.go:59-72 | a rewritten text is read to have its team if and only if no other overlong line stands before its first team line |
| `Binding.LongCommentHidesTeam` | code/cli/internal/binding/binding.go:59-72 | one overlong comment is enough to hide the team |
| `Binding.Render` | code/cli/internal/binding/binding.go:179-187 | a fresh file is its comment lines, the team line and the project line if there is one |
| `Binding.RenderReads` | code/cli/internal/binding/binding.go:179-187 | reading a fresh file gives back exactly its team and project |
| `Binding.Resolve` | code/cli/internal/binding/binding.go:153-173 | the nearest file with a team gives the team, the nearest counted one the project, and the uncounted ones are listed in order |
| `Binding.ResolvedIs` | code/cli/internal/binding/binding.go:153-173 | of the regular files found, the first that names a team gives it, the first that names a project within the repository gives that, and a file is ignored if and only if it names a project outside it |
| `Entries.OneOfEach` | code/cli/internal/binding/binding.go:58-84 | any lines with one team, at most one project and given others are read as just that |
| `Entries.TeamIsRead` | code/cli/internal/binding/binding.go:58-84 | for any lines, the team is that of the last team line, and is a duplicate if and only if there are more |
| `Entries.UnknownAreRead` | code/cli/internal/binding/binding.go:58-84 | the keys other than team and project are listed as they come |
| `Entries.DuplicatesAreRead` | code/cli/internal/binding/binding.go:58-84 | every key is listed as a duplicate once for each time it is named again |
| `Editing.EditedClasses` | code/cli/internal/binding/binding.go:191-225 | the replacing walk writes one line of each kind and keeps the rest in order |
| `Editing.EditedFixed` | code/cli/internal/binding/binding.go:191-225 | a list already as it would be written stays as it is |
| `Editing.ReadsNew` | code/cli/internal/binding/binding.go:59-72 | what is read of the edited list holds the new line exactly when the reading reaches it |

## Left out

- Characters: texts are sequences of bytes; letter case and white space are those of ASCII, so Unicode case folding and Unicode spaces in repository URLs, field names and .metiche lines are not modelled.
- JSON, HTTP, TLS and headers: a decoder and an encoder are parameters, a frame either decodes or not, and a read of the backend is a value or a failure.
- Time: waiting, back-off, heartbeats, rate limits and cancellation; a run is any finite number of steps, and each method behind a mutex is one step.
- The scanner's line limit in the SSE reader: a body is given as its lines, ended cleanly or with a read error.
- Events that change the team's or the project's text, and the fields that are only printed (branches, goals, labels, titles of the graph, headlines, notes on differences): they are not carried. Where an event has alternative payload fields for one value, the model has the resolved value, and where an agent is looked up among all members in no set order, the member it is found under.
- `Store.Store.Replace`: the team's and the project's text, which a snapshot sets only where it is not blank.
- `Store.Store.Mutate`: the events of the team and the project, for the same reason.
- `Store.Store.Snapshot`: the rows are given by key and not in the order of the lists; the seven maps are one map whose keys say which of them they belong to.
- The pointers a loaded snapshot's own lists would share with the store: the store makes new rows of them.
- `Hub.Hub.Run`: the history page, the discovery of teams and the rendering of frames are not modelled; a frame is its kind, its event or cursor, and its revision.
- `Resume.ResumeIsExact`: a subscriber dropped for a full buffer is a connection that was cut there.
- `Resume.ReconnectsExactly`: the row of an event logged again after a restart is taken for the same row, although the board revision stamped on it may differ.
- `Spellings.OneIdentity`: user information with a slash, "?", "#", a backslash or white space in it, at which the source cuts the text.
- `StreamServer.ConnectionIsExact`: a read begun by an earlier watch of the same team, seeded ahead, and delivered to the watch that took its place.
- `Fixture.Stream`: quotients are exact reals where the source rounds floating-point numbers; a quotient or a sum out of a duration's range is modelled. Parsing of the recording's lines and the warm-up's shift of the start are not, and the start of each pass is given.
- `Roster.TeamState`: the intents, claims and conflicts of the snapshot, each taken over as reported.
- `Lanes.MemberLanes`: the intents, claims and conflicts of a lane.
- `Lanes.Lanes`: intents, claims, conflicts and hot paths of a lane, and with them the order of the member lists by severity and activity.
- `Matrix.BuildRow`: the verdict and the agreement that the backend may have sent for a contract, which replace the computed ones.
- `Matrix.ContractMatrix`: contracts whose verdict came from the backend (their issues are copied, not compared) and the labels of columns other than the member's name.
- `Graph.GraphBuild.Layout`: coordinates, radii, colours, labels and the visits of the live graph (claims, assertions and decision conflicts); its results hold for any visits.
- `Binding.Parse`: which keys look like credentials, file kinds and file access.
- `Binding.Render`: the comment lines are carried by their first words.
- `Binding.Resolve`: whether one directory is within another is a parameter, and every file found has a path, as the walk up makes it.
- Deriving a project key from a directory name, the walk up the file system, running git, and the other commands of the CLI.
- The other pages of the board (decisions, runs, history), which list or filter rows.
