# Model of chok's stateful pieces

Six machines of the repository, each with the guarantee it is written for.
The database is a set of tables on which every SQL statement or transaction is
one atomic step. Between two steps of one process, other sessions may take any
steps of their own, time passes, a stop may begin, and a statement may be
carried out, refused, or carried out with its answer lost; a crash is a script
that refuses everything from some statement on. The scripts are arbitrary, so
what is proved holds for all of them.

- **Transactional-outbox relay** (`Outbox`, `Sessions`, `Relay`, `LostSave`,
  `Maintenance`, `Retry`, `Positions`). `Outbox` is the state machine every session moves and
  the invariants of whole runs; a `Session` and a `Caretaker` carry the trace of
  the run they are part of; `Relays.Relay` is the sweep with its three stages,
  `Maintenance.Caretaker` the retention cleanup and the dead-letter calls.
- **Versioned migrations** (`Splitter`, `SplitterLaws`, `SplitterGrammar`, `Migrations`, `Runner`,
  `MigrationRace`). The scanner equals a specification by a mode function, which a
  grammar without modes characterises; the laws of joining and splitting again follow, the MySQL runner keeps log and
  ledger in step over any sequence of runs, and on SQLite any number of
  processes race on one ledger.
- **Realtime hub** (`Frames`, `Replay`, `Conn`, `Hub`). The ring with its index,
  the bounded queue with its wake token, and the hub, whose invariant says that
  every subscription of a connection that has not ended was queued exactly the
  topic's events from where it began, in hub order.
- **Keyset pages** (`Cursors`, `Decimals`, `Keyset`): the cursor codec, one
  page, and walks over a table that changes between pages.
- **Sign-in store** (`FlowStore`): a map over a list, refining a sequence.
- **Circuit breaker and login limiter** (`Breaker`, `Limiter`).

`Faults`, `Sets`, `Powers` and `Letters` are shared. A method's contract ties the new state to a
function of the old one, or states the property outright; the laws of those
functions are lemmas.

Where the code and the claims about it part:

- The splitter reads `/*/` as a closed comment (db/sqlsplit.go:45-47, 84-90); so
  does the model.
- The round trip of splitting and joining is stated with its exact condition,
  and `TrimmedContentIsLost` and `JoinConfusesComments` are scripts outside it.
- A save whose answer was lost may be followed by a save of a smaller id at the
  same timestamp: the code goes by the position it knows to be stored
  (jobs/relay.go:591-600). `SavesFallBack` is such a sweep; by `Sweep` and
  `FallsBehindOnlyAfterAFault` it happens only then: each save is strictly past
  every confirmed one and never earlier in time than any.
- Without a watermark the relay scans from the zero time, which filters nothing
  out (jobs/relay.go:415-417).
- Late commits at the timestamp the scan pages by OFFSET make a page repeat rows
  that are done (`LateRowsCostPages`), so the page budget bounds what a sweep got
  through only together with the messages committed since its start.
- `attachLocked` keeps pushing after a refused push (realtime/conn.go:268-306);
  `QueueAll` does too, and what a subscription is owed is promised for attaches
  that did not overflow. A connection that overflows is ended.
- A probe that outlives `reset` can report late (`LateProbe`); the single-probe
  claim is for probes that return in time.
- `throttle` checks and records under the lock separately, so k callers may pass
  a limit by k - 1 and no more (`CallersPassTogether`, `ThrottleIsBounded`,
  `Serve`).

Assumptions: a hash without collisions where `Injective` is required; a clock
that does not go back; one worker process per topic; JSON and base64 that read
back what they wrote (`Cursors.Faithful`); RIDs the database tells apart
(`Keysets.Sound`).

## Model

| member | source | states |
|---|---|---|
| Outbox.StepKeepsInv | jobs/relay.go:450-582 | every atomic change to the jobs tables (a committed Enqueue, a handler success, complete, fail, park, a watermark save, a cleanup batch, Requeue or Discard) keeps: each committed message is pending, handled, parked or resolved; parked ones are acknowledged; a pending one has failed fewer than MaxAttempts times |
| Outbox.StepEvolves | jobs/relay.go:544-582 | no change reuses an id, alters an acknowledged row or a row's identity, moves a watermark's timestamp back, or removes a row that is not strictly behind its own worker's watermark |
| Outbox.ParkedIsTerminal | jobs/dead.go:114-119 | the UPDATE of takeDead that preserves terminal state changes no row, because a parked message is acknowledged already |
| Outbox.DoneStays | jobs/relay.go:426-448 | a message once acknowledged is never pending again, so it is never handed to a handler again |
| Outbox.OthersKeepRows | jobs/state.go:65-70 | no step of another session changes a worker's own rows or watermark, except that acknowledged rows may disappear; rows that are new are pending |
| Outbox.TraceEvolves | jobs/relay.go:253-374 | the same between any two states of any run of steps of any sessions |
| Outbox.NothingIsLost | jobs/relay.go:253-374 | over every run of commits with arbitrary timestamps, workers, crashes, cleanups, requeues and discards, a committed message is pending, or a handler returned nil for it, or it is parked, or Requeue or Discard took it |
| Outbox.OnlyAcknowledgedRowsLeave | jobs/core.go:98-151 | a row that disappears from the table was handled, parked or resolved, and lay strictly behind its own worker's watermark |
| Outbox.AttemptsAreBounded | jobs/relay.go:477-482 | in every run a pending row has failed fewer than maxAttempts times and is not parked; a decodable message is parked at exactly its maxAttempts-th recorded failure |
| Outbox.StepParks | jobs/relay.go:545-571 | a dead letter is written once, with the topic, the payload and the creation time its message's row has then, and does not change afterwards |
| Outbox.StepAdds | jobs/dead.go:60-71 | a row that is new is the message a transaction committed, or has the topic and payload of the dead letter it renews; nothing has tried it |
| Outbox.DeadLettersRepeat | jobs/relay.go:553-556 | over every run, whichever states the two are read in, a dead letter has the topic, the payload and the creation time of its message |
| Outbox.ContentWasCommitted | jobs/dead.go:52-59 | however often messages are parked and requeued, the topic and payload of every row and every dead letter of a run are those of an enqueue that some transaction committed before |
| Retry.Delay | jobs/relay.go:61-70 | the doubling loop returns min(backoff * 2^(n-1), maxBackoff), and no duration on the way exceeds 64 bits |
| Retry.WaitGrows | jobs/relay.go:59-60 | a later failure never waits less than an earlier one |
| Retry.WaitDoubles | jobs/relay.go:59-70 | the first failure waits min(backoff, maxBackoff), and each later one min(2 * the wait before, maxBackoff) |
| Positions.Page | jobs/relay.go:406-424 | ORDER BY created_at, id with LIMIT and OFFSET: the ordered matching rows from the offset on, each with an earlier time than the next or, at the same time, a smaller id |
| Positions.IndexIsRank | jobs/relay.go:92-95 | the row at index k of an ordered result has exactly k matching rows in front of it |
| Positions.PageSkipsOnlyTheFront | jobs/relay.go:88-95 | a matching row with at least OFFSET rows in front of it is on the page, or the page is full and all of it comes before the row |
| Positions.PageStartsAtOffset | jobs/relay.go:92-95 | the first row of a page has exactly OFFSET matching rows in front of it |
| Sessions.Session.Execute | jobs/relay.go:533-534 | a statement takes effect once, or not at all when it reports failure, or with its answer lost; the other sessions' steps come before it and leave the worker's rows alone |
| Sessions.Session.Deliver | jobs/relay.go:492-520 | a delivery is logged with the tables as they were when the handler was called, and a handler success is what the message is accounted for by |
| Sessions.Session.Select | jobs/relay.go:376-379 | a query of the worker returns exactly the page of its topic's matching rows, each as the table has it |
| Sessions.Session.Frontier | jobs/relay.go:381-398 | the frontier is the greatest position among the table's rows at or before the cutoff, none exactly without such a row |
| Relays.Relay.Attempt | jobs/relay.go:450-482 | not handed over exactly when its next try is not due or a stop has begun; else handed over once, while pending; finished means acknowledged, and then either its handler returned nil and it is not parked, or it is parked: its dead letter has its topic, payload and creation time and one more failure, the last allowed one or an undecodable payload; a counted failure is the handler's own and leaves the row pending with the policy's next try; a stop that began before the handler returned leaves the row as it was exactly when the handler returned the cancellation: it loses neither a success nor a real failure |
| Relays.Relay.Record | jobs/relay.go:468-482 | a success is acknowledged at the clock; a failure below maxAttempts is counted with the policy's next try; the last one, or one that does not decode, is parked: the dead letter repeats the row, and the row counts it, waits for nothing and is acknowledged |
| Relays.Relay.Visit | jobs/relay.go:432-442 | a row read acknowledged is passed over, any other is attempted; everything up to it is done when the sweep goes on |
| Relays.Relay.DeliverPage | jobs/relay.go:341-353 | a page is delivered in order; once it is through, the candidate is the page's last row at or before the cutoff, or what it was when there is none, and the cursor has counted each row |
| Relays.Relay.LookBehind | jobs/relay.go:266-284 | stage 1a ends with every message visible at the start and at or behind the watermark done, or with the page budget used up |
| Relays.Relay.BoundaryGroup | jobs/relay.go:288-319 | stage 1b ends with every message visible at the start at the watermark's timestamp done, or with the budget used up, whatever rows come into the tie group meanwhile; each page but the last one gets through a message not met before, and what was settled is saved |
| Relays.Relay.Forward | jobs/relay.go:325-361 | stage 2 ends drained only when every message of the topic visible at the start is done, while rows appear in the group paged by OFFSET and rows behind the watermark disappear; else it has got through as many messages of the topic as the budget has pages, less one, and what was settled is saved |
| Relays.Relay.Jump | jobs/relay.go:362-371 | a drained topic's candidate may move up to the settled frontier, never past the cutoff |
| Relays.Relay.Persist | jobs/relay.go:584-600 | the candidate is saved when it is past the in-memory watermark, and only then; the in-memory one follows exactly the saves that reported success; unless a statement failed, all that the candidate covers is covered by the stored one then |
| Relays.Relay.SaveMark | jobs/state.go:70-83 | the upsert stores the position, or fails, or stores it and fails |
| Relays.Relay.Sweep | jobs/relay.go:253-374 | the cutoff is the clock once the watermark is loaded less the settle window, and every delivery and save comes after that; head of line: each delivery is of a pending message with every smaller message visible at the sweep's start done; no message is handed over twice, a row that was not handed over is as it was, and a new one pending; saves advance and never pass the cutoff; a sweep that ends nil has everything it delivered done, and one that drained leaves every message visible at its start done and, unless a statement failed, the watermark at or past the settled frontier of the whole table; one that ends nil undrained got through at least maxPages - 1 messages of the topic: delivered and done, or acknowledged before, past the stored watermark and with everything smaller done, or committed since the start; however it ends, unless a statement failed, the stored watermark is at or past every settled row it delivered; it ends early only for a fault of the script, a row that now has one more failure of its handler on record, a pending row at the head whose next try is later than the start, or a stop of the script, its last delivery done or cancelled |
| Relays.RowIsReached | jobs/relay.go:325-361 | a row past the watermark stored at the start is got through once everything visible then up to it is done: delivered, acknowledged before, or committed since |
| Relays.FallsBehindOnlyAfterAFault | jobs/relay.go:591-600 | a save that is not strictly past an earlier one of its sweep is at the same timestamp, and the earlier one did not report success |
| LostSaves.SavesFallBack | jobs/relay.go:591-600 | the tables, pages, cursors and saves of such a sweep, as a run from empty tables: rows 5 and 7 at one timestamp are delivered and the save at 7 is carried out with its answer lost; 4 and 6 commit late, the next page by OFFSET starts with 6, and the next save is at 6 |
| LostSaves.LateRowsCostPages | jobs/relay.go:325-361 | a page may get through nothing new, which is why messages committed since the start are among those counted: 5 and 7 are done, 3 and 4 commit at their timestamp, and the next pages by OFFSET are 5 and 7 again |
| Relays.PendingIsInRange | jobs/relay.go:266-345 | every pending message of a topic matches exactly one of the lookbehind, the boundary and the forward query of the next sweep, by its time and id against the watermark's, or the whole-topic query when there is none |
| Relays.IsRightful | jobs/relay.go:426-431 | the next row of an ordered page that left nothing out may be handed over: all that was smaller at the start is done |
| Relays.LookbehindCovers | jobs/relay.go:263-271 | the lookbehind page holds the smallest pending rows at or behind the watermark |
| Relays.NothingBehind | jobs/relay.go:274-276 | an empty lookbehind page means nothing at or behind the watermark is pending |
| Relays.BoundaryCovers | jobs/relay.go:297-301 | a boundary page holds what is pending of the group after the last id, unless it is full, and the rest comes after it |
| Relays.BoundaryPassed | jobs/relay.go:306-317 | a delivered boundary page leaves the group done up to its last row, all of it when the page was short |
| Relays.ReachableStays | jobs/relay.go:406-424 | rows that commit or disappear meanwhile push no pending row in front of the OFFSET cursor, since only rows behind the stored watermark disappear |
| Relays.OffsetCountsTies | jobs/relay.go:342-348 | the cursor's offset never exceeds the rows of its timestamp up to the last row consumed |
| Relays.ForwardCovers | jobs/relay.go:406-424 | OFFSET skips nothing pending: it is on the page, or the page is full and it comes after |
| Relays.ForwardMoves | jobs/relay.go:341-353 | after a delivered page whatever is still pending is in the range of the moved cursor and behind its offset |
| Relays.ForwardEnds | jobs/relay.go:337-360 | a delivered page that was not full leaves nothing visible at the start pending |
| Maintenance.Caretaker.Floor | jobs/core.go:111-119 | the floor is the oldest watermark timestamp, none without a watermark |
| Maintenance.Caretaker.SelectExpired | jobs/core.go:131-138 | the selected ids are acknowledged rows of the registered topics older than the cutoff, all of those there when the batch is not full |
| Maintenance.Caretaker.CleanupOnce | jobs/core.go:98-151 | nothing is deleted unless every registered topic has a watermark; the cutoff is the older of the clock less the retention and the oldest watermark of any topic, as the first statement found them; every row the statements removed was acknowledged, of a registered topic and older than the cutoff, and they changed nothing else; the count is of exactly those rows; a run without error leaves nothing that had expired at its start; an error is a fault of the script or a stop |
| Maintenance.Caretaker.DeleteBatch | jobs/core.go:142-146 | the DELETE removes the rows of its ids that are still there and counts them, or is refused, or removes them with its answer lost |
| Maintenance.Caretaker.ReadDead | jobs/dead.go:92-99 | the chunked reads change nothing, return dead rows as they are in the table, and miss none that is parked all along |
| Maintenance.Caretaker.TakeDead | jobs/dead.go:85-134 | every statement but the last leaves the tables as it found them, and resolved means that the last one took all of the ids, parked until then, in one transaction; ids reported as not parked were not parked all along, and nothing changed; it aborts only for a fault of the script, or because a row that was read as parked is parked no more, and then nothing changed |
| Maintenance.Caretaker.Requeue | jobs/dead.go:52-72 | ... and the tables gain, for each parked message, exactly one pending row with the topic and payload of its dead letter, nothing tried, created when they are taken, while every other row stays as it was; the new ids and times following the order the parked ones were first enqueued in |
| Maintenance.Caretaker.Discard | jobs/dead.go:74-80 | ... and nothing comes in their place |
| Maintenance.TakeTakes | jobs/dead.go:112-132 | what the transaction leaves, table by table: the dead rows of its ids are gone, the message rows as they were, the new ones as said |
| Maintenance.OrderRenews | jobs/dead.go:60-71 | one insert per row in the sorted order renews every parked message exactly once |
| Maintenance.OrderIsKept | jobs/dead.go:60-71 | ... and keeps their order in id and creation time |
| Maintenance.RunKeepsParked | jobs/dead.go:82-84 | a parked row never changes while it is parked, and one that was taken never comes back, whatever the others do |
| Splitter.TagIsUnique | db/sqlsplit.go:147-164 | a text starts at most one dollar-quote delimiter |
| Splitter.DollarTagAt | db/sqlsplit.go:150-164 | returns the delimiter s starts with, both dollar signs included, and whether there is one |
| Splitter.StepLocal | db/sqlsplit.go:37-132 | what a token reads and the mode it sets do not depend on text that white space or a semicolon separates from it, unless a backslash ends the first text inside a string |
| Splitter.ReadToken | db/sqlsplit.go:39-130 | one turn of the scanner writes the characters, sets the mode and notes the content that the mode function says |
| Splitter.SplitSQLStatements | db/sqlsplit.go:17-135 | the one-pass scanner equals the specification: cut at the semicolons met in normal mode, trim, drop pieces of only comments and white space |
| SplitterLaws.PiecesAreTheCuts | db/sqlsplit.go:5-16 | joining the pieces with semicolons gives the script back, no piece has a semicolon in normal mode, and every piece but the last ends in normal mode |
| SplitterLaws.CutsAreThePieces | db/sqlsplit.go:5-16 | ... and the pieces are the only list for which that holds |
| SplitterLaws.TrimmedPiece | db/sqlsplit.go:28-35 | what trimming leaves of a piece has no cut either and ends in normal mode or inside a line comment; with plain white space it has the piece's content |
| SplitterLaws.SplitResult | db/sqlsplit.go:17-135 | each statement is trimmed, not empty and uncut, and every one but the last ends in normal mode or inside a line comment |
| SplitterLaws.RoundTripWithNewlines | db/sqlsplit.go:17-135 | splitting the join by newline, semicolon, newline gives the statements back if and only if each has content of its own, which scripts whose only white space is the four characters of line 74 guarantee |
| SplitterLaws.RoundTripWithSemicolons | db/migrate.go:111-116 | with the runner's own separator that holds if and only if each has content of its own and none but the last ends inside a line comment |
| SplitterLaws.JoinIsInjective | db/migrate.go:111-116 | two lists of such statements with equal joins are equal |
| SplitterLaws.TrimmedContentIsLost | db/sqlsplit.go:29-31 | a script for which the newline round trip fails: TrimSpace cuts a vertical tab that line 74 counts as content |
| SplitterLaws.JoinConfusesComments | db/migrate.go:114-116 | two scripts with different statements and equal joins: a statement that ends in a line comment hides the separator |
| SplitterGrammar.TextCrosses | db/sqlsplit.go:37-132 | from normal mode a comment, a quoted text (quotes with doubling and backslash, double quotes, backticks, a dollar tag and its repetition) or any other character but a semicolon is crossed whole: no semicolon of it is a cut, normal mode returns behind it exactly when it is closed, and it is content unless it is a comment or white space |
| SplitterGrammar.CutIsBehind | db/sqlsplit.go:38-132 | the first cut from such a closed text on is behind it, and at once where a semicolon follows |
| SplitterGrammar.PieceIff | db/sqlsplit.go:5-16 | a text has no cut exactly when it is a sequence of those, and ends in normal mode exactly when the last one is closed |
| SplitterGrammar.PiecesAreTexts | db/sqlsplit.go:5-16 | the pieces are the only texts that joined by semicolons give the script and are each made of comments, quoted texts and other characters, all closed but in the last: splitting without a scanner |
| SplitterGrammar.ContentIff | db/sqlsplit.go:28-35 | a piece is more than comments and white space exactly when it has a quoted text or another character |
| SplitterGrammar.StatementsAre | db/sqlsplit.go:28-35 | the statements are the pieces with content, in their order and each once, trimmed |
| SplitterGrammar.QuotedIsOneStatement | db/sqlsplit.go:60-67 | a quoted text is one statement, whatever semicolons it holds |
| SplitterGrammar.DollarBodySurvives | db/sqlsplit.go:119-126 | for one, $$a;b$$ |
| SplitterGrammar.TagLetters | db/sqlsplit.go:158-161 | the characters of a dollar tag, written out |
| SplitterGrammar.SpacesAre | db/sqlsplit.go:29-31 | the white space around a statement, written out |
| Migrations.NeighboursDiffer | db/migrate.go:224-241 | no statement of the plan, the files' statements in version order, equals its neighbour, so a repetition is told from the next statement |
| Migrations.FileInPlan | db/migrate.go:285-289 | where the plan has the statements of one file |
| Migrations.DedupRun | db/migrate.go:285-302 | carrying out the plan from the first unrecorded statement on, after a log that got at most one statement further, repeats at most that statement, at once |
| Migrations.RowsMeanRuns | db/migrate.go:270-273 | a ledger row with index k means that the first k statements of its file were carried out |
| Migrations.LedgerMoves | db/migrate.go:290-304 | recording statements of the next file, or the whole file, leaves the ledger a prefix of the files |
| Migrations.LogMoves | db/migrate.go:285-302 | ... and the log in step with it: the executed statements are a prefix of the plan, but for immediate repetitions, at most one statement ahead of the ledger |
| Migrations.NewFilesFit | db/migrate.go:224-231 | files of later versions added between runs change nothing about where the runs stand |
| Migrations.EqualSumsEqualStatements | db/migrate.go:111-116 | with an injective hash, equal fingerprints of prefixes mean equal statements and equal counts, for scripts of plain white space where no statement of the prefix but the last ends in a line comment |
| Migrations.TransactionKeepsOrder | db/migrate.go:247-268 | a process past only applied files does nothing a second time and commits the next file's statements and row together |
| Migrations.OthersKeepOrder | db/migrate.go:249-258 | whatever files other processes commit first, the committed files stay a prefix |
| Runners.CompareStatus | db/migrate.go:158-188 | the statuses, by version: a file without a row is pending, one whose row is not applied partial, one whose applied row has another checksum drifted and one with the same applied; each row without a file is missing, and there is nothing else |
| Runners.Runner.Inspect | db/migrate.go:205-217 | finds the newest version of a file whose row is applied, exactly the versions of the files whose applied row has another checksum, and exactly the row versions no file has, in order |
| Runners.Runner.ApplyByStatement | db/migrate.go:274-305 | refused exactly when the row's index is too great or the fingerprint differs, changing nothing; else it carries out the statements from the recorded one on in order and records all but at most the last it carried out; it stops at the first statement that fails, and fails only then |
| Runners.Runner.RunStatement | db/migrate.go:285-301 | one statement and its record: carried out or not, recorded or not, never recorded without being carried out |
| Runners.Runner.ApplyStatements | db/migrate.go:224-243 | on MySQL done means every file applied with its own checksum; the first file that is new but older than the newest applied, or whose partial row has an index too great or a fingerprint its statements do not have, is refused as such, and no other; from tables in step the runner carries out the plan from the first unrecorded statement and stays in step; it stops at the first statement that fails, and fails only then |
| Runners.Runner.ApplyInTx | db/migrate.go:247-268 | a transaction after any commits of other processes keeps whole files in version order, once each; it reports success exactly when the transaction had no fault |
| Runners.Runner.ApplyTransactions | db/migrate.go:224-243 | the same for the whole loop on the other databases, with a ledger read before the others went on; done means all files committed, and it fails exactly at the first transaction that has a fault |
| Runners.Runner.Apply | db/migrate.go:190-243 | without a fault at the read it refuses exactly when some file's row is applied with another checksum than the file's, naming exactly those, and, when there is none, exactly when some row has no file, naming those, and changes nothing then; else it refuses only the first file that is too old or, on MySQL, partly run and changed since; done means there was none; from tables in step it leaves tables in step, on MySQL the executed statements without repetitions being the plan once it is done, elsewhere the log being the plan exactly; it is done unless a statement it issued failed, and stops at the first that does |
| Runners.Runner.MarkApplied | db/migrate.go:307-327 | unless the statement is refused the file is recorded as applied whether it had a row or not; no other row changes; it reports success exactly when the statement had no fault, and then the row has the file's name, sum and statement count |
| MigrationRace.AtFileKeepsOrder | db/migrate.go:224-268 | a process at its next file, with a stale ledger, does nothing or commits exactly the next file; without a fault it moves on with the file applied, and one that is applied already changes nothing |
| MigrationRace.NextKeepsOrder | db/migrate.go:201-237 | every step of any process keeps the order, and none is refused for drift, for age or for a taken key |
| MigrationRace.EachFileOnceInOrder | db/migrate.go:201-268 | any number of processes, interleaved at transaction boundaries and crashing anywhere, commit each file's statements exactly once and in version order; once one has finished, all of them |
| MigrationRace.VisitsFinish | db/migrate.go:224-243 | no process waits for another or gives up for what another did: each visit without a fault takes it one file further, and one visit more than there are files finishes it, whatever the others do in between |
| Frames.WantedWithin | realtime/replay.go:49-54 | one topic's events among those replayed for several topics are all of its events |
| Frames.WantedAt | realtime/replay.go:49-54 | the wanted events stand at strictly increasing positions, which are exactly those of the topics' events |
| Frames.PicksAreWanted | realtime/replay.go:49-54 | ... and they are the only events that do |
| Frames.NamesAre | realtime/event.go:74-86 | the names of topics, types and IDs: 1 to 128 of the letters, digits and _.:- written out |
| Replays.Replay.Add | realtime/replay.go:19-36 | the ring holds the last events up to its size and the index the latest kept position of every ID, repeated IDs included |
| Replays.Replay.Evict | realtime/replay.go:23-32 | evicting the oldest event keeps the index entry of an ID a later event repeats |
| Replays.Replay.Since | realtime/replay.go:40-56 | the event is found exactly when one of the last events has the ID; the result has, at strictly increasing positions after its latest one, the event of every position whose topic is asked for, and no other |
| Conns.Conn.Push | realtime/conn.go:88-106 | refused exactly when a live event finds limit live ones waiting or any event finds cap events waiting; nothing for an ended connection; else queued last, with the wake token set |
| Conns.Conn.Pop | realtime/conn.go:109-122 | takes the oldest event, unless ended or empty |
| Conns.Conn.End | realtime/conn.go:126-141 | the first call wins, sets the code and empties the queue; a later one changes nothing |
| Conns.OnlyPopsShorten | realtime/conn.go:268-305 | events pushed one after the other while the transport pops between them wait, when none is refused and the connection has not ended, behind what waited before, less what the transport took from the front: no more than its turns pop |
| Conns.OnlyTurnsEnd | realtime/conn.go:268-305 | the connection ends meanwhile exactly when a turn of its transport ends it, normally |
| Conns.AllFit | realtime/conn.go:88-106 | events that fit behind what waits are not refused |
| Conns.Writer.WriteQueued | realtime/ws.go:223-236 | the inner loop writes events first in, first out until nothing waits, the connection has ended or a write failed, and leaves no event waiting without a token, whatever pushes and ends come between |
| Conns.Writer.WsWrite | realtime/ws.go:210-238 | no lost wakeup: when the writer blocks for good, the connection has not ended, its queue is empty and everything ever queued was written in order; it returns only for a connection that had ended before, that a turn of the others ended, or whose last write failed |
| Hubs.Hub.Register | realtime/conn.go:151-164 | refused once the hub is closed, else counted for its user |
| Hubs.Hub.Unregister | realtime/conn.go:167-181 | the connection, its subscriptions and its count are gone |
| Hubs.LinkedWithout | realtime/conn.go:330-341 | removing one subscription keeps the two-way relation and leaves no empty topic set |
| Hubs.LinkedWith | realtime/conn.go:283-291 | adding one keeps it too |
| Hubs.CountedWith | realtime/conn.go:157-160 | users[u] stays the number of u's connections when one registers |
| Hubs.CountedWithout | realtime/conn.go:174-178 | ... and when one leaves, no user keeping a count of none |
| Hubs.Hub.DetachOne | realtime/conn.go:330-341 | unsubscribes a connection from one topic, keeping the relation |
| Hubs.Hub.Detach | realtime/conn.go:317-342 | unsubscribes it from exactly the topics named |
| Hubs.Hub.Drop | realtime/conn.go:361-366 | a slow consumer ends with 4408, unless it has ended, without subscriptions |
| Hubs.Hub.Fresh | realtime/conn.go:183-195 | the topics the connection does not have, once each, and how many more it may take |
| Hubs.Hub.Check | realtime/conn.go:203-247 | user:<id> is allowed exactly to the user with that id, when it is not empty, any other topic exactly when the application grants it; every topic is either allowed or refused |
| Hubs.Hub.QueueAll | realtime/conn.go:268-305 | pushes go on after a refused one; what waits afterwards, the code and the wake token are those of pushing one after the other, and one is refused exactly when a push finds the queue full; without a refusal and while not ended everything is queued in order |
| Hubs.AttachServes | realtime/conn.go:267-308 | queueing the hub's own events and the topics' history since an event serves the new subscriptions all of it and the old ones nothing |
| Hubs.Hub.Resume | realtime/conn.go:292-307 | the later events of the topics since the event named, from its latest position, each by its position and none missing, or a reset per topic when it is not kept, pushed one after the other |
| Hubs.Hub.AttachLocked | realtime/conn.go:267-308 | a refused event per refusal, the subscriptions, then what was missed, pushed one after the other; it overflows exactly when one of the pushes does |
| Hubs.Hub.Attach | realtime/conn.go:255-265 | an attach that did not overflow leaves waiting exactly what pushing the hub's own events, and then the event of every later position with one of the topics, leaves, and its subscriptions begin behind the event named, unless a turn of its own transport ended the connection; it overflows exactly when a push does, and then the connection has ended, with 4408 unless the transport came first |
| Hubs.OwedOneMore | realtime/conn.go:349-352 | an event queued on a subscriber keeps all its subscriptions served without gap or repeat |
| Hubs.OwedNoMore | realtime/conn.go:347-349 | an event of a topic a connection does not have takes nothing away from it |
| Hubs.ServedAt | realtime/conn.go:347-359 | what being served means, event by event: the positions of the topic's events queued since the subscription began and of those in the history since its start are equally many, and the k-th of each has the same event |
| Hubs.ServedWhenAt | realtime/conn.go:347-359 | ... and whatever has such positions is served |
| Hubs.Hub.DeliverOne | realtime/conn.go:350-356 | one subscriber has ended, exactly when it had before or its transport ends it first; is full, exactly when what its transport left waiting has no room, and gets nothing; or takes the event last, behind all that its transport left |
| Hubs.Hub.Deliver | realtime/conn.go:347-359 | a subscriber that had not ended takes the event last, behind all that its transport left waiting, or ends without it: exactly when its own transport ended it first, or as a slow consumer (4408) when what then still waits leaves no room for the event; whoever is not subscribed is left as it was, its queue included |
| Hubs.Hub.Publish | realtime/hub.go:165-192 | refused for a bad topic or a bad or reserved type, changing nothing; else the event gets the next ID, which no event so far has, becomes history and is delivered as Deliver says: each subscription of a connection that has not ended is served the topic's events from its start in hub order, none missing and none twice |
| Hubs.NextIdIsNew | realtime/hub.go:181-182 | the ID with the next number differs from every ID in the history, since numbers are written differently and the hub's own events carry lower ones |
| Hubs.ForeignIds | realtime/backplane.go:161-179 | no event accepted from another hub has an ID this hub may issue |
| Hubs.ForeignIff | realtime/backplane.go:161-179 | the events accepted are those whose ID has another hub's origin in front of its first dash and something behind it, with valid names and no reserved type |
| Hubs.Hub.Receive | realtime/backplane.go:161-179 | exactly the well-formed events of other hubs become history and are delivered the same way |
| Hubs.Hub.Disconnect | realtime/conn.go:381-393 | ends every connection of the user without subscriptions, by policy (1008) unless it had ended, and touches no other, nor what waits there |
| Hubs.Hub.Close | realtime/hub.go:261-270 | ends every connection, going away (1001) unless it had ended, and lets none register afterwards |
| Hubs.Hub.WsSubscribe | realtime/ws.go:187-198 | refused exactly for a bad topic or too many, changing nothing; topics can only shrink while the application is asked, whatever is published, received, closed, registered, attached and detached meanwhile; the granted topics are attached in one step with exactly what was missed; it overflows exactly when pushing that is refused, never when the queue it began with had only live events, or at most maxSubscriptions others |
| Decimals.ValueOfText | store/cursor.go:184-187 | decimal text is read back as the number it was written for |
| Cursors.IntRoundTrip | store/cursor.go:184-213 | the text of an integer parses back exactly when it fits the field's width |
| Cursors.ValueRoundTrip | store/cursor.go:153-222 | a boundary value that can be written is read back as itself exactly when the field can hold it |
| Cursors.CursorRoundTrip | store/cursor.go:227-295 | an issued cursor is read back as the value and RID it was issued for, under exactly the field, direction and kind it was issued for |
| Cursors.CursorIsIssued | store/cursor.go:269-295 | a cursor is issued exactly for a row with a RID and a value that is not null, of the field's kind and width, short enough |
| Cursors.CursorIsAccepted | store/cursor.go:227-260 | which tokens are accepted, whoever made them, and the boundary read from one: its value is of the field's kind and fits it, its RID is not empty |
| Cursors.WidthsAre | store/cursor.go:194-213 | the ranges of the integer widths, 64 bits being the default |
| Cursors.Utf8Bytes | store/cursor.go:175-177 | the length of a string boundary in bytes, by how many of its characters take more than one, two and three |
| Keysets.Keyset | store/read.go:425-495 | refused exactly for page, limit or offset, several orders, a field that cannot order, or a cursor that does not decode; fails exactly when rows follow the page and no cursor can be issued after its last row; else the first rows strictly past the cursor's value and RID, up to the size rule, each before the next by value and then RID, rising or, in a descending order, falling, by RID alone for the ID; rows past the cursor that are left out come after all of them, and there are some exactly when a cursor naming the last row is issued |
| Keysets.PageIsInTurn | store/read.go:455-486 | any page's answer is ordered so by the values and RIDs of its rows |
| Keysets.PageIsUnique | store/read.go:477-486 | the rows of a page, and whether others follow, are determined by the table, the order, the boundary and the size |
| Keysets.FetchRows | store/read.go:477-486 | a query for one row too many shows the page and whether rows follow |
| Keysets.CursorNames | store/read.go:487-491 | the cursor issued after a row names that row's place under the same order |
| Keysets.WalkAscends | store/read.go:408-413 | following cursors over a changing table returns rows that strictly rise by value and then RID, or fall when the order is descending, by RID alone for the ID, within and across pages |
| Keysets.WalkNeverRepeats | store/read.go:412-413 | no row is returned twice, when rows keep their order value |
| Keysets.WalkMissesNothing | store/read.go:412-413 | a row there for the whole of a finished walk is on one of its pages |
| FlowStores.MemoryStore.Put | identity/oauth_session.go:193-209 | the entry comes first: a known key moves there with its new value, a new one takes the last one's place when the store is full |
| FlowStores.MemoryStore.Take | identity/oauth_session.go:211-224 | the entry goes, and is returned unless it has expired |
| FlowStores.MemoryStore.RemoveAt | identity/oauth_session.go:226-229 | map and list lose the same element |
| FlowStores.MemoryStore.Sweep | identity/oauth_session.go:245-256 | exactly the entries whose expiry is before now go, the others keep their order |
| FlowStores.UnexpiredAt | identity/oauth_session.go:245-256 | what stays stands at strictly increasing positions of what was there, exactly those of the entries not yet expired |
| FlowStores.AgreeWithout | identity/oauth_session.go:226-229 | map and list stay in agreement when an element leaves both |
| FlowStores.AgreeFront | identity/oauth_session.go:208 | ... and when one enters both |
| FlowStores.WithoutAt | identity/oauth_session.go:226-229 | removing an element by its position is removing its key |
| FlowStores.LostOnlyToAFullRound | identity/oauth_session.go:148-151 | an unexpired entry nobody takes is found until `capacity` distinct other keys were put after it |
| FlowStores.TakenOnce | identity/oauth_session.go:164-165 | a value that was taken cannot be taken again: only another put of the key brings one |
| Breakers.Breaker.Allow | cache/breaker.go:98-123 | whether a call may go, whether it is the probe, and the state afterwards |
| Breakers.Breaker.Record | cache/breaker.go:128-157 | what an outcome does to the state |
| Breakers.AlwaysConsistent | cache/breaker.go:98-161 | in every run the failure count is the failures in a row since the last success, the streak the probe successes of this half-open spell, and only a half-open breaker probes |
| Breakers.OpensAndCloses | cache/breaker.go:137-156 | from closed it opens exactly at the threshold-th counted failure in a row; it closes exactly at the last of `successes` probe successes of one spell, with no failure among them |
| Breakers.SilentWhileOpen | cache/breaker.go:105-127 | a call that asks less than reset after the opening changes nothing; only probes get through a breaker that is not closed, and no other call's outcome moves it |
| Breakers.CallsGetThrough | cache/breaker.go:98-123 | which calls get through: every one while closed, whatever failures are counted; the first at least reset after the opening, as a probe; another probe whenever none is in flight in a half-open spell; a probe in flight longer than reset ends the spell |
| Breakers.AwaitedIsInFlight | cache/breaker.go:112-120 | the probe a breaker waits for is in flight, so no spell waits for nothing |
| Breakers.OpenForReset | cache/breaker.go:105-127 | from the step that opens at T, every state before T + reset is open, whatever ends meanwhile, late probes included, and no call begins; the first to ask from T + reset on begins as a probe |
| Breakers.OneProbeAtATime | cache/breaker.go:112-122 | when each probe returns within reset, at most one is in flight |
| Breakers.LateProbe | cache/breaker.go:112-120 | a run in which a probe outlives reset: two probes are in flight and the late one closes the breaker |
| Limiters.LoginLimiter.Check | identity/ratelimit.go:103-132 | true exactly when no counted key's whole, never pruned log holds its limit within the window, else the name of the first key that does |
| Limiters.LoginLimiter.Record | identity/ratelimit.go:145-170 | one attempt is added to the whole log of every counted key; a bucket evicted meanwhile counts from then on; no more buckets are evicted than the table lacks room for, what is evicted had been seen no later than anything that stays, and MAX_ENTRIES other buckets no earlier |
| Limiters.LoginLimiter.RecordOne | identity/ratelimit.go:204-222 | pruning changes no later count; a full table loses one other bucket first |
| Limiters.LoginLimiter.EvictOldest | identity/ratelimit.go:247-261 | the bucket that goes was seen no later than any other |
| Limiters.LoginLimiter.Cleanup | identity/ratelimit.go:227-241 | exactly the buckets without a recent attempt go, and no count changes |
| Limiters.LoginLimiter.Throttle | identity/ratelimit.go:272-282 | a call by itself is let through exactly when no key is exhausted, and then counts against each key, buckets being evicted as in Record; a refusal leaves no trace |
| Limiters.PruningIsUnseen | identity/ratelimit.go:213-219 | pruned attempts are never counted again |
| Limiters.PrunedAreRecent | identity/ratelimit.go:213-219 | what pruning leaves is exactly the attempts after the cutoff |
| Limiters.RecentCounts | identity/ratelimit.go:114-120 | a count is of the attempts strictly after the cutoff |
| Limiters.BucketsDiffer | identity/ratelimit.go:81-83 | dimensions and values share a bucket only when they are equal, names having no zero character |
| Limiters.TimesAreNamings | identity/ratelimit.go:85-89 | what counts against a key's bucket is each key of the call with its dimension and value, a client address only when addresses have a limit |
| Limiters.ThrottleIsBounded | identity/ratelimit.go:272-282 | with at most k callers at once, no interval (t - window, t] of any run of one bucket admits more than limit + k - 1 calls; one caller at a time keeps the limit |
| Limiters.CheckIsStep | identity/ratelimit.go:103-132 | a call that names a key and passes the limiter's check takes the Check step of the key's bucket |
| Limiters.RecordIsStep | identity/ratelimit.go:145-170 | ... and the limiter's record its Record step, for a bucket that is not evicted |
| Limiters.Serve | identity/ratelimit.go:272-282 | the bound over the limiter itself: for any callers, at most k of them between check and record, and cleanups in between, every bucket's log is that of a limiter that keeps every attempt but those of evicted buckets; no window of a key's bucket that is not evicted holds more than its limit + k - 1 calls; a bucket is evicted only when calls that may count against it are followed by calls that may count against MAX_ENTRIES others, and none while the calls name no more buckets than that |
| Limiters.FewBucketsStay | identity/ratelimit.go:243-261 | a bucket overtaken by MAX_ENTRIES others is one of more than MAX_ENTRIES buckets the calls name |
| Limiters.CallersPassTogether | identity/ratelimit.go:276-280 | the bound is met for every limit, window and k: the limit less one calls pass one by one, then k callers that all check before any records, limit + k - 1 calls in one window |

## Left out

- gorm, the SQL drivers, Redis and the transports: only the effect of each statement or transaction on the tables.
- The jobs scheduler, periodic jobs, statistics, observers and log lines: they follow the state.
- `last_error`, payload encoding and `checkTopic` of an enqueue: a committed row is a step with any topic, payload and timestamp.
- Handler timeouts and panics: both are failures of the handler, which is an arbitrary script of outcomes.
- The order of equal timestamps in the cleanup's batch (jobs/core.go:134): the database may pick any; the model picks by id.
- The DELETE statements of takeDead run chunk by chunk inside one transaction; the model takes all ids in one step, since nobody sees the chunks apart.
- Outbox.TraceEvolves: the watermark's id within one timestamp may go back after a lost save, so only its timestamp is stated to advance.
- Relays.Relay.Sweep: what a sweep that uses up its page budget leaves for the next one is stated by `PendingIsInRange` and `NothingIsLost`, not by how far it came.
- Reading migration files, their names and the `mysql`/`postgres` subdirectories (db/migrate.go:65-104): a file is its version, name, statements and sum. A version is the number its 14 digits write.
- The migration locks (db/migrate.go:330 on): on MySQL one runner has the database to itself; on the others every transaction does, and other processes commit between two of them.
- Runners.Runner.MarkApplied: what a file marked applied out of order does to later runs is not stated; the results about runs start from tables that only runs and new files have touched.
- Migrations.EqualSumsEqualStatements: stated for scripts of plain white space; `JoinIsInjective` has the condition on the statements themselves.
- Scripts are sequences of code points where the scanner reads bytes: every character it compares is ASCII.
- `Authorize` is any set of granted topics; tickets, HTTP, WebSocket and SSE framing, heartbeats and the wait of Close for handlers are not part of this model.
- Hubs.Hub.Publish: events are numbered without the 64-bit bound, and the broadcast to Redis after the lock is released is not modelled; `Receive` is the other side.
- The order in which Go's maps are iterated is arbitrary in the model too.
- Cursors.ValueRoundTrip: times and floating-point boundary values are not modelled; their texts are the Go library's.
- Cursors.CursorRoundTrip: the same.
- Cursors.CursorIsIssued: the same.
- `Count`, `Preload`, scopes and filters of a list: a table is what they leave to see, by RID.
- The layering of memory and Redis in the cache, and the values calls return: the breaker's decisions only.
- container/list of the sign-in store is a sequence of element references; moving an element looks for it.
- Cryptography, cookies, random IDs, telemetry, mail, the command line and the examples.
