# A verified model of Freshet's crash safety and bookkeeping

Freshet polls public status feeds, deduplicates their updates in a stream job,
indexes them for retrieval, and runs an autopilot that posts incident briefs and
follow-ups to Slack.  This project models the parts of it where the difficulty is
in what may happen in between: processes that die between two SQL statements,
messages that are delivered again, leases that run out, clocks, caps that several
workers share, and feeds that are fetched conditionally.

Each protocol is a state machine: a `World`, a `Step` for every atomic action (one
SQL statement, one call of a sink, one commit, a tick, a crash), a total `Next` in
which a step that is not enabled changes nothing, and `Exec` over a sequence of
steps.  Every sequence of steps is a run, so a lemma about `Exec` holds for every
interleaving and every crash.  Code that the repository writes as loops over mutable
state is written as classes and methods; their bodies are sequences of machine steps
with arbitrary steps of everyone else in between (`Others`), and their contracts say
what they did to the state and that the state is still one that a run reaches.

| part | files |
|---|---|
| delivery of briefs and follow-ups | `Incidents`, `Delivery`, `DeliverySafety`, `DeliveryPosts`, `DeliveryIntent`, `DeliveryRecords`, `DeliveryOrigins`, `DeliveryThreads`, `DrainBacklog`, `DeliveryHandling`, `Autopilot` |
| indexing | `Chunking`, `ChunkingTheorems`, `Embedder`, `EffectivelyOnce`, `IndexReceipts`, `IndexContents`, `IndexWorker`, `KafkaLoop`, `Producer`, `Keys` |
| the stream job | `KeepFirst`, `Dedup` |
| ingest | `Poller`, `PollLoop`, `Backoff`, `Identity`, `Timestamps`, `TimestampZones` |
| bounds, loops and retrieval | `Budget`, `Supervisor`, `Threads`, `ThreadAgent`, `Heartbeat`, `Freshness`, `Retrieval`, `Sorting`, `Citations`, `CitationTheorems`, `CitationForms` |

Where a result rests on a table, a pattern or a row of columns, a second module gives
that meaning on its own and the two are proved equal: `DeliveryHandling` and
`DeliveryOrigins` for the incident rows, `IndexContents` for the columns of the index,
`TimestampZones` for zones and calendar, `CitationForms` for what reads as a citation,
and the status words in `Dedup`.

`dafny verify dfyconfig.toml` checks everything.  `Basics` holds the shared Option
type and the time units; times are integers of microseconds.

## What holds, and what does not

The code and its comments do not always say the same.  Where they differ the model
follows the code, and the difference is stated as a lemma:

* Two workers can post one brief when an attempt outlives its lease, because a
  release clears whatever lease is there and a mark asks for none
  (`DeliveryPosts.OverlongAttemptDuplicates`).  A slot that is being attempted can be
  claimed again exactly when the attempt is older than `LEASE_MINUTES`
  (`DeliverySafety.ReclaimedExactly`), and a run is free of double attempts exactly when
  no step of it overtakes one that way (`DeliverySafety.ExclusionExactly`).  The lease
  lemmas are about all such runs; runs in which every attempt ends within its lease are
  among them.  Conservation of posts, the persistence of owed work and "a brief before
  any follow-up" need no such condition.
* A resolution whose defer statement finds no row is committed without leaving a trace
  (`DeliveryIntent.ResolvedBeforeRow`).  In every run a slot's work is owed or delivered
  exactly when a statement that records it found the incident's row or the slot was
  marked (`DeliveryRecords.OwedExactlyWhenRecorded`), and a message is given up only if
  its own statement found none (`DeliveryRecords.CommittedIntent`), which for openings
  and updates needs an empty incident id.
* The daily budget is a sum over clock hours read in a statement of its own.  The bound
  on any real day is the two caps together plus one call for every worker but the first,
  and it is reached for every daily cap and any number of workers
  (`Budget.BoundIsReached`).
* A year-less stamp is read a year early when its local year is ahead of the anchor's
  UTC year, which happens on 1 January east of UTC, and also in UTC itself for a revision
  in the last minute of the year; a 29 February of last year is refused.
  `Timestamps.RoundTrip` gives the exact set of instants that survive.  The 400-day limit
  of `_parse_when` never takes effect.
* An update keeps its identity when newer ones are prepended exactly when none of those
  shows its minute; otherwise a newer update takes its identity over
  (`Identity.KeepsIdentity`, `Identity.NewerTakesOver`).
* An edit that is undone is not emitted again, so the index stays with the edit
  (`Dedup.UndoneEditIsNotReEmitted`).  The latest emitted row follows an arriving body
  exactly when that body is new or is already the latest (`Dedup.LatestFollowsExactly`).
* A page that once sent an entity tag and now answers with a date alone is still asked
  about the old tag, so what it answers is not recognised again
  (`Poller.RememberedExactly`).
* The same digits in daylight time are an hour earlier than in standard time, unless that
  hour decides whether this year's reading is too late; then they are most of a year later
  (`TimestampZones.DaylightIsAnHourEarlier`).
* Agreement of both retrieval arms wins exactly as long as no arm is deeper than the
  fusion constant (`Retrieval.DeeperListsLoseAgreement`).
* Citations are only ever to the evidence when brackets do not nest.  For every answer, a
  citation without evidence is left exactly where the removal of others closes one up
  (`CitationTheorems.GroundedExactly`); a bracket inside a bracket leaves one exactly when
  the inner one is a citation without evidence and the text around it, closed up, is
  another (`CitationTheorems.NestedExactly`).

## Assumptions

* Postgres statements are atomic and autocommitted, and its clock does not go back.
  `ResilientConnection.execute` is one step that succeeds or raises.
* Kafka keeps order within a partition and redelivers from the committed offset.  In the
  indexing machine each partition has one consumer at a time.
* What a process achieves can depend on what it cannot see.  Such facts are constants or
  arguments of the classes, never results: an autopilot process may be `alone`, its
  database `steady` and its posts `welcome`; a poll of a thread may be `calm`.
* The embedding model is deterministic.  Digests are injective, so an update id stands for
  the identity it was made from.
* A status server answers 304 as sections 13.1.2 and 13.1.3 of RFC 9110 say, and its
  validators are honest: what repeats an entity tag or a modification date says the same.
* Arithmetic on scores, similarities and waits is over the reals.

## Model

| member | source | states |
|---|---|---|
| Incidents.FirstWriterWins | freshet/common/incidents.py:11-30 | however many times and in whatever order the embedder and the autopilot ensure an incident, the row opens at the first call's time and service and has the first title that is not empty |
| Incidents.EnsureKeepsTheRest | freshet/common/incidents.py:11-30 | on an existing row no number of calls changes a delivery column, an owed flag, a lease, a title that is set or a service that is set |
| DeliverySafety.StepShape | freshet/autopilot/consumer.py:26-98 | every step of any worker is one of four kinds as far as leases go: quiet, a claim, a settlement of the worker's own attempt, or time |
| DeliverySafety.ReclaimedExactly | freshet/autopilot/consumer.py:26-45 | while an attempt owns its row's lease, the slot can be claimed again if and only if the attempt is older than the lease |
| DeliverySafety.ClaimKeepsLeases | freshet/autopilot/consumer.py:26-45 | a claim on a slot nobody is attempting keeps every other attempt's lease and exclusion |
| DeliverySafety.LeaseStep | freshet/autopilot/consumer.py:26-98 | every step that does not overtake keeps: an attempt in progress owns its row's lease, the slot is undelivered, and no two workers attempt one slot |
| DeliverySafety.ExclusionExactly | freshet/autopilot/consumer.py:24-31 | all states of a run are free of double attempts if and only if no step of it claims a slot that another worker is still attempting |
| DeliverySafety.TimelyIsNotOvertaken | freshet/autopilot/consumer.py:24 | a run in which every attempt ends within `LEASE_MINUTES` of its claim contains no such step |
| DeliveryPosts.LeaseSafety | freshet/autopilot/consumer.py:26-58 | in every state of every run without overtaking at most one worker holds each incident and slot, and the row's lease is that worker's claim |
| DeliveryPosts.PostBound | freshet/autopilot/consumer.py:188-257 | in every run without overtaking the posts for a slot are exactly: one if it is stamped, plus those lost between post and mark, plus the one in flight; so never more than one plus the lost |
| DeliveryPosts.PostConservation | freshet/autopilot/consumer.py:262-349 | in every run at all each accepted post is either marked, in flight or lost, counted per slot |
| DeliveryPosts.DeliveryIsFinal | freshet/autopilot/consumer.py:140-149 | once a slot is stamped no step of a run without overtaking posts it again or removes the stamp |
| DeliveryPosts.OverlongAttemptDuplicates | freshet/autopilot/consumer.py:24-31 | a concrete run in which an attempt outlives its lease ends with two posts, two marks and no lost post for one brief |
| DeliveryIntent.OwedForever | freshet/autopilot/consumer.py:46-75 | once a row's brief is due or a follow-up needed, it is due, needed or delivered in every later state of every run, through crashes, releases, failures and redelivery |
| DeliveryRecords.RecordingStatement | freshet/autopilot/consumer.py:59-75 | the statement that records a message's own work leaves it owed or delivered exactly when the incident's row exists, and changes nothing otherwise |
| DeliveryRecords.CommittedIntent | freshet/autopilot/consumer.py:188-257 | in every reachable state each committed lifecycle offset has its intent on the row, or was too old, stale or without an action when it was handled, or its recording statement ran at some point of the run and found no row |
| DeliveryRecords.OwedExactlyWhenRecorded | freshet/autopilot/consumer.py:59-75 | in every state of every run a slot's work is owed or delivered if and only if some statement that records it found the row, or the slot was marked |
| DeliveryRecords.ResolutionExactly | freshet/autopilot/consumer.py:235-245 | for an incident resolved once, and that message handled and not stale: its postmortem is owed or delivered if and only if the message's own defer statement found the row, or it was posted and marked all the same; a message given up missed the row |
| DeliveryIntent.ResolvedBeforeRow | freshet/autopilot/consumer.py:235-245 | a concrete run commits a resolution whose statements reached no row, and the row created later owes no postmortem |
| DeliveryIntent.UnnamedStep | freshet/common/incidents.py:25-28 | no step ever creates a row for an empty incident id |
| DeliveryOrigins.OpenedAsStamped | freshet/autopilot/consumer.py:203-215 | in every reachable state a row has the opening time and the service of the one step that created it: a call of the embedder, or an opening or in-progress message of the topic for this incident, with that message's own stamp where it parses |
| DeliveryOrigins.LaterIsNeverStale | freshet/autopilot/consumer.py:208-240 | when a message stamped a created the row, no resolution or update of the incident stamped at a or later ends as stale, in any run |
| DeliveryOrigins.FactsAsStated | freshet/autopilot/consumer.py:46-75 | in every reachable state a row's title is one that a message or the embedder gave, its due time lies the window after a statement that scheduled it, and its resolution time is the stamp of a resolution of the incident |
| DeliveryThreads.FollowUpsUnderBrief | freshet/autopilot/consumer.py:32-45 | in every run each progress or postmortem post comes after an accepted brief of its incident, and under a thread id that such a brief returned |
| DeliveryThreads.FollowUpsCarryRowThread | freshet/autopilot/consumer.py:46-56 | in every run without overtaking each follow-up post carries exactly the thread id its row holds, which an accepted brief returned |
| Autopilot.Process.HandleLifecycle | freshet/autopilot/consumer.py:188-259 | a normal return leaves the offset done with a verdict that is true of the tables, and one given up missed its row; any exception, an exhausted budget included, ends the process at its committed offset. For a process that is alone, every column of the message's row afterwards, from the row before, the message and the time the handling took: refused with nothing changed, recorded, recorded and delivered by one post, or, if only the delivery failed, recorded with the lease given back and the work still owed |
| DeliveryHandling.StatementMade | freshet/autopilot/consumer.py:195-245 | each statement of each branch leaves exactly the columns it should have written by then, or ends with the refusal that the message and the row justify |
| DeliveryHandling.FreshOpening | freshet/autopilot/consumer.py:197-205 | an opening less than a day old of an unknown incident leaves a row that opens at the message's own stamp, with its title and service, a brief due the window later and nothing else |
| DeliveryHandling.ResolutionNotedOnRow | freshet/autopilot/consumer.py:235-245 | a resolution stamped no earlier than the opening is noted at its own stamp unless one was, and its postmortem is needed or delivered, also when the delivery failed |
| Autopilot.Process.DeliverDirect | freshet/autopilot/consumer.py:221-233 | a process that is alone marks the slot with exactly one post under the row's thread id when it returns normally, and otherwise, if the database works, gives the lease back with nothing posted and restarts at its committed offset; it succeeds when nothing can fail |
| Autopilot.Process.ClaimAndDeliver | freshet/autopilot/consumer.py:273-295 | one slot of the drain, for a process that is alone: a claim that is not allowed changes nothing, an allowed one ends marked with exactly one post under the row's thread id, or with the lease given back, nothing posted and the work as needed as before; an exhausted budget leaves the process alive, any other exception ends it at its committed offset |
| DrainBacklog.AttemptedExactly | freshet/autopilot/consumer.py:313-349 | without live leases such an attempt delivers exactly an undelivered brief, or a follow-up that is owed on a briefed row, unless it failed |
| Autopilot.Process.CatchUp | freshet/autopilot/consumer.py:303-306 | alone and without live leases, the progress update first and then the postmortem: no other row is touched, no brief changes, nothing becomes pending that was not, and if neither failed nothing of the incident is left pending |
| Autopilot.Process.DrainPendingFollowUps | freshet/autopilot/consumer.py:300-310 | the pass takes the incidents briefed earliest among those its query finds, up to the limit; alone and without live leases it touches no other row, and when nothing can fail exactly these leave the pending set |
| Autopilot.Process.DrainDueBriefs | freshet/autopilot/consumer.py:262-297 | alone and without foreign live leases, no brief is delivered before it is due, and twice the owed briefs plus the incidents with pending follow-ups never grows, whatever fails; when nothing can fail that strictly decreases on every pass that finds anything due, and a pass with fewer briefs than its limit has delivered every brief that was due |
| Autopilot.Process.DrainUntilQuiet | freshet/autopilot/consumer.py:262-310 | repeated passes then end, after no more of them than that backlog, with every undelivered brief due later and no briefed incident waiting for a follow-up |
| DrainBacklog.PassShrinks | freshet/autopilot/consumer.py:272-297 | briefs first and follow-ups second shrinks that backlog although each delivered brief may turn an owed follow-up into pending work |
| Autopilot.Process.HandleAndDrain | freshet/autopilot/consumer.py:352-364 | when handling and draining both return, the message's offset is done and its verdict still stands and is true of the tables; an exception in either ends the process at its committed offset |
| DrainBacklog.Select | freshet/autopilot/consumer.py:62-66 | ordering by due time with a limit takes distinct candidates, as many as the limit allows, none later than one left out |
| Chunking.PackWords | freshet/pipeline/chunking.py:39-52 | the loop computes greedy packing of the sentence's words |
| Chunking.ChunkTextLoop | freshet/pipeline/chunking.py:55-81 | the loop computes the chunks of the sentences, oversized ones packed word by word on their own |
| ChunkingTheorems.SplitFlatJoin | freshet/pipeline/chunking.py:28-36 | sentences are tidy, none empty, and joined by spaces give the text they were cut from |
| ChunkingTheorems.SentencesCutExactly | freshet/pipeline/chunking.py:28 | sentences are cut at exactly the spaces between a full stop, exclamation or question mark and a capital, digit, quotation mark or opening bracket |
| ChunkingTheorems.ChunksReadBack | freshet/pipeline/chunking.py:55-81 | joining all chunks with spaces gives the whitespace-normalised text, for every text and bound |
| ChunkingTheorems.ChunksKeepSentences | freshet/pipeline/chunking.py:55-81 | each chunk is the join of consecutive whole sentences, or of words of one sentence that does not fit; no fitting sentence is split |
| ChunkingTheorems.ChunkBound | freshet/pipeline/chunking.py:66-81 | every chunk is within the bound or is a single word |
| ChunkingTheorems.BlankHasNoChunks | freshet/pipeline/chunking.py:33-35 | a text has no chunks exactly when it has no word |
| ChunkingTheorems.PackIsOptimal | freshet/pipeline/chunking.py:39-52 | no order-preserving packing of the words within the bound has fewer groups than the greedy loop has chunks |
| ChunkingTheorems.ChunkTextIsOptimal | freshet/pipeline/chunking.py:55-81 | when every sentence fits, no packing of whole sentences within the bound has fewer chunks |
| Keys.KeyInjective | freshet/pipeline/embedder.py:66 | a key made of a prefix, a separator and a decimal number determines both, whatever the prefix contains |
| Embedder.ChunkIdInjective | freshet/pipeline/embedder.py:66 | a chunk id, the table's primary key, names one chunk index of one event |
| IndexContents.PlanExactly | freshet/pipeline/embedder.py:207-245 | exactly when a message becomes a dead letter, is passed over, ends the process or is written; and what is written: one row per chunk in order, the k-th with the k-th chunk's text, the k-th vector the model returned for the chunks, and the event's own columns |
| IndexContents.TitleIsTheName | freshet/pipeline/embedder.py:51-57 | the title derived from "name: rest" is the name, unless it has more than 120 characters or nothing follows it |
| EffectivelyOnce.Absorb | freshet/pipeline/embedder.py:103-116 | replaying part of a row's history over a row that has already seen it leads to the same row, with upserts that keep the first `ts`, `service`, `incident_id` and `source` |
| EffectivelyOnce.TableRun | freshet/pipeline/embedder.py:239-252 | in every run, crashes between any two statements and redelivery included, replaying from the committed offset still leads every row where an undisturbed run leads it |
| EffectivelyOnce.RowSettled | freshet/pipeline/embedder.py:207-258 | a run that consumes every partition to its end leaves each row as one undisturbed pass over its partition would |
| EffectivelyOnce.RunsAgree | freshet/pipeline/embedder.py:3-5 | effectively once: two runs over the same topic that reach its end leave the same index, whatever crashes and redeliveries either contains |
| IndexContents.EmbeddingsFollowTexts | freshet/pipeline/embedder.py:240-244 | in every state of every run, for a model whose vector for a text does not depend on the texts beside it, each row's embedding is that of its own text unless the run has not touched the row |
| IndexContents.DrainedShows | freshet/pipeline/embedder.py:240-245 | after every run that consumes the topic each row of an event that was written shows a chunk of one of its messages with that chunk's own vector and that message's title, severity and type |
| IndexContents.DrainedFirstWrite | freshet/pipeline/embedder.py:103-116 | after every such run a row's time, service, incident and source are what they were at the start, if it was there and never dropped, and otherwise those of the first message that wrote it since it was last dropped |
| IndexReceipts.FirstStampOnlyForNewEvents | freshet/pipeline/embedder.py:91-101 | a first stamp is only ever on an event that the index did not hold before the run; rows without a receipt never get one |
| IndexReceipts.FirstStampFrozen | freshet/pipeline/embedder.py:95-101 | no step of any run moves a first stamp once it is set |
| IndexReceipts.StampAfterChunks | freshet/pipeline/embedder.py:239-252 | a stamp is only ever given when the index holds all chunks of a message of that event and no others |
| IndexReceipts.StampIsTheClock | freshet/pipeline/embedder.py:91-101 | a step moves a receipt only by opening it, which records whether the index knew the event, or by stamping it with the clock, the first stamp only once and never for an event the index knew |
| IndexReceipts.DrainedIsStamped | freshet/pipeline/embedder.py:239-252 | after every run that consumes the topic each event that was written has its receipt completed, and has a first stamp if and only if the index did not hold it before the run |
| IndexReceipts.IndexedTextReadsBack | freshet/autopilot/investigate.py:25-31 | reassembling an event's chunk rows in order gives its whitespace-normalised text |
| IndexWorker.StreakIsTrailingRun | freshet/pipeline/embedder.py:196-205 | the breaker's counter is the length of the unbroken tail of embed failures among the messages that say anything; a parse failure resets it, blank text does not |
| IndexWorker.Process.Handle | freshet/pipeline/embedder.py:207-258 | a normal return has done the message's offset, and if it was to be written the index holds exactly its chunks, each with its own vector and the event's columns, and no other rows of the event; a raise leaves the committed offset; ten embed failures in a row raise |
| IndexWorker.Process.WriteRecords | freshet/pipeline/embedder.py:239-252 | register, upsert each chunk, delete orphans, stamp the receipt, with other consumers between the statements: a normal return leaves the index with exactly the message's chunks of the event, as long as no other partition writes it |
| IndexWorker.SameAsCrashFreeRun | freshet/pipeline/embedder.py:207-258 | unless some message is fatal on every attempt a crash-free run to the end exists, and every other complete run leaves its index |
| KafkaLoop.Consumer.CommitPending | freshet/common/kafka_io.py:144-153 | nothing is committed unless everything produced so far was acknowledged; a commit that raises leaves some partitions at their new position and the rest at the old; a full one covers everything handled |
| KafkaLoop.Consumer.OnRecord | freshet/common/kafka_io.py:174-183 | a message whose handler raised is not pending, and a full batch is committed at once |
| KafkaLoop.Consumer.Run | freshet/common/kafka_io.py:155-188 | however the loop ends, committed positions never run ahead of what was handled and flushed, all that was produced for flushed messages is acknowledged, and at most one batch would be delivered again; a clean end has committed everything handled |
| KafkaLoop.Consumer.CommittedWasHandled | freshet/common/kafka_io.py:118-131 | every offset below a partition's committed position was handled, and all that its handler produced is acknowledged |
| Producer.BufferedProducer.FlushChecked | freshet/common/kafka_io.py:75-80 | every message produced is in exactly one place; returning means that all were acknowledged but those an earlier check raised for, and raising happens exactly when one since then failed |
| KeepFirst.StreamIsKept | freshet/stream/dedup_job.sql:118-125 | remembering the set of keys seen emits exactly the rows that ROW_NUMBER over the whole stream numbers one, in the same order |
| Dedup.DeadLettersPartition | freshet/stream/dedup_job.sql:102-105 | every raw row is either a dead letter, if it has no time, or takes part in deduplication, none twice |
| Dedup.DeadLettersLeaveNoTrace | freshet/stream/dedup_job.sql:122-124 | rows without a time do not influence which updates are emitted |
| Dedup.EmittedOnce | freshet/stream/dedup_job.sql:107-125 | each update of an incident with each body digest, a missing one counting as one, is emitted exactly once if it ever arrives with a time, and as it first arrived |
| Dedup.ReEmissionIsAbsorbed | freshet/stream/dedup_job.sql:118-125 | sending again any rows whose update and body were seen changes nothing downstream |
| Dedup.UndoneEditIsNotReEmitted | freshet/stream/dedup_job.sql:119-125 | after a body, an edit, and the first body again, nothing more is emitted and the event's latest row is the edit |
| Dedup.LatestFollowsExactly | freshet/stream/dedup_job.sql:119-125 | after any stream and one more arrival, the event's latest emitted row has the arriving body if and only if that body was never seen before or is already the one emitted last |
| Dedup.EventIdFixesIncident | freshet/stream/dedup_job.sql:109-115 | with ids that hold no colon, the event id determines the incident |
| Dedup.NeverBlank | freshet/stream/dedup_job.sql:116 | no emitted update is blank to the chunker, so the handler's early return cannot leave its old chunks |
| Dedup.PlanWrites | freshet/stream/dedup_job.sql:108-117 | an emitted row becomes, unless the embedding fails, the index rows of its chunks under its own event id, each with its own vector, service, incident, time, source, type and title |
| Dedup.KeyedByIncident | freshet/stream/dedup_job.sql:40-41 | keying the topic by incident puts all updates of one event on one partition |
| Dedup.SettledHoldsLatest | freshet/pipeline/embedder.py:58-80 | one pass over a partition, from any table, leaves a chunk row exactly for each chunk of the event's most recently emitted row that can be embedded, with that chunk's text, vector and title, and leaves rows alone that no such row is for |
| Dedup.IndexHoldsLatest | freshet/pipeline/embedder.py:240-245 | from raw stream to index: whatever the index held before, whatever is re-emitted, dead-lettered, crashes or is redelivered, a drained run leaves for an event the chunks of its most recently first-seen embeddable body and no others |
| Dedup.AnnouncedOnce | freshet/stream/dedup_job.sql:86-96 | the number of messages that announce an incident as opened, in progress or resolved is one if an update of it less than a day old arrived with one of that transition's words, in either case of letters, and zero otherwise |
| Dedup.FirstAnnouncementStands | freshet/stream/dedup_job.sql:128-137 | an announcement carries the incident, service, time and name of the first such update; every announced transition is one its own status word tells, and nothing that arrives later changes or reorders it |
| Poller.PersistedMeansAcknowledged | freshet/ingest/poller.py:334-343 | in every reachable state, after any crashes, if the server would answer 304 to the persisted validators then every update of its current representation was acknowledged by Kafka |
| Poller.NotModifiedHidesNothing | freshet/ingest/poller.py:114-126 | in a running process a 304 hides no update that is neither acknowledged nor in the batch the next flush waits for |
| Poller.RememberedExactly | freshet/ingest/poller.py:122-126 | what is remembered of an answer recognises it again, exactly unless it came without a validator or with a date alone where an older entity tag stands, and no other page's validators change |
| Poller.FlushedSweepIsComplete | freshet/ingest/poller.py:337-343 | once a sweep is flushed, every representation it was answered with is wholly in Kafka |
| PollLoop.Sweeper.One | freshet/ingest/poller.py:261-292 | a page is skipped exactly when its host is backing off; a failed fetch sets the host's deadline ahead of now by at most five minutes and keeps cache and batch; an answer clears the host; a 304 matches the stored validators; a body with updates is remembered and its updates join the batch, one without leaves no validator |
| PollLoop.Sweeper.PollOnce | freshet/ingest/poller.py:253-300 | every page gets an outcome, and the sweep's representations are exactly those the pages answered with, in their order |
| PollLoop.Sweeper.Sweep | freshet/ingest/poller.py:334-343 | after a sweep that returns, the very representation each page was answered with is wholly in Kafka and the cache file is either old or equal to memory; one whose flush raised has written no file |
| Backoff.DelayDoubles | freshet/ingest/poller.py:229-243 | a positive instruction is followed up to five minutes; without one the first failure costs two seconds and each further one doubles it, up to five minutes |
| Backoff.HostBackoff.Failed | freshet/ingest/poller.py:229-240 | a failure counts for the host and sets its deadline by the bounded delay, leaving other hosts alone |
| Backoff.HostBackoff.Restore | freshet/ingest/poller.py:218-224 | a restarted process gets back every failure count and exactly the deadlines still ahead on the wall clock |
| Backoff.RestartKeepsSkips | freshet/ingest/poller.py:213-227 | after snapshot and restore a host is skipped at an instant exactly when its interval was still running at the snapshot and would be running then without the restart |
| Backoff.NeverPinned | freshet/ingest/poller.py:200-245 | in every run, restarts and instructions included, no host is skipped five minutes from now |
| Backoff.FailuresCount | freshet/ingest/poller.py:213-240 | in every run, whatever other hosts do, the count behind the next delay is the host's own failures since its last success, without those a restart forgot because no save came after them |
| Timestamps.YearStartClosed | freshet/ingest/statuspage.py:92-94 | counting days year by year agrees with the closed rule of 4, 100 and 400 |
| TimestampZones.DayNumberClosed | freshet/ingest/statuspage.py:92-94 | the day of a date is that of the Gregorian calendar in closed form, month lengths included |
| TimestampZones.ZonesExactly | freshet/ingest/statuspage.py:56-62 | the zones that are understood, with their hours, are exactly those of a table by hours east and west |
| TimestampZones.StampIsLocalTime | freshet/ingest/statuspage.py:81-106 | a parsed stamp is the instant of its own digits in its zone, of the anchor's year if that is at most a minute after the anchor and else of the year before |
| TimestampZones.RefusedExactly | freshet/ingest/statuspage.py:87-106 | a stamp with a known month and zone is refused exactly when its hour, minute or date does not exist in the year it is looked for |
| TimestampZones.DaylightIsAnHourEarlier | freshet/ingest/statuspage.py:56-62 | the same digits in a daylight zone are an hour earlier than in its standard zone, exactly unless that hour decides whether this year's reading is too late |
| Timestamps.DateUnique | freshet/ingest/statuspage.py:92-96 | no two dates share a day number, over all years |
| Timestamps.AgeLimitNeverBinds | freshet/ingest/statuspage.py:97-106 | the 400-day limit never refuses a stamp that the year rules accept |
| Timestamps.ParsedShowsTheStamp | freshet/ingest/statuspage.py:81-106 | a resolved stamp is never invented: shown in its zone it is the stamp, to the minute, and in the anchor's year or the one before |
| Timestamps.RoundTrip | freshet/ingest/statuspage.py:81-106 | an instant shown without its year resolves to itself if and only if its local year is the anchor's and it is at most a minute after it, or the year before, its date exists this year and is still to come |
| Timestamps.NewYearAheadOfUtcIsAYearEarly | freshet/ingest/statuspage.py:92-101 | when the local year is ahead of the anchor's UTC year the stamp, on 1 January, resolves exactly one calendar year early |
| Timestamps.LeapDayOfLastYearIsRefused | freshet/ingest/statuspage.py:92-96 | a 29 February of the year before the anchor's is refused |
| Identity.ParseBlocks | freshet/ingest/statuspage.py:134-147 | the loop with its map of seen markers gives each block its own status and body, its marker with the number of blocks above that show the same minute, and its resolved time or the entry's |
| Identity.IdentitiesDistinct | freshet/ingest/statuspage.py:138-147 | within an entry no two updates share an identity string |
| Identity.OnlyCountsMatter | freshet/ingest/statuspage.py:138-140 | the set of identities depends only on how often each minute is shown |
| Identity.PrependKeepsIdentities | freshet/ingest/statuspage.py:138-140 | prepending updates never withdraws an identity |
| Identity.KeepsIdentity | freshet/ingest/statuspage.py:16-18 | a block keeps its own identity under a prepend exactly when no prepended block shows its minute |
| Identity.PrependShifts | freshet/ingest/statuspage.py:138-140 | its ordinal moves by exactly the number of prepended blocks that show its minute |
| Identity.NewerTakesOver | freshet/ingest/statuspage.py:168-175 | when enough of them do, a prepended block has the identity it had |
| Budget.AnyHourAndWindow | freshet/rag/budget.py:29-37 | in every run every clock hour is within the hourly cap, the windowed 24-hour sum is below the daily cap plus the number of workers, and a cap of zero or less lets nothing through |
| Budget.AnyRealDay | freshet/rag/budget.py:70-84 | in every run with W workers any 24 hours of real time, ends included, hold at most both caps together plus W - 1 spends, pruning included |
| Budget.BoundIsReached | freshet/rag/budget.py:70-84 | for every daily cap and number of workers, with the hourly cap that lets them all through, two bursts within 24 hours reach that bound |
| Budget.AccountedStep | freshet/rag/budget.py:29-37 | for every hour younger than a week the table says what was spent in it, through spends, races and pruning |
| Budget.PaidForRun | freshet/rag/budget.py:86-88 | in every run no worker has called the model more often than it has recorded a spend |
| Budget.BudgetedComposer.TrySpend | freshet/rag/budget.py:70-84 | with a working budget a call is granted exactly when the day's total read in one state was below its cap and the hour's row in a later one below its own; a refusal costs nothing, a grant is exactly one spend of this worker's, and a disabled budget runs no statement |
| Budget.BudgetedComposer.Compose | freshet/rag/budget.py:86-88 | the inner composer runs only after a spend, a failing call has still been paid for, and a working budget refuses only in a state in which a cap was reached |
| Budget.BudgetedComposer.PruneTable | freshet/rag/budget.py:99-100 | pruning changes no total of the last 24 hours and no hour younger than a week |
| Budget.BudgetedComposer.Spent | freshet/rag/budget.py:90-97 | the two figures reported are the spends of this hour and of the hours of the last day |
| Supervisor.Supervisor.Supervise | freshet/ops/supervisor.py:66-113 | at every exit the starts of each child are at least the backoff apart and its restarts bounded by the elapsed time; at the normal and the halting exit every process ever spawned was seen dead, or was terminated and then killed; a halt names a child whose last deaths, as many as the limit, were all fast |
| Supervisor.Supervisor.Round | freshet/ops/supervisor.py:90-111 | every child whose process had exited when the round began has a newer process after it, unless the round ended the run |
| Supervisor.Supervisor.Shutdown | freshet/ops/supervisor.py:116-135 | afterwards no process of the run is left that was not seen dead or terminated and killed |
| Supervisor.Supervisor.Tend | freshet/ops/supervisor.py:90-111 | a child whose process has exited gets a new one, no sooner than the backoff after its last start, unless the spawn raises or this was one fast death too many, which ends the run exactly when its last deaths, as many as the limit, were fast; the death is on record with its age; a live one is left alone |
| Supervisor.RestartKeeps | freshet/ops/supervisor.py:93-111 | a restart keeps all spawns of a child at least the backoff apart and every older process seen dead |
| Supervisor.RestartsBounded | freshet/ops/supervisor.py:26 | in a run of length T no child is restarted more than T / backoff times, however the run ends |
| Supervisor.CounterAtLimit | freshet/ops/supervisor.py:99-109 | the counter reaches the limit exactly when the last deaths, as many as the limit, were fast |
| ThreadAgent.PollOften | freshet/autopilot/thread_agent.py:137-180 | any number of polls from the posting of the brief, through failed posts, rate limits, refused budgets, exceptions and lost markers: the answers follow the questions in order and skip none, as many are repeated as markers were lost, they are exactly the questions up to the marker if and only if none was lost; every answer is to something a person wrote, and after an undisturbed poll everything that people had written in the thread when it began is answered |
| Threads.AnswersFormAPrefix | freshet/autopilot/thread_agent.py:137-180 | in any lawful state the answers without repeats are a prefix of the questions, at most one ahead of the marker; without lost markers they are increasing and the marker is the last one answered |
| Threads.AnsweredExactly | freshet/autopilot/thread_agent.py:168-179 | the posts are the questions up to the marker, each once, if and only if every accepted answer was followed by its marker |
| Threads.QuestionsAreByPeople | freshet/autopilot/thread_agent.py:44-55 | the questions are exactly the messages that are no bot's, no edit or join, not the brief itself and not blank |
| Threads.WrittenKeepsLaw | freshet/autopilot/thread_agent.py:145-147 | people writing in the thread at any time disturb neither the answered nor the order of the waiting questions |
| Threads.PostedKeepsLaw | freshet/autopilot/thread_agent.py:168-176 | answering the first waiting question keeps the law that answers follow the questions |
| Threads.MarkedKeepsLaw | freshet/autopilot/thread_agent.py:177-179 | moving the marker to it makes it the last answered question |
| ThreadAgent.Conversation.Poll | freshet/autopilot/thread_agent.py:141-180 | a poll of a thread keeps the law through any failure, loses a marker only with an answer that was posted, and when nothing disturbs it leaves no question that was there waiting |
| ThreadAgent.PollThreads | freshet/autopilot/thread_agent.py:137-180 | the threads are visited in order up to the one where a failure ends the poll, the number returned is that of the answers given with their markers, and only the last visit can lose a marker |
| ThreadAgent.ThreadPoller.Call | freshet/autopilot/thread_agent.py:113-126 | polls are never closer than the interval, or the back-off if that is shorter, and after a rate limit nothing is polled for a minute |
| Heartbeat.ContinuousRunStart | freshet/common/heartbeat.py:60-79 | the walk back over the log finds the start that a forward machine, reset by every gap wider than the tolerance, has |
| Heartbeat.LogKeepsStart | freshet/common/heartbeat.py:36-37 | one row a minute is enough: it does not move that start |
| Heartbeat.SteadyBeatsKeepTheRun | freshet/common/heartbeat.py:16-19 | a process whose beats are never more than four minutes apart is one run |
| Heartbeat.OutageCutsTheRun | freshet/common/heartbeat.py:60-67 | an outage longer than six minutes always cuts the run |
| Heartbeat.Writer.Beat | freshet/common/heartbeat.py:50-57 | a beat is written exactly when the interval has passed, and the log stays the minutes of the beats |
| Freshness.AlignmentIndependent | freshet/eval/freshness.py:44-70 | for every workload, interval and number of alignments the mean of the sweep is half of interval and step, less the mean of the posting times modulo the step |
| Freshness.HourlyBatchMean | freshet/eval/freshness.py:25-27 | for an hourly batch swept second by second that mean is above 1799.5 and at most 1800.5 seconds for every non-empty workload |
| Freshness.ModUnique | freshet/eval/freshness.py:52 | the remainder used for the wait is the unique one in range |
| Freshness.DistinctUpdates | freshet/eval/freshness.py:114-124 | one row per update, the first, and as many as there are distinct events |
| Retrieval.Fuse | freshet/rag/retrieval.py:86-96 | the loops over lists and ranks give each id of the union once, with its score, in descending order |
| Retrieval.ScoreByPlaces | freshet/rag/retrieval.py:86-96 | an id's score in two lists is the sum of one over the constant plus its place, for the lists that have it |
| Retrieval.AgreementWins | freshet/rag/retrieval.py:83-96 | for two lists no deeper than the constant, every id in both scores strictly above every id in one |
| Retrieval.DeeperListsLoseAgreement | freshet/rag/retrieval.py:83-96 | an id that ends both of two equally deep lists scores above one that heads only one of them exactly when the lists are no deeper than the constant |
| Retrieval.DominationCarriesOver | freshet/rag/retrieval.py:86-96 | an id that outranks another in every list that has the other scores strictly above it |
| Retrieval.HigherScoreComesFirst | freshet/rag/retrieval.py:96 | a strictly higher score means an earlier place |
| Retrieval.ShouldAbstain | freshet/rag/retrieval.py:100-108 | abstains exactly when no similarity reaches the floor |
| Retrieval.HybridSearch | freshet/rag/retrieval.py:192-236 | the hits are the k best of the fusion with the vector arm's row when it has one; a filtered search abstains exactly when it found nothing, another exactly when no hit reaches its floor |
| Sorting.SortIsStable | freshet/rag/retrieval.py:96 | sorting keeps ties in their order |
| Citations.ScannerOnPieces | freshet/rag/composer.py:37-38 | on the pieces the scanner cuts any answer into, the left-to-right substitution acts on each bracket by itself |
| CitationTheorems.OnlyEvidenceIsCited | freshet/rag/composer.py:44-74 | after verification of an answer whose brackets do not nest every citation names an event of the evidence and carries its own stamp |
| CitationForms.CitationExactly | freshet/rag/composer.py:38-41 | a bracket is a citation of an id if and only if it reads as space, the id, space, and possibly an at sign with anything after it, the id being of letters, digits and `_.:-`, three or more, beginning with a letter or digit and holding a digit or one of `_:-` |
| CitationForms.EventIdVerified | freshet/rag/composer.py:61-74 | every event id of the system, provider, incident and update joined by colons, is stamped from the evidence, or removed for want of it with the space before it |
| CitationForms.KnownCitation | freshet/rag/composer.py:72-74 | a citation of the evidence, however spaced and whatever stamp it carried, is rewritten with its own stamp and the rest of the answer verified in turn |
| CitationForms.UnknownCitation | freshet/rag/composer.py:67-71 | one that is not in the evidence goes, with exactly the space before it |
| CitationForms.PhraseStays | freshet/rag/composer.py:65-66 | brackets around a word of letters alone, or around a phrase with a space and no at sign, stay as they are |
| CitationTheorems.GroundedExactly | freshet/rag/composer.py:44-74 | for every answer the brackets that are kept are grounded, and the result cites only the evidence if and only if the prose joined where citations were removed does |
| CitationTheorems.ProseIsPreserved | freshet/rag/composer.py:57-60 | for every answer, apart from citations, removed with the space before them, the text is unchanged character by character |
| CitationTheorems.VerifyIsIdempotent | freshet/rag/composer.py:44-74 | verifying an answer without nested brackets twice is verifying it once |
| CitationTheorems.NestedExactly | freshet/rag/composer.py:37-38 | a bracket inside a bracket leaves an unsupported citation behind if and only if the inner one is a citation without evidence and the text around it, closed up, is a citation that the evidence does not ground |
| CitationTheorems.NestedCitationSurvives | freshet/rag/composer.py:37-38 | two ids without evidence, one bracketed inside the other, leave the outer one standing |

## Left out

- Postgres, Kafka, Flink, Slack, HTTP, XML and the language and embedding models themselves: they are steps, logs, parameters or uninterpreted functions here.
- `ResilientConnection`'s reconnects, metrics, logging, command lines, schema migrations and the registry.
- The demo reset (`demo_trigger.py`, `replay_demo.py`) and `brief_as_of`: the reset deliberately breaks delivery finality.
- `DrainThrottle`, `wait_for_index`, and what findings and postmortems contain.
- Which threads a poll looks at (briefed within a day, the latest first, up to a limit) and the evidence an answer is made from.
- `incident_services`, `incident_events` and the embedder's own `ensure_incident` calls are not part of the indexing machine; the calls are steps of the delivery machine (`Index`).
- Two consumers of one partition at once in the indexing machine (a consumer that lost its partition but still writes), the `indexed_at` column, and the attempts of `emb.encode`: an event that cannot be embedded is one outcome of its message.
- Ties of the pending follow-ups' sort key are broken by the incident id; the model takes them in any order.
- The time a tick of the delivery machine takes is arbitrary, so that attempts end within their lease is an assumption on runs, not a consequence of timeouts.
- Matching of the update, citation-id and timestamp regular expressions against markup: `Timestamps` and `Identity` start from the matched groups, `Citations` is the scanner of the citation expression alone.
- The final sort of `parse_atom` by time and its single-block fallbacks.
- The order of work inside the poller's thread pool, where pages are asked one after another here, and the sort of a sweep's updates by time.
- A wall clock that is set back between two processes, or while one runs, for `HostBackoff`: `Backoff.RestartKeepsSkips` covers the first case, `Backoff.NeverPinned` does not.
- Re-emission by Flink itself after it restores a checkpoint.
- The spawn that raises in the supervisor leaves the processes started before it running; only the spacing of starts and the bound on restarts are promised for that exit.
- `percentile`, the ratios of `summarize` and the report's formatting.
- Recurrence, the centroid cache, cause, impact, maintenance and timeframe heuristics, brief rendering, `live_retrieval`, `index_ready`: easy members or formatting.
- Timestamps.RoundTrip: Python's years end at 1 and 9999; the model's calendar does not.
- Freshness.HourlyBatchMean: over the reals; rounding of floats is not modelled.
- KafkaLoop.Consumer.Run: with automatic commits the library commits on its own schedule, which is not modelled; the run is a finite script of polls.
- CitationTheorems.OnlyEvidenceIsCited: stamps are assumed to hold no brackets, as dates and times do not.
