# Verified model of the charging event pipeline

Charge points speak OCPP-J over WebSockets to a gateway. The gateway answers each call and publishes an
event to one of five Kafka topics. A state processor with one reader per topic turns the events into
latest state (Redis), an event history and charge detail records (PostgreSQL). A read API serves the
latest state. This project models that path, from the simulated charge point to the read API, and proves
what holds of it in every run.

`dafny verify dfyconfig.toml` checks everything.

## What is modelled

**Stores.** Redis is a map of hashes, a map of sets, a set of dedup keys and a map of key lifetimes;
PostgreSQL is two tables keyed by `event_id` and `session_id`. Assumed of the servers: SetNX is atomic,
HSET merges, SADD adds, DEL and EXPIRE act on the whole key, `ON CONFLICT DO NOTHING` keeps the old row,
each command takes effect at once, a pipeline is a list of commands and not a transaction, and one that
fails has executed a prefix of its commands.

**State processor and consumer** (`Handler`, `Machine`). A handler is a step machine, one Redis or
PostgreSQL command per step, so a guard read and the write it guards are separate steps. Five readers
interleave freely. A schedule is any list of labels: fetch, one handler command (which may work, be
refused, or be executed with its answer lost; the last two are errors to the handler), commit (which may
fail), crash and restart from the committed offsets, time passing with keys expiring. A label that is not
enabled does nothing, so a theorem about all lists is one about all runs.
`Processor` and `Consumer` are the imperative forms, methods that update fields and queue pipeline
writes, proved equal to the step machine.

**What the producers guarantee.** The gateway publishes an event to the topic of its type, keyed by
charger, so that within a topic a charger's records share a partition; a log of which both hold is *orderly*
(`Machine.Routed`, `Machine.Keyed`). Event ids are UUIDs (`Machine.UniqueEventIds`; `Delivery.OwnEventId` for
one event). Message ids are not: charge points choose them, they are unique on a connection only, and the
dedup key holds nothing else. A *lane*, that is a topic and a charger, is *clean* if no other lane uses one of
its ids (`Machine.CleanLane`), a charger if its five lanes are. What a run leaves of a lane depends on the
schedule if it is not (`Collision.ConfinedIsNeeded`), so results about that are about orderly logs and clean
lanes; other lanes may then do as they like. Results about "every run" need neither unless their row says so.
Where a connector's readings matter, no measurand is named "ts" (`Connectors.PlainLogs`).

**Runs.** A run is *steady* if no command fails, the process crashes only when no handler is running, and an
event that is delivered again comes while the key its own handler set lasts, which is for an hour
(`Dedup.KeyLastsAnHour`). It is *gentle* if also no other event brings back a message id whose key has been
set and has expired, and no pairing record reaches the end of its 24 hours: by the clock, time never passes
24 hours since a Start gave the record its lifetime, unless that was renewed or the record deleted
(`Lifetime.GentleByTheClock`). Commits may fail, dedup keys expire as time passes, and the run may take any
time. It is *drained* when everything has been fetched and no handler is running.

**Ownership and confluence** (`Ownership`, `Interleaving`, `Confluence`). Every cell of the stores belongs
to one lane, or is shared and only ever switched on, or is `last_seen`, which every topic writes without a
guard. That the guards are safe under interleaving follows from this. A gentle run
is then shown to do what the same run does with its clock stopped.

**Delivery** (`Dedup`, `Delivery`, `Collision`, `Billing`, `Lifetime`, `Progress`): how often an event passes
the dedup test, takes effect or is lost, which Stops are billed, how long a Start can be found by its Stop, and
what a commit vouches for, in every run.

**Values** (`Effects`, `Provenance`, `Seen`). What handling one event leaves in each cell of the stores, as a
reference that knows no commands, with names, seconds and constants written out; where stored values come from
in every run; and what `last_seen` holds, which depends on the schedule.

**Framing** (`Json`, `Spelling`, `Grammar`, `Framing`, `Splitter`, `Messages`). A JSON reader and printer, Go's
`%q` on Go strings (code points and invalid bytes), compaction with HTML escaping, and the array splitter. The
reader is proved to accept exactly the grammar of RFC 8259 (sections 2 to 7), stated by its derivations, and
ParseMessage to give a stated verdict on any text. `strconv.IsPrint` is a parameter, constrained on ASCII only.

**Gateway** (`Gateway`, `Connections`, `Lockstep`). The connection loop, any number of connections sharing
the atomic transaction counter (which wraps at 64 bits), and the loop composed with the simulated charge
point's send-and-wait over FIFO channels.

**Simulator** (`Simulator`) with its random draws, clock and call outcomes as parameters and the taper as
an exact fraction, and **the whole path** (`Settled`, `EndToEnd`).

**Read API** (`ReadView`, `ReadFold`, `Ordering`, `Numerals`, `Keys`, `Decimal`): the view assembled from the
Redis layout, the string sort, the texts of keys and numbers.

Times are integer nanoseconds. What is stored through RFC 3339 and read back is the whole second below.

## Where the code and its documentation differ

The model follows the code.

- `docs/architecture.md` says an update is applied only if it is newer than what is stored. The code
  compares a full-precision time with a stored whole second, and skips the comparison when the guard
  read fails: `Monotone.SecondsNeverDecreaseIff` says exactly when that shows.
- It says history is always written. The dedup key is set first, so a failure in between loses the event
  for good, and its offset is committed on redelivery: `Delivery.AppliedIff` says exactly when.
- MeterValues payloads have no top-level timestamp, so their event time is the gateway's clock.

## Results that are false as first put, with their exact condition

- No event is lost: one that does not come again after the key its own handler set has expired is handled
  once, with its row in history, exactly when a handler of it set the key and none lost it by an unheard
  SetNX, a failure past SetNX or a crash (`Delivery.AppliedIff`). Runs that lose one:
  `Delivery.FailureLosesEvent`, `Delivery.UnheardLosesEvent`, and, nothing failing and nothing being late,
  `Collision.CollisionLosesEvent`: another event had used its message id within the hour.
- A handled Stop is billed: exactly when a pairing read of its handler worked and found a start time and its
  insert was executed, the errors of both being ignored (`Billing.BilledIff`; `Billing.FailedReadLosesCdr`).
- What a run leaves does not depend on the schedule: it does not for clean lanes (`Confluence.Confluent`), and
  may for others (`Collision.ConfinedIsNeeded`).
- The stored second of a connector's status or readings never goes back: exactly when no event older than it slips past a failed guard read and
  is then written (`Monotone.SecondsNeverDecreaseIff`; from any store that holds a second, five steps take
  it back: `Monotone.FailedGuardReadGoesBack`).
- Order independence of a register: exactly when, field by field, no update without the field can shut out
  all that have it and the decisive values agree (`LastWriter.OrderIrrelevantIff`); two updates within one
  second can depend on their order.
- A frame can be written exactly when its strings are quotable (`Framing.CallRoundTrip`,
  `Framing.CallResultRoundTrip`). Frames with any other id can be sent, and are read: a call is answered, and
  published if its action is supported, exactly when its id is quotable and the response can be written
  (`Gateway.AnsweredIff`).
- A response matches the call just sent exactly when nothing else was outstanding when it was sent
  (`Lockstep.MatchesIffAlone`): always without a timeout (`Lockstep.OneOutstandingCall`), and never again
  once a timed-out call has been left behind (`Lockstep.TimeoutBreaksStep` is one such schedule).
- Connectors sort by number: exactly when their numerals have as many digits, or the one with fewer is at
  most the leading digits of the other (`Numerals.StringOrderIff`).
- A pairing record names an active connector exactly outside one window inside a Stop
  (`Coupling.ReachablyCoupled`).
- Key texts are distinct exactly when no charger id has the form of another's connector key
  (`Keys.CollideIff`).

## Model

| member | source | states |
|---|---|---|
| `Handler.HandleIsApply` | cmd/state-processor/main.go:137-182 | a handler left undisturbed does, over all its commands, nothing for a message id already locked, and otherwise locks it, records the event and applies its update |
| `Effects.HandleLeaves` | cmd/state-processor/main.go:137-384 | for every event and every cell of the stores, what an undisturbed handler leaves there: dedup key, history row, each hash field by its value and second, the last sample for a measurand's field, set members, the pairing record and the whole CDR, or, if the event is not newer than the stored second or not for the latest state, what was there |
| `Effects.FailedReadIsBlank` | cmd/state-processor/main.go:243-338 | an update whose guard or pairing read fails is the one it would make if there were nothing to read |
| `Sequential.HandleSeqIsApplySeq` | cmd/state-processor/main.go:150-160 | handling a sequence of events is applying the first delivery of each unlocked message id, in order |
| `Progress.CommitSafety` | internal/kafka/consumer.go:39-55 | in every run, with faults, crashes and failed commits, every record below a committed offset was handed to the handler, which returned for it; without a handler error it was handled successfully |
| `Progress.RestartsAfterCommitted` | internal/kafka/consumer.go:39-55 | in every run, when the handler of an event has returned nil, the event is in the log, a commit that works leaves the committed offset right after it and one that fails leaves it at or before it; after a crash the first record read is the one at that offset |
| `Ownership.StepFrame` | cmd/state-processor/main.go:220-384 | a handler command, however it goes, changes no cell of another topic or charger and switches no shared cell off |
| `Ownership.StepCong` | cmd/state-processor/main.go:242-256 | a handler command of a clean lane decides by the cells of its own topic and charger only |
| `Confluence.RunsAreMerges` | internal/kafka/consumer.go:35-58 | after any gentle drained run of an orderly log, however long, the stores hold, of every clean lane, what its sequence leaves when run alone; the shared cells of a clean charger are on exactly when one of its lanes switches them on, and no dedup key is there that they do not set |
| `Confluence.GentleIsStopped` | cmd/state-processor/main.go:184-191 | a gentle run, dedup keys expiring, does what the same run does with its clock stopped |
| `Confluence.Confluent` | internal/kafka/consumer.go:35-58 | any two gentle drained runs over orderly logs with the same lane sequences end in the same contents of all cells of clean lanes, expired dedup keys aside, whatever the schedule, partitioning, redeliveries, restarts and clock; if all lanes are clean, in the same contents but for `last_seen`; if nothing expires, the dedup keys too |
| `Collision.ConfinedIsNeeded` | cmd/state-processor/main.go:184-191 | for any two heartbeats of different chargers with one message id there are an orderly log with unique event ids and two gentle drained runs of it that end with different histories |
| `Dedup.Conservation` | cmd/state-processor/main.go:150-182 | in every run, each setting of a dedup key by a handler of an event is in progress, applied or lost, never two of these |
| `Dedup.HourApart` | cmd/state-processor/main.go:184-191 | in every run, two settings of one dedup key are at least 3600 seconds apart, whichever readers race |
| `Dedup.KeyLastsAnHour` | cmd/state-processor/main.go:184-191 | in every run, a dedup key the run set is there exactly during the 3600 seconds after it was set |
| `Dedup.OncePerHour` | cmd/state-processor/main.go:150-191 | in every run, whatever fails, the key of a message id is set at most once for every hour begun, and events are applied only as often as their own handlers set it |
| `Delivery.AtMostOnce` | cmd/state-processor/main.go:150-191 | in any run in which an event that comes again comes while the key its handler set lasts, it is not applied twice, and if its key was set it is applied exactly when nothing of it is lost |
| `Delivery.OneOfAnId` | cmd/state-processor/main.go:150-191 | if all deliveries of a message id come while its key lasts, at most one event with that id is ever applied |
| `Delivery.InTimeIff` | cmd/state-processor/main.go:184-191 | coming while the key lasts means coming less than an hour after the key was set |
| `Delivery.ExactlyOnce` | cmd/state-processor/main.go:150-191 | in steady runs of any length, with any failed commits and redeliveries: an event that was handed to the handler has been applied exactly once, with its row in history, if and only if a handler of it set the dedup key; if none did it was dropped because a handler of another event with its message id had; so one whose message id is its own always has |
| `Delivery.LostIff` | cmd/state-processor/main.go:150-182 | in every run, handlers of an event set the key, or lost the event, exactly if some step of the run did |
| `Delivery.AppliedIff` | cmd/state-processor/main.go:150-182 | in every run, faults, crashes and other events with its message id included: once its handlers have ended, an event that did not come back after the key its handler set had expired was handled exactly once with its row in history if and only if a handler of it set the key, no SetNX of one went unheard and none past SetNX failed or was cut short; otherwise it was not applied at all, and without a set key it has no row |
| `Delivery.KeyTells` | cmd/state-processor/main.go:184-191 | if no other event uses its message id, the dedup key being there at the end says that a handler of it set it |
| `Delivery.FailureLosesEvent` | cmd/state-processor/main.go:162-176 | one run in which a failure after the dedup key is set loses the event: redelivered, it is skipped as a duplicate, committed and never in history |
| `Delivery.UnheardLosesEvent` | cmd/state-processor/main.go:150-160 | one in which the answer to the SetNX itself is lost, with the same end |
| `Collision.CollisionLosesEvent` | cmd/state-processor/main.go:184-191 | for any two heartbeats with one message id a gentle run in which nothing fails and one of them is handed over, committed, and neither applied nor in history |
| `Billing.BilledIff` | cmd/state-processor/main.go:338-375 | in every run, faults and crashes included, from stores without its session id: the CDR of a Stop is in charge_sessions if and only if a handler of it had a pairing read that worked and found a start time and its next command, the insert, was executed; the row is then that of the Stop and the record so read |
| `Billing.FailedReadLosesCdr` | cmd/state-processor/main.go:338-353 | from any stores with a pairing record, a Stop whose pairing read fails is handled, recorded and committed, and gets no CDR |
| `Lifetime.RecordLastsADay` | cmd/state-processor/main.go:323-331 | in every run, with no command on it since its lifetime was set for a Start, a pairing record is there, unchanged, exactly while the clock is less than 24 * 3600 seconds past that point |
| `Lifetime.RecordIsOfItsStart` | cmd/state-processor/main.go:323-331 | once written, and with no command on it since, it holds that Start's second, reading, id tag and connector, unless a lifetime left on the key by an earlier Start has run out |
| `Lifetime.StopFindsItsStart` | cmd/state-processor/main.go:323-375 | a Stop that reads the untouched record of a Start inserts the CDR of the two next if and only if the clock is less than 24 hours past the setting of the lifetime, and inserts nothing otherwise; the CDR is given field by field |
| `Lifetime.GentleByTheClock` | cmd/state-processor/main.go:184-331 | a run is gentle if and only if it is steady, no SetNX comes after the key of its id was set and has expired, and no record is 24 hours past the last setting of its lifetime when time has passed |
| `History.HistoryIsFirstDeliveries` | cmd/state-processor/main.go:193-202 | after any gentle drained run of an orderly log with unique event ids event_history holds its old rows and, of every clean lane, exactly one row per first delivery of a message, with that event in it |
| `LastWriter.Exactness` | cmd/state-processor/main.go:242-254 | the stored second is the maximum of the floored times, and each field is that of the last update carrying it that was strictly later than the running maximum |
| `LastWriter.OrderIrrelevantIff` | cmd/state-processor/main.go:242-304 | for any updates, whatever fields each carries: every reordering and duplication gives the same register if and only if, for each field, no update without it can shut out all that have it and the decisive values agree |
| `LastWriter.SettledIffLatestAgree` | cmd/state-processor/main.go:242-261 | among updates carrying the same fields, as status notifications do, that is: if and only if the latest updates agree |
| `LastWriter.DistinctSecondsAgree` | cmd/state-processor/main.go:242-254 | times in distinct seconds meet the second half of that condition, and for equal field sets all of it |
| `Connectors.LastSampleWins` | cmd/state-processor/main.go:280-296 | within one reading a field takes the value of the last sample for it |
| `Connectors.ConnectorsReplay` | cmd/state-processor/main.go:237-305 | after any gentle drained run of an orderly log the status part, or the meter part, of a connector hash is the guarded register's replay of that connector's own updates, if the lane is clean |
| `Connectors.LastWriterWins` | cmd/state-processor/main.go:242-260 | for a connector of such a lane first seen in the run: stored timestamp and each stored field are, exactly, those of the last-writer rule over the updates received |
| `Connectors.DeliveryOrderIrrelevant` | cmd/state-processor/main.go:237-305 | two gentle drained runs that deliver to such a lane the same set of updates meeting that condition, in any order and multiplicity, leave the same fields |
| `Monotone.GoesBackIff` | cmd/state-processor/main.go:242-305 | in every run of a routed log, a step takes a stored second, of a connector's status or of its readings, back if and only if it executes the write of an event that was older than the stored second when its guard read failed, the topic's reader having done nothing since |
| `Monotone.SecondsNeverDecreaseIff` | cmd/state-processor/main.go:242-305 | in every run, with crashes, failed writes and four other readers in between, either stored second never goes back between two points if and only if no such overwrite is completed between them |
| `Monotone.SecondsNeverDecrease` | cmd/state-processor/main.go:242-305 | so it never goes back, and never disappears, in runs in which no guard read of the topic fails |
| `Monotone.FailedGuardReadGoesBack` | cmd/state-processor/main.go:243-269 | from any store with a stored second there is a run of five steps that takes it back: an older event whose guard read fails |
| `Provenance.EveryValueHasASource` | cmd/state-processor/main.go:162-176 | in every state of every run from empty stores, each stored status, meter, boot, pairing value and active flag comes from an event already in event_history, `last_seen` is the whole second of an event of the charger there, and each CDR is from its Stop, under the same id, and a Start of the same charger that are both there |
| `Provenance.StartBeforeStop` | cmd/state-processor/main.go:353-375 | in every run each CDR is that of a Stop and of the Start whose pairing record the Stop's handler found, and that Start was in event_history at that point |
| `Seen.LastSeenIsLastWritten` | cmd/state-processor/main.go:220-384 | in every run, whatever fails, `last_seen` is the whole second of the event, one of this charger, whose handler executed the last write of the charger's hash |
| `Seen.LastSeenIsShown` | cmd/api/main.go:275-284 | and the read API shows that |
| `Cdr.SessionIsCdr` | cmd/state-processor/main.go:353-375 | read back through its stored texts, the pairing record gives the CDR of its Start and the Stop |
| `Cdr.PairedAlone` | cmd/state-processor/main.go:312-378 | run alone from a clean record, a charger's Starts and Stops leave exactly the CDRs of its adjacent Start, Stop pairs |
| `Cdr.PairsHaveCdrs` | cmd/state-processor/main.go:353-375 | every adjacent Start, Stop is among them |
| `Cdr.SessionsAreAdjacentPairs` | cmd/state-processor/main.go:312-378 | after any gentle drained run of an orderly log with unique event ids charge_sessions holds its old rows and, for each charger with a clean transaction lane, exactly the CDRs of the adjacent Start, Stop pairs of its transaction events |
| `Cdr.Conserved` | cmd/state-processor/main.go:353-375 | with readings and times not decreasing, the zero clamp never fires, the energies of a charger's CDRs add up to at most last minus first reading, each duration is the difference of the floored seconds, and they add up to at most the elapsed seconds |
| `Coupling.ActiveIffNamed` | cmd/state-processor/main.go:313-351 | without overlapping Starts a connector is active exactly when the pairing record exists and names it |
| `Coupling.OneActiveConnector` | cmd/state-processor/main.go:313-351 | the same after any gentle drained concurrent run for a charger with a clean transaction lane, so at most one connector of it is active |
| `Coupling.ReachablyCoupled` | cmd/state-processor/main.go:313-378 | in every reachable state of a routed log in which envelope and payload name the same connector and no transaction handler was cut short, a pairing record names an active connector, except exactly between a Stop's clearing of the flag and its deletion of the record |
| `Processor.DriveWithoutFaults` | cmd/state-processor/main.go:137-182 | with no fault to come the handler does what the step machine does undisturbed, and fails exactly if it reaches a payload that does not decode |
| `Processor.StateProcessor.Deduplicate` | cmd/state-processor/main.go:184-191 | true exactly for an id already locked, when the command works; the id is locked unless the command was refused, even if its answer is lost |
| `Processor.StateProcessor.WriteHistory` | cmd/state-processor/main.go:193-202 | the row is added unless the event id has one or the insert is refused, and nothing else changes |
| `Processor.StateProcessor.UpdateBootState` | cmd/state-processor/main.go:220-235 | the boot branch is the step machine's |
| `Processor.StateProcessor.UpdateConnectorStatus` | cmd/state-processor/main.go:237-261 | the guarded status branch, error cases included, is the step machine's |
| `Processor.StateProcessor.UpdateMeterValues` | cmd/state-processor/main.go:263-305 | the guarded meter branch with its loop over samples is the step machine's |
| `Processor.StateProcessor.UpdateHeartbeat` | cmd/state-processor/main.go:307-310 | the heartbeat branch is the step machine's |
| `Processor.StateProcessor.SettleStop` | cmd/state-processor/main.go:332-378 | the Stop branch reads, inserts the CDR ignoring an error, and queues what remains to be written |
| `Processor.StateProcessor.UpdateTransaction` | cmd/state-processor/main.go:312-384 | both transaction branches, with the pipeline executed at the end, are the step machine's |
| `Processor.StateProcessor.UpdateLatestState` | cmd/state-processor/main.go:204-218 | the dispatch on the event type is the step machine's |
| `Processor.StateProcessor.HandleMessage` | cmd/state-processor/main.go:137-182 | for any record and any pattern of faults the method leaves the stores, and returns an error, as the step machine does |
| `Consumer.Reader.Run` | internal/kafka/consumer.go:37-56 | the fetch, handle, commit loop of one reader, for any outcomes of commits |
| `Consumer.LoopIsRun` | internal/kafka/consumer.go:39-55 | that loop is one of the machine's schedules |
| `Keys.CollideIff` | cmd/state-processor/main.go:225-258 | two structured keys have the same Redis text exactly when equal or when a charger id has the form of another's connector key or connector set |
| `Keys.NamesCollideIff` | cmd/state-processor/main.go:280-296 | two connector hash fields share a name only as meter_ts and the default field of the measurand "ts" |
| `Keys.MeasurandNames` | cmd/state-processor/main.go:280-296 | the Redis name of the field each measurand goes to, `meter_` and the measurand for all but five |
| `Decimal.ScanPrint` | cmd/api/main.go:296-297 | scanning the printed form of any integer gives it back |
| `ReadView.BuildChargerState` | cmd/api/main.go:269-313 | the view of the store: boot fields, and the connectors of the set once each in string order |
| `ReadView.ListChargers` | cmd/api/main.go:190-226 | every known charger exactly once, in string order, each with its view |
| `ReadView.GetChargerState` | cmd/api/main.go:228-267 | not found exactly for a charger outside the set, else its view |
| `ReadView.ViewUnique` | cmd/api/main.go:269-313 | the store determines the view |
| `Ordering.SortStrings` | cmd/api/main.go:206-288 | sorting gives the ascending list of the same strings |
| `ReadView.ConnectorIds` | cmd/api/main.go:290-309 | connectors added under their printed number carry that number, no two the same |
| `Numerals.StringOrderIff` | cmd/api/main.go:287-290 | the numerals of two numbers sort as the numbers when they have as many digits; otherwise the one with fewer sorts first exactly if it is at most the leading digits of the other |
| `Numerals.DigitsInOrder` | cmd/api/main.go:287-290 | so below ten string order is numeric order, and ten sorts before every digit but 0 and 1 |
| `ReadView.ListedIff` | cmd/state-processor/main.go:257-381 | after any gentle drained run of an orderly log from empty stores a clean charger is listed exactly when a status, non-empty meter or transaction event of it was processed, a connector of it exactly when a status, non-empty meter or Start event named it |
| `ReadFold.OnlineAtEnd` | cmd/api/main.go:282-282 | after any gentle drained run of an orderly log with unique event ids from empty stores a clean charger is online exactly when a boot, status or heartbeat event of it was processed |
| `ReadFold.FlagsAlone` | cmd/state-processor/main.go:320-351 | a connector's flag is the fold of its charger's Starts, each setting its own connector's, and Stops, each clearing the one the preceding Start names or else its own |
| `ReadFold.ViewIsFold` | cmd/api/main.go:269-313 | after any such run the view of a clean charger, `last_seen` aside, is a fold of its own events: boot data of the last BootNotification, online, exactly the connectors that were named, in numeral order, and for each the status of the last winning notification, of each meter field the last sample in the last winning reading that has one, their timestamps, and the active flag |
| `ReadFold.FoldUnique` | cmd/api/main.go:269-313 | the fold determines the view, `last_seen` aside |
| `History.HistoryAlone` | cmd/state-processor/main.go:193-202 | applying events adds a row for each new event id, with one of the events that have it, and keeps every old row |
| `Json.ParsePrint` | internal/ocpp/message.go:105-110 | reading a printed JSON tree gives the tree back |
| `Json.CompactKeepsMeaning` | internal/ocpp/message.go:105-110 | compaction with HTML escaping keeps a document well formed and what it denotes |
| `Json.CompactIsSafe` | internal/ocpp/message.go:105-110 | compaction works exactly on a JSON document and leaves no less-than, greater-than, ampersand, line or paragraph separator |
| `Grammar.ParseIff` | internal/ocpp/message.go:55-63 | the reader accepts exactly the documents of the grammar, any blanks between any tokens, and reads their value |
| `Grammar.NumberIff` | internal/ocpp/message.go:64-67 | what it takes for a number is exactly what the grammar derives |
| `Grammar.CompactIsBare` | internal/ocpp/message.go:105-110 | compaction writes a document without a blank |
| `Spelling.LiteralIff` | internal/ocpp/message.go:69-72 | a string literal is well formed exactly if each character is written as itself, by its letter, in four hexadecimal digits of either case or as a surrogate pair of such, and is then read as those characters, half a pair and an invalid byte as U+FFFD |
| `Spelling.AnySpellingReads` | internal/ocpp/message.go:55-98 | however the id and the action of a call are so written, ParseMessage reads that call |
| `Messages.ParseMessageIs` | internal/ocpp/message.go:55-98 | ParseMessage on any text: for an array in any layout, from its items, too short, bad type id, bad message id, short call, bad action, unknown type, or the message with the raw text of its payload, further items being ignored; too short for null; not an array otherwise |
| `Splitter.ElementsAgree` | internal/ocpp/message.go:55-63 | the splitter accepts exactly the texts that read as an array or null, in any layout, and its raw texts are those of the array's items |
| `Framing.QuoteParses` | internal/ocpp/message.go:105-123 | the %q form of a Go string is a JSON string exactly for quotable strings, and then denotes the string |
| `Framing.CallRoundTrip` | internal/ocpp/message.go:113-124 | MakeCall gives a frame exactly when id and action are quotable, and ParseMessage reads it back with the same type, id, action and payload value |
| `Framing.CallResultRoundTrip` | internal/ocpp/message.go:100-110 | the same for MakeCallResult |
| `Framing.AnyCallReads` | internal/ocpp/message.go:55-98 | for every id and action without invalid bytes, and any payload, there is a frame that ParseMessage reads as that call |
| `Framing.CallsAreClean` | internal/ocpp/message.go:55-98 | and no message it reads has an id or action that is not of this kind |
| `Gateway.Hub.ProcessCall` | cmd/wsgw/main.go:184-218 | the reply and topic each action is due: the time for BootNotification and Heartbeat, the new transaction id for StartTransaction, an empty payload for any other; the counter moves for StartTransaction only |
| `Gateway.IncreaseWraps` | cmd/wsgw/main.go:205-205 | the counter stays a signed 64-bit number, one more modulo 2^64 |
| `Gateway.Hub.OnRead` | cmd/wsgw/main.go:138-180 | what one frame leads to: nothing, a response, a response and an event, or the end of the connection |
| `Gateway.Hub.HandleOCPP` | cmd/wsgw/main.go:128-182 | the loop over any frames is the served trace, with the transaction ids of a connection alone on the gateway |
| `Gateway.TraceInvariant` | cmd/wsgw/main.go:128-251 | responses are one to one and in order with a prefix of the answerable calls, carry the reply their action is due, with the transaction id taken for that frame, and read back with their ids; events are in order those of the supported actions among them, each on its topic with an id of its own, that call's id, connector and payload, and the payload's time or else the gateway's; none before its response; only a failed write cuts the prefix short |
| `Gateway.AnsweredIff` | cmd/wsgw/main.go:138-180 | the frame of any such call is read as sent, and is answered, and published if its action is supported, if and only if its id is quotable and the response can be written; a call with another id is read and passed over, whatever its action |
| `Gateway.SilentIff` | cmd/wsgw/main.go:138-165 | a frame leads to nothing if and only if it is not read as a call with a quotable id |
| `Gateway.BellIsUnanswerable` | cmd/wsgw/main.go:157-161 | a call whose id is the bell character is read with that id, no response to it can be framed, and the loop writes and publishes nothing |
| `Connections.StepFollows` | cmd/wsgw/main.go:128-182 | among any other connections each one does what its loop alone would do with the transaction ids it gets |
| `Connections.IdsAreConsecutive` | cmd/wsgw/main.go:204-209 | over all interleavings the transaction ids handed out are exactly 1 to n in counter order, one per Start call read |
| `Connections.IdsDiffer` | cmd/wsgw/main.go:204-209 | two Start calls have the same id only if they are the same call, and the earlier one at the counter has the smaller |
| `Connections.StartRepliesDiffer` | cmd/wsgw/main.go:204-209 | every response on any connection answers a frame of its own with the reply it is due; it carries a transaction id exactly if that is a StartTransaction call, the one that frame took, between 1 and n; no two carry the same |
| `Lockstep.OneOutstandingCall` | cmd/cp-simulator/main.go:328-356 | in every run without a timeout at most one call is outstanding and each response taken carries the id of the call just sent |
| `Lockstep.MatchesIffAlone` | cmd/cp-simulator/main.go:328-356 | in every run with any timeouts, calls having distinct ids: a response taken is the answer to the call just sent if and only if no other call was outstanding when that one was sent; after one that is not, none ever is again |
| `Lockstep.TimeoutBreaksStep` | cmd/cp-simulator/main.go:338-355 | one schedule, for any two ids: with one timeout that the caller ignores the next call takes the late response |
| `Simulator.ChargeOnce` | cmd/cp-simulator/main.go:213-284 | one pass of the loop: heartbeat and pause when drawn, the pause not in the last two passes; power the exact fraction basePower (1 - 0.6 (soc - start) / (100 - start)), its fraction dropped, plus the jitter less 1000, at least 1000; energy up by power * interval / 3600, its fraction dropped, plus the jitter less 50, at least 10; charge up by 1 to 3 up to 80, then by 1, at most 100; and the reading carries them |
| `Simulator.ChargingLoop` | cmd/cp-simulator/main.go:213-287 | the loop is such passes from Preparing, Start and Charging on, and runs to its end or to the first unanswered reading |
| `Simulator.TrailUnique` | cmd/cp-simulator/main.go:213-284 | for given draws and clock there is only one such sequence of loop states |
| `Simulator.SimulateSession` | cmd/cp-simulator/main.go:152-326 | the calls sent are a prefix of the complete session, which is the passes and then Finishing, the Stop with the last energy, and Available; it completes exactly when the calls whose errors are returned are all answered, and stops at one that is not |
| `Simulator.CurveBounds` | cmd/cp-simulator/main.go:222-225 | the taper stays between 0.4 and 1, so the clamp at 0.2 is never used |
| `Simulator.PowerBounds` | cmd/cp-simulator/main.go:226-229 | power stays between 1000 and maxPower + 998 |
| `Simulator.LoopBounds` | cmd/cp-simulator/main.go:204-250 | for every draw and every number of passes: state of charge between its start and 100 and not decreasing, energy up by at least 10 a pass and, for an interval that is not negative, by at most max(10, (maxPower + 998) * interval / 3600 + 49), and equal to meterStart plus the increments |
| `Simulator.SessionShape` | cmd/cp-simulator/main.go:152-287 | up to its last reading a session is one Start, second in line, with status notifications and readings for the same connector, and the last reading carries the final energy |
| `Settled.BilledOnce` | cmd/state-processor/main.go:312-378 | a Start and its Stop, the last of their charger, add exactly one CDR, theirs, after any such run, if the charger's transaction lane is clean |
| `Settled.FlagCleared` | cmd/state-processor/main.go:345-351 | and leave the connector's flag false |
| `Settled.LastUpdateStays` | cmd/state-processor/main.go:242-304 | a status or meter event later than every earlier whole second of its connector has its fields in the hash at the end of any such run, if its lane is clean, even if earlier events of the same second were dropped |
| `EndToEnd.Published` | cmd/wsgw/main.go:128-251 | the gateway publishes one event per call of a session, in order, with the call's fields and time, the gateway's time for a payload without one |
| `EndToEnd.SessionEndToEnd` | cmd/cp-simulator/main.go:152-326 | for every random choice, a completed session of a clean charger that meets no transport failure adds, after any gentle drained run of an orderly log with unique event ids, exactly one CDR, with its connector and id tag, its energy that of the passes as drawn and at least 10 per reading, its times those of Start and Stop; at the end the flag is false, the status Available and the last reading equal to meter_stop |

## Left out

- `Confluence.Confluent`: says nothing about `last_seen`, which every topic writes without a guard and which does depend on the schedule (`Seen.LastSeenIsLastWritten` says what it is), nor, once keys have expired, about which dedup keys are left, which depends on the clock.
- `Delivery.ExactlyOnce`: an event redelivered after its own hour is applied again; for runs with such redeliveries `Dedup.OncePerHour` is what remains.
- `Processor.StateProcessor.HandleMessage`: a failing pipeline has executed a prefix of its commands; a server-side error in its middle after which Redis still executes the rest, and commands of a broken pipeline executed after the handler has returned, are not modelled.
- `EndToEnd.SessionEndToEnd`: the encoding of payloads into JSON fields is a parameter (`Speaks`): decoding finds the encoded fields of the session's own requests in any text with the same meaning; the stores start empty; a pairing record lives for less than its 24 hours, and a redelivery comes within the hour of its message.
- `ReadView.BuildChargerState`: reads one snapshot without errors; the code reads key by key while the processor writes, and skips what it cannot read. It names connector hashes by the member text, which is always a printed integer here.
- `Connectors.ConnectorsReplay`: excludes a measurand named "ts", whose field is `meter_ts` itself, and stored timestamps not written by the processor.
- `Framing.CallRoundTrip`: the nesting limit of encoding/json (10,000) is not modelled; a payload that deep can be written and not read back.
- `Simulator.ChargeOnce`: floating point is replaced by exact fractions; the rounding of the float64 product before its fraction is dropped, which can move power by 1 W, is not modelled.
- `Cdr.SessionsAreAdjacentPairs`: a Start record that expires after 24 hours, a failed pairing read and a failed insert lose their CDR; these runs are not gentle, and `Billing.BilledIff` says what they bill.
- `int(Sub(...).Seconds())` is exact truncation; its saturation near 292 years and the rounding of large float64 values are not modelled. INTEGER columns are unbounded here; a value PostgreSQL rejects is an insert fault.
- RFC 3339 text, time zones and years beyond 9999: only the floor to the second is kept. Unreadable stored text reads as the zero time.
- Several state-processor instances, consumer-group rebalancing, and Kafka, Redis, PostgreSQL and WebSocket clients themselves.
- `listSessions`, HTTP routing and method checks, metrics, logging, connect retries, signal handling, environment parsing, the dashboard.
- `chargerSession`'s boot and idle cycle, `hashID`, the model table and sleeping: no state worth a theorem; what the session needs of the clock is a hypothesis of the end-to-end result.
- The designs under architecture-documents, which the code does not implement.
