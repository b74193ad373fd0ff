/** The consumer: one reader per topic over Kafka partitions, all readers sharing one store, with
    commits that may fail, process crashes, and time passing. Every schedule is a list of labels;
    a label that is not enabled does nothing, so a theorem over all lists is one over all runs. */
module Machine {
  import opened Domain
  import opened Store
  import opened Handler

  /** What each partition holds. A log that is still being appended to is covered: a reader only
      ever looks at the record at its position. */
  type Logs = map<Part, seq<Record>>

  /** A reader and the record it fetched last. */
  datatype Reader = Reader(phase: Phase, part: Part, offset: nat)

  /** One setting of a dedup key: the SetNX of this event's handler created it at this time, whether or
      not the handler heard so. */
  datatype Entry = Entry(event: Event, at: Nanos)

  /** Bookkeeping about the run itself; no step of the program reads it. */
  datatype Tally = Tally(
    entries: seq<Entry>,
    entered: multiset<Event>,       // events whose handler set the dedup key
    applied: multiset<Event>,       // ... and then returned nil
    lost: multiset<Event>,          // ... or did not hear of it, failed or was cut short
    handed: set<(Part, nat)>,       // records given to the handler
    succeeded: set<(Part, nat)>,    // records for which it returned nil
    failed: set<(Part, nat)>,       // records for which it returned an error
    high: map<Part, nat>)           // per partition, one past the last record ever fetched

  datatype State = State(
    store: Store, clock: Nanos, ttl: map<Key, Nanos>,
    readers: map<Topic, Reader>, position: map<Part, nat>, committed: map<Part, nat>,
    tally: Tally)

  datatype Label =
    | Fetch(part: Part)                  // FetchMessage returns the next record of a partition
    | Do(topic: Topic, fault: Fault)     // the handler's next command, which may return an error
    | Commit(topic: Topic, ok: bool)     // CommitMessages, which may fail
    | Crash                              // the process dies and restarts from the committed offsets
    | Tick(elapsed: nat)                 // time passes; keys whose lifetime is over disappear

  const NO_TALLY := Tally([], multiset{}, multiset{}, multiset{}, {}, {}, {}, map[])

  function Init(s: Store, now: Nanos): State {
    State(s, now, map[], map[], map[], map[], NO_TALLY)
  }

  function ReaderOf(s: State, t: Topic): Reader {
    if t in s.readers then s.readers[t] else Reader(Idle, Part(t, 0), 0)
  }

  function PhaseOf(s: State, t: Topic): Phase {
    ReaderOf(s, t).phase
  }

  function Position(s: State, p: Part): nat {
    if p in s.position then s.position[p] else 0
  }

  function Committed(s: State, p: Part): nat {
    if p in s.committed then s.committed[p] else 0
  }

  function High(s: State, p: Part): nat {
    if p in s.tally.high then s.tally.high[p] else 0
  }

  predicate Available(logs: Logs, s: State, p: Part) {
    p in logs && Position(s, p) < |logs[p]|
  }

  // ---------------------------------------------------------------- steps

  /** The envelope decode is the handler's first act: garbage is an error, and the loop moves on. */
  function FetchStep(logs: Logs, s: State, p: Part): State
    requires Available(logs, s, p)
  {
    var i := Position(s, p);
    var r := logs[p][i];
    var tally := s.tally.(handed := s.tally.handed + {(p, i)},
                          high := if i + 1 > High(s, p) then s.tally.high[p := i + 1] else s.tally.high,
                          failed := if r.Garbage? then s.tally.failed + {(p, i)} else s.tally.failed);
    s.(position := s.position[p := i + 1], tally := tally,
       readers := s.readers[p.topic := Reader(if r.Rec? then AtDedup(r.event) else Idle, p, i)])
  }

  /** The lifetimes a command sets or ends: SetNX with one hour, EXPIRE of a key that is there, DEL. HSET
      keeps them. */
  function TtlAfter(ttl: map<Key, Nanos>, ph: Phase, s: Store, now: Nanos): map<Key, Nanos> {
    if ph.AtDedup? && ph.event.messageId !in s.locks then ttl[DedupKey(ph.event.messageId) := now + HOUR]
    else if ph.Writing? && ph.cmds != [] && ph.cmds[0].Expire? then
      if ph.cmds[0].key in s.hashes then ttl[ph.cmds[0].key := now + ph.cmds[0].after] else ttl
    else if ph.Writing? && ph.cmds != [] && ph.cmds[0].Del? then ttl - {ph.cmds[0].key}
    else ttl
  }

  /** The command is a SetNX that creates its key. */
  predicate SetsKey(ph: Phase, locks: set<string>, done: bool) {
    done && ph.AtDedup? && ph.event.messageId !in locks
  }

  function TallyAfter(y: Tally, ph: Phase, ph': Phase, enters: bool, at: (Part, nat), now: Nanos): Tally
    requires Busy(ph)
  {
    var e := ph.event;
    y.(entries := if enters then y.entries + [Entry(e, now)] else y.entries,
       entered := if enters then y.entered + multiset{e} else y.entered,
       applied := if InFlight(ph) && ph'.Handled? then y.applied + multiset{e} else y.applied,
       lost := if (InFlight(ph) || enters) && ph'.Idle? then y.lost + multiset{e} else y.lost,
       succeeded := if ph'.Handled? then y.succeeded + {at} else y.succeeded,
       failed := if ph'.Idle? then y.failed + {at} else y.failed)
  }

  /** The reader moves on to phase ph and the store becomes `store`; `done` says whether the server
      executed the command. */
  function Advance(s: State, t: Topic, ph: Phase, store: Store, done: bool): State
    requires Busy(PhaseOf(s, t))
  {
    var r := ReaderOf(s, t);
    s.(store := store, readers := s.readers[t := r.(phase := ph)],
       ttl := if done then TtlAfter(s.ttl, r.phase, s.store, s.clock) else s.ttl,
       tally := TallyAfter(s.tally, r.phase, ph, SetsKey(r.phase, s.store.locks, done),
                           (r.part, r.offset), s.clock))
  }

  function DoStep(s: State, t: Topic, fault: Fault): State
    requires Busy(PhaseOf(s, t))
  {
    var (ph, store) := Step(PhaseOf(s, t), s.store, fault);
    Advance(s, t, ph, store, !fault.Refused?)
  }

  function CommitStep(s: State, t: Topic, ok: bool): State
    requires PhaseOf(s, t).Handled?
  {
    var r := ReaderOf(s, t);
    s.(readers := s.readers[t := r.(phase := Idle)],
       committed := if ok then s.committed[r.part := r.offset + 1] else s.committed)
  }

  function Doomed(ph: Phase): multiset<Event> {
    if InFlight(ph) then multiset{ph.event} else multiset{}
  }

  /** The events whose handlers are between the dedup test and their end. */
  function Open(s: State): multiset<Event> {
    Doomed(PhaseOf(s, BootTopic)) + Doomed(PhaseOf(s, StatusTopic)) + Doomed(PhaseOf(s, MeterTopic))
    + Doomed(PhaseOf(s, TxTopic)) + Doomed(PhaseOf(s, HeartbeatTopic))
  }

  /** The stores and their clocks survive a crash of the processor; its own progress does not. */
  function CrashStep(s: State): State {
    s.(readers := map[], position := s.committed,
       tally := s.tally.(lost := s.tally.lost + Open(s)))
  }

  predicate Expired(ttl: map<Key, Nanos>, k: Key, now: Nanos) {
    k in ttl && ttl[k] <= now
  }

  /** A dedup key holds a string, every other key with a lifetime a hash. */
  function Purge(s: Store, ttl: map<Key, Nanos>, now: Nanos): Store {
    s.(hashes := map k | k in s.hashes && (k.DedupKey? || !Expired(ttl, k, now)) :: s.hashes[k],
       locks := set m | m in s.locks && !Expired(ttl, DedupKey(m), now))
  }

  function TickStep(s: State, d: nat): State {
    var now := s.clock + d;
    s.(clock := now, store := Purge(s.store, s.ttl, now),
       ttl := map k | k in s.ttl && !Expired(s.ttl, k, now) :: s.ttl[k])
  }

  predicate Enabled(logs: Logs, s: State, l: Label) {
    match l
    case Fetch(p) => PhaseOf(s, p.topic).Idle? && Available(logs, s, p)
    case Do(t, _) => Busy(PhaseOf(s, t))
    case Commit(t, _) => PhaseOf(s, t).Handled?
    case _ => true
  }

  function Next(logs: Logs, s: State, l: Label): State {
    if !Enabled(logs, s, l) then s
    else
      match l
      case Fetch(p) => FetchStep(logs, s, p)
      case Do(t, fault) => DoStep(s, t, fault)
      case Commit(t, ok) => CommitStep(s, t, ok)
      case Crash => CrashStep(s)
      case Tick(d) => TickStep(s, d)
  }

  /** What a label can make of one reader's phase. */
  lemma {:induction false} NextPhase(logs: Logs, s: State, lb: Label, t: Topic)
    ensures var ph, ph' := PhaseOf(s, t), PhaseOf(Next(logs, s, lb), t);
            || ph' == ph || ph'.Idle?
            || (lb.Do? && lb.topic == t && Busy(ph) && ph' == Step(ph, s.store, lb.fault).0)
            || (lb.Fetch? && lb.part.topic == t && Available(logs, s, lb.part)
                && logs[lb.part][Position(s, lb.part)].Rec?
                && ph' == AtDedup(logs[lb.part][Position(s, lb.part)].event))
  {
  }

  function Run(logs: Logs, s: State, ls: seq<Label>): State {
    if ls == [] then s else Next(logs, Run(logs, s, ls[..|ls| - 1]), ls[|ls| - 1])
  }

  lemma RunSnoc(logs: Logs, s: State, ls: seq<Label>, l: Label)
    ensures Run(logs, s, ls + [l]) == Next(logs, Run(logs, s, ls), l)
  {
    assert (ls + [l])[..|ls|] == ls;
  }

  lemma RunOf3More(logs: Logs, s: State, before: seq<Label>, a: Label, b: Label, c: Label)
    returns (ls: seq<Label>, s1: State, s2: State, s3: State)
    ensures s1 == Next(logs, Run(logs, s, before), a) && s2 == Next(logs, s1, b) && s3 == Next(logs, s2, c)
    ensures Run(logs, s, ls) == s3
  {
    RunSnoc(logs, s, before, a);
    RunSnoc(logs, s, before + [a], b);
    RunSnoc(logs, s, before + [a] + [b], c);
    ls := before + [a] + [b] + [c];
    s1 := Next(logs, Run(logs, s, before), a);
    s2 := Next(logs, s1, b);
    s3 := Next(logs, s2, c);
  }

  lemma RunOf4(logs: Logs, s: State, a: Label, b: Label, c: Label, d: Label)
    returns (ls: seq<Label>, s1: State, s2: State, s3: State, s4: State)
    ensures s1 == Next(logs, s, a) && s2 == Next(logs, s1, b) && s3 == Next(logs, s2, c) && s4 == Next(logs, s3, d)
    ensures Run(logs, s, ls) == s4
  {
    RunSnoc(logs, s, [], a);
    RunSnoc(logs, s, [] + [a], b);
    RunSnoc(logs, s, [] + [a] + [b], c);
    RunSnoc(logs, s, [] + [a] + [b] + [c], d);
    ls := [] + [a] + [b] + [c] + [d];
    s1 := Next(logs, s, a);
    s2 := Next(logs, s1, b);
    s3 := Next(logs, s2, c);
    s4 := Next(logs, s3, d);
  }

  // ---------------------------------------------------------------- what the producers guarantee

  ghost predicate Holds(logs: Logs, p: Part, i: nat, e: Event) {
    p in logs && i < |logs[p]| && logs[p][i] == Rec(e)
  }

  /** The gateway publishes every event to the topic of its type. */
  ghost predicate Routed(logs: Logs) {
    forall p, i, e :: Holds(logs, p, i, e) ==> TopicOf(e.body) == p.topic
  }

  /** Hash partitioning by charger: within a topic a charger's records share a partition. */
  ghost predicate Keyed(logs: Logs) {
    forall p, i, e, q, j, f ::
      (Holds(logs, p, i, e) && Holds(logs, q, j, f)
       && p.topic == q.topic && e.charger == f.charger)
      ==> p == q
  }

  /** Event ids are UUIDs: two records with the same one are the same event. */
  ghost predicate UniqueEventIds(logs: Logs) {
    forall p, i, e, q, j, f ::
      Holds(logs, p, i, e) && Holds(logs, q, j, f) && e.eventId == f.eventId ==> e == f
  }

  /** A topic and a charger: the unit within which Kafka keeps order. */
  datatype Lane = Lane(topic: Topic, charger: string)

  function LaneOf(e: Event): Lane {
    Lane(TopicOf(e.body), e.charger)
  }

  /** No other lane uses a message id or an event id of this one. */
  ghost predicate CleanLane(logs: Logs, l: Lane) {
    forall p, i, e, q, j, f ::
      (Holds(logs, p, i, e) && Holds(logs, q, j, f)
       && (e.messageId == f.messageId || e.eventId == f.eventId) && LaneOf(e) == l)
      ==> LaneOf(f) == l
  }

  ghost predicate CleanCharger(logs: Logs, charger: string) {
    forall t :: CleanLane(logs, Lane(t, charger))
  }

  /** No id is used by two lanes. */
  ghost predicate Confined(logs: Logs) {
    forall l :: CleanLane(logs, l)
  }

  /** The events of one charger in a stretch of one partition, in order. */
  function LaneLog(rs: seq<Record>, charger: string): seq<Event> {
    if rs == [] then []
    else
      var rest := LaneLog(rs[..|rs| - 1], charger);
      var r := rs[|rs| - 1];
      if r.Rec? && r.event.charger == charger then rest + [r.event] else rest
  }
}
