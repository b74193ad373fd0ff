/** Message ids are chosen by charge points, and the dedup key holds nothing else. What happens when two
    chargers choose the same one within an hour: the event that comes second is dropped. */
module Collision {
  import opened Domain
  import opened Store
  import opened Handler
  import opened Machine
  import opened Ownership
  import opened Interleaving
  import opened Dedup
  import opened Confluence
  import opened Delivery

  // ---------------------------------------------------------------- one schedule, step by step

  /** Two heartbeats with one message id, each alone in a partition of its topic. */
  predicate Rivals(logs: Logs, p: Part, e: Event, q: Part, f: Event) {
    && p != q && p.topic == q.topic == HeartbeatTopic && logs == map[p := [Rec(e)], q := [Rec(f)]]
    && e.body.Heartbeat? && f.body.Heartbeat? && e.messageId == f.messageId && e.eventId != f.eventId
  }

  /** What has been fetched and committed. */
  datatype Marks = Marks(handed: set<(Part, nat)>, fetched: map<Part, nat>, committed: map<Part, nat>)

  /** Where the heartbeat reader, the only one at work, stands, and what has been done; nothing has
      failed. */
  predicate Stands(s: State, r: Reader, store: Store, entered: multiset<Event>, applied: multiset<Event>, k: Marks) {
    && s.readers == map[HeartbeatTopic := r] && s.store == store
    && s.tally.entered == entered && s.tally.applied == applied
    && s.tally.lost == multiset{} && s.tally.failed == {}
    && s.tally.handed == k.handed && s.position == s.tally.high == k.fetched && s.committed == k.committed
  }

  lemma FetchFirst(logs: Logs, p: Part, e: Event, q: Part, f: Event)
    requires Rivals(logs, p, e, q, f)
    ensures Stands(Next(logs, Init(EMPTY, 0), Fetch(p)), Reader(AtDedup(e), p, 0), EMPTY, multiset{}, multiset{},
                   Marks({(p, 0)}, map[p := 1], map[]))
  {
  }

  lemma Enters(logs: Logs, s: State, p: Part, e: Event, k: Marks)
    requires Stands(s, Reader(AtDedup(e), p, 0), EMPTY, multiset{}, multiset{}, k)
    ensures Stands(Next(logs, s, GO), Reader(AtHistory(e), p, 0), Lock(EMPTY, e.messageId), multiset{e}, multiset{}, k)
  {
    assert PhaseOf(s, HeartbeatTopic) == AtDedup(e);
  }

  lemma Remembers(logs: Logs, s: State, p: Part, e: Event, store: Store, k: Marks)
    requires Stands(s, Reader(AtHistory(e), p, 0), store, multiset{e}, multiset{}, k)
    ensures Stands(Next(logs, s, GO), Reader(AtUpdate(e), p, 0), Remember(store, e), multiset{e}, multiset{}, k)
  {
    hide Remember;
    assert PhaseOf(s, HeartbeatTopic) == AtHistory(e);
  }

  function Write(e: Event): Cmd {
    HSet(ChargerKey(e.charger), SeenOnline(e))
  }

  lemma Decides(logs: Logs, s: State, p: Part, e: Event, store: Store, k: Marks)
    requires Stands(s, Reader(AtUpdate(e), p, 0), store, multiset{e}, multiset{}, k) && e.body.Heartbeat?
    ensures Stands(Next(logs, s, GO), Reader(Writing(e, [Write(e)]), p, 0), store, multiset{e}, multiset{}, k)
  {
    hide SeenOnline;
    assert PhaseOf(s, HeartbeatTopic) == AtUpdate(e);
  }

  lemma Writes(logs: Logs, s: State, p: Part, e: Event, store: Store, k: Marks)
    requires Stands(s, Reader(Writing(e, [Write(e)]), p, 0), store, multiset{e}, multiset{}, k)
    ensures Stands(Next(logs, s, GO), Reader(Handled(e), p, 0), Exec(store, Write(e)), multiset{e}, multiset{e}, k)
  {
    hide SeenOnline, Exec;
    assert PhaseOf(s, HeartbeatTopic) == Writing(e, [Write(e)]);
  }

  lemma Commits(logs: Logs, s: State, p: Part, e: Event, store: Store, y: multiset<Event>, k: Marks)
    requires Stands(s, Reader(Handled(e), p, 0), store, y, y, k)
    ensures Stands(Next(logs, s, DONE), Reader(Idle, p, 0), store, y, y, k.(committed := k.committed[p := 1]))
  {
    assert PhaseOf(s, HeartbeatTopic) == Handled(e);
  }

  lemma FetchSecond(logs: Logs, p: Part, e: Event, q: Part, f: Event, s: State, store: Store)
    requires Rivals(logs, p, e, q, f)
    requires Stands(s, Reader(Idle, p, 0), store, multiset{e}, multiset{e}, Marks({(p, 0)}, map[p := 1], map[p := 1]))
    ensures Stands(Next(logs, s, Fetch(q)), Reader(AtDedup(f), q, 0), store, multiset{e}, multiset{e},
                   Marks({(p, 0), (q, 0)}, map[p := 1, q := 1], map[p := 1]))
  {
  }

  lemma Drops(logs: Logs, s: State, q: Part, f: Event, store: Store, y: multiset<Event>, k: Marks)
    requires Stands(s, Reader(AtDedup(f), q, 0), store, y, y, k) && f.messageId in store.locks
    ensures Stands(Next(logs, s, GO), Reader(Handled(f), q, 0), store, y, y, k)
  {
    assert PhaseOf(s, HeartbeatTopic) == AtDedup(f);
  }

  /** What the event that comes first leaves. */
  function Left(e: Event): Store {
    Exec(Remember(Lock(EMPTY, e.messageId), e), Write(e))
  }

  // ---------------------------------------------------------------- the schedule is gentle

  lemma GentleSnoc(logs: Logs, s: State, ls: seq<Label>, l: Label)
    requires Gentle(logs, s, ls) && GentleStep(Run(logs, s, ls), l)
    ensures Gentle(logs, s, ls + [l]) && Run(logs, s, ls + [l]) == Next(logs, Run(logs, s, ls), l)
  {
    assert (ls + [l])[..|ls|] == ls;
  }

  lemma GoIsGentle(s: State, r: Reader, store: Store, entered: multiset<Event>, applied: multiset<Event>, k: Marks)
    requires Stands(s, r, store, entered, applied, k)
    requires r.phase.AtDedup? ==> entered == multiset{} || r.phase.event.messageId in store.locks
    ensures GentleStep(s, GO)
  {
    assert PhaseOf(s, HeartbeatTopic) == r.phase;
    if r.phase.AtDedup? && entered == multiset{} {
      assert !WasSet(s, r.phase.event.messageId);
    }
  }

  lemma QuietIsGentle(s: State, l: Label)
    requires l.Fetch? || l.Commit?
    ensures GentleStep(s, l)
  {
  }

  lemma First(logs: Logs, p: Part, e: Event, q: Part, f: Event) returns (ls: seq<Label>)
    requires Rivals(logs, p, e, q, f)
    ensures Gentle(logs, Init(EMPTY, 0), ls)
    ensures Stands(Run(logs, Init(EMPTY, 0), ls), Reader(Idle, p, 0), Left(e), multiset{e}, multiset{e},
                   Marks({(p, 0)}, map[p := 1], map[p := 1]))
  {
    var s0, k, none := Init(EMPTY, 0), Marks({(p, 0)}, map[p := 1], map[]), multiset{};
    var a, b := Lock(EMPTY, e.messageId), Remember(Lock(EMPTY, e.messageId), e);
    assert Gentle(logs, s0, []) && Run(logs, s0, []) == s0;
    hide Gentle, GentleStep, Run, Next, Stands, Init, Lock, Remember, Exec;
    ls := [];
    assert GentleStep(s0, Fetch(p)) by {
      QuietIsGentle(s0, Fetch(p));
    }
    GentleSnoc(logs, s0, ls, Fetch(p));
    FetchFirst(logs, p, e, q, f);
    ls := ls + [Fetch(p)];
    GoIsGentle(Run(logs, s0, ls), Reader(AtDedup(e), p, 0), EMPTY, none, none, k);
    GentleSnoc(logs, s0, ls, GO);
    Enters(logs, Run(logs, s0, ls), p, e, k);
    ls := ls + [GO];
    GoIsGentle(Run(logs, s0, ls), Reader(AtHistory(e), p, 0), a, multiset{e}, none, k);
    GentleSnoc(logs, s0, ls, GO);
    Remembers(logs, Run(logs, s0, ls), p, e, a, k);
    ls := ls + [GO];
    GoIsGentle(Run(logs, s0, ls), Reader(AtUpdate(e), p, 0), b, multiset{e}, none, k);
    GentleSnoc(logs, s0, ls, GO);
    Decides(logs, Run(logs, s0, ls), p, e, b, k);
    ls := ls + [GO];
    GoIsGentle(Run(logs, s0, ls), Reader(Writing(e, [Write(e)]), p, 0), b, multiset{e}, none, k);
    GentleSnoc(logs, s0, ls, GO);
    Writes(logs, Run(logs, s0, ls), p, e, b, k);
    ls := ls + [GO];
    QuietIsGentle(Run(logs, s0, ls), DONE);
    GentleSnoc(logs, s0, ls, DONE);
    Commits(logs, Run(logs, s0, ls), p, e, Left(e), multiset{e}, k);
    ls := ls + [DONE];
  }

  /** The heartbeat in partition p is handled first, then the one in q. */
  lemma FirstWins(logs: Logs, p: Part, e: Event, q: Part, f: Event) returns (ls: seq<Label>)
    requires Rivals(logs, p, e, q, f)
    ensures Gentle(logs, Init(EMPTY, 0), ls)
    ensures Stands(Run(logs, Init(EMPTY, 0), ls), Reader(Idle, q, 0), Left(e), multiset{e}, multiset{e},
                   Marks({(p, 0), (q, 0)}, map[p := 1, q := 1], map[p := 1, q := 1]))
  {
    var s0, k := Init(EMPTY, 0), Marks({(p, 0), (q, 0)}, map[p := 1, q := 1], map[p := 1]);
    assert f.messageId in Left(e).locks;
    hide Gentle, GentleStep, Run, Next, Stands, Init, Left;
    ls := First(logs, p, e, q, f);
    QuietIsGentle(Run(logs, s0, ls), Fetch(q));
    GentleSnoc(logs, s0, ls, Fetch(q));
    FetchSecond(logs, p, e, q, f, Run(logs, s0, ls), Left(e));
    ls := ls + [Fetch(q)];
    GoIsGentle(Run(logs, s0, ls), Reader(AtDedup(f), q, 0), Left(e), multiset{e}, multiset{e}, k);
    GentleSnoc(logs, s0, ls, GO);
    Drops(logs, Run(logs, s0, ls), q, f, Left(e), multiset{e}, k);
    ls := ls + [GO];
    QuietIsGentle(Run(logs, s0, ls), DONE);
    GentleSnoc(logs, s0, ls, DONE);
    Commits(logs, Run(logs, s0, ls), q, f, Left(e), multiset{e}, k);
    ls := ls + [DONE];
  }

  lemma Ends(logs: Logs, p: Part, e: Event, q: Part, f: Event, s: State)
    requires Rivals(logs, p, e, q, f)
    requires Stands(s, Reader(Idle, q, 0), Left(e), multiset{e}, multiset{e},
                    Marks({(p, 0), (q, 0)}, map[p := 1, q := 1], map[p := 1, q := 1]))
    ensures Drained(logs, s) && s.store.history == map[e.eventId := e]
    ensures forall t :: !Busy(PhaseOf(s, t))
  {
  }

  // ---------------------------------------------------------------- what it shows

  /** In a run in which nothing fails, the event was handed over and its offset committed, and it is
      neither applied nor in history. */
  ghost predicate Dropped(logs: Logs, ls: seq<Label>, q: Part, f: Event) {
    var s := Run(logs, Init(EMPTY, 0), ls);
    && Gentle(logs, Init(EMPTY, 0), ls) && (forall t :: !Busy(PhaseOf(s, t)))
    && Holds(logs, q, 0, f) && (q, 0) in s.tally.handed && Committed(s, q) == 1
    && s.tally.lost == multiset{} && s.tally.failed == {}
    && f !in s.tally.applied && f.eventId !in s.store.history
  }

  lemma SecondIsDropped(logs: Logs, p: Part, e: Event, q: Part, f: Event) returns (ls: seq<Label>)
    requires Rivals(logs, p, e, q, f)
    ensures Dropped(logs, ls, q, f)
  {
    ls := FirstWins(logs, p, e, q, f);
    hide Gentle, Run, Init, Left;
    Ends(logs, p, e, q, f, Run(logs, Init(EMPTY, 0), ls));
  }

  /** A third way to lose an event, with no fault, no crash and nothing late: a handler of another
      event has set the key of its message id. Any two such events will do. */
  lemma CollisionLosesEvent(e: Event, f: Event)
    requires e.body.Heartbeat? && f.body.Heartbeat? && e.messageId == f.messageId && e.eventId != f.eventId
    ensures exists logs, ls, q :: Dropped(logs, ls, q, f)
  {
    var p, q := Part(HeartbeatTopic, 0), Part(HeartbeatTopic, 1);
    var logs: Logs := map[p := [Rec(e)], q := [Rec(f)]];
    hide Dropped;
    var ls := SecondIsDropped(logs, p, e, q, f);
  }

  lemma ProperLog(logs: Logs, p: Part, e: Event, q: Part, f: Event)
    requires Rivals(logs, p, e, q, f) && e.charger != f.charger
    ensures Routed(logs) && Keyed(logs) && UniqueEventIds(logs) && !Confined(logs)
  {
    assert Holds(logs, p, 0, e) && Holds(logs, q, 0, f);
    forall r, i, g | Holds(logs, r, i, g) ensures (r == p && g == e) || (r == q && g == f) {
    }
    assert LaneOf(e) != LaneOf(f);
    assert !CleanLane(logs, LaneOf(e));
  }

  /** One run of the log, ending with the history of the event that came first. */
  ghost predicate EndsWith(logs: Logs, ls: seq<Label>, e: Event) {
    && Gentle(logs, Init(EMPTY, 0), ls) && Drained(logs, Run(logs, Init(EMPTY, 0), ls))
    && Run(logs, Init(EMPTY, 0), ls).store.history == map[e.eventId := e]
  }

  lemma OneRun(logs: Logs, p: Part, e: Event, q: Part, f: Event) returns (ls: seq<Label>)
    requires Rivals(logs, p, e, q, f)
    ensures EndsWith(logs, ls, e)
  {
    ls := FirstWins(logs, p, e, q, f);
    hide Run, Gentle, Stands;
    Ends(logs, p, e, q, f, Run(logs, Init(EMPTY, 0), ls));
  }

  /** So what a run leaves does depend on the schedule when lanes share a message id: one log, routed
      and keyed as it should be and with unique event ids, and two gentle drained runs of it that end
      with different histories. */
  lemma ConfinedIsNeeded(e: Event, f: Event)
    requires e.body.Heartbeat? && f.body.Heartbeat? && e.messageId == f.messageId && e.eventId != f.eventId
    requires e.charger != f.charger
    ensures exists logs, lsA, lsB ::
              && Routed(logs) && Keyed(logs) && UniqueEventIds(logs) && !Confined(logs)
              && EndsWith(logs, lsA, e) && EndsWith(logs, lsB, f)
  {
    var p, q := Part(HeartbeatTopic, 0), Part(HeartbeatTopic, 1);
    var logs: Logs := map[p := [Rec(e)], q := [Rec(f)]];
    assert logs == map[q := [Rec(f)], p := [Rec(e)]];
    hide EndsWith, Routed, Keyed, UniqueEventIds, Confined;
    ProperLog(logs, p, e, q, f);
    var lsA := OneRun(logs, p, e, q, f);
    var lsB := OneRun(logs, q, f, p, e);
  }
}
