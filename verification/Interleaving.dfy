/** Interleaving and redelivery, while no key expires: after every step each lane is where it would
    be on its own, once its current handler has run to its end. */
module Interleaving {
  import opened Domain
  import opened Store
  import opened Handler
  import opened Machine
  import opened Progress
  import opened Sequential
  import opened Ownership

  /** No command fails, no key's lifetime ends, and the process dies only while every reader is
      between handlers: waiting for a message, or with its commit still due. Commits may fail. */
  ghost predicate AgelessStep(s: State, l: Label) {
    match l
    case Do(_, fault) => fault.Works?
    case Crash => forall t :: !Busy(PhaseOf(s, t))
    case Tick(d) => forall k :: k in s.ttl ==> s.clock + d < s.ttl[k]
    case _ => true
  }

  ghost predicate Ageless(logs: Logs, s: State, ls: seq<Label>) {
    ls == [] || (var before := ls[..|ls| - 1];
                 Ageless(logs, s, before) && AgelessStep(Run(logs, s, before), ls[|ls| - 1]))
  }

  ghost predicate Orderly(logs: Logs) {
    Routed(logs) && Keyed(logs)
  }

  // ---------------------------------------------------------------- lanes and their events

  ghost predicate HasLane(logs: Logs, p: Part, i: nat, l: Lane) {
    p in logs && i < |logs[p]| && logs[p][i].Rec? && LaneOf(logs[p][i].event) == l
  }

  ghost function HomePart(logs: Logs, l: Lane): Part {
    if exists p, i :: HasLane(logs, p, i, l) then
      var p, i: nat :| HasLane(logs, p, i, l);
      p
    else Part(l.topic, 0)
  }

  /** The lane's events among the first n records of its partition. */
  ghost function Upto(logs: Logs, l: Lane, n: nat): seq<Event> {
    var p := HomePart(logs, l);
    if p in logs && n <= |logs[p]| then LaneLog(logs[p][..n], l.charger) else []
  }

  /** All events of a lane, in order. */
  ghost function LaneEvents(logs: Logs, l: Lane): seq<Event> {
    var p := HomePart(logs, l);
    if p in logs then LaneLog(logs[p], l.charger) else []
  }

  /** The lane's events fetched so far, and the store they lead to when run alone. */
  ghost function Seen(logs: Logs, s: State, l: Lane): seq<Event> {
    Upto(logs, l, High(s, HomePart(logs, l)))
  }

  ghost function Solo(logs: Logs, s0: Store, s: State, l: Lane): Store {
    HandleSeq(s0, Seen(logs, s, l))
  }

  ghost function PhaseFor(s: State, l: Lane): Phase {
    var ph := PhaseOf(s, l.topic);
    if Busy(ph) && LaneOf(ph.event) == l then ph else Idle
  }

  /** The lane's store once its current handler, if any, has run to its end. */
  ghost function Ahead(s: State, l: Lane): Store {
    Finish(PhaseFor(s, l), s.store)
  }

  lemma MessageHome(logs: Logs, p: Part, i: nat, e: Event)
    requires Holds(logs, p, i, e)
    ensures var l := LaneOf(e);
            if CleanLane(logs, l) then MessageLane(logs, e.messageId) == l
            else !CleanLane(logs, MessageLane(logs, e.messageId))
  {
    assert UsesMessageId(logs, p, i, e.messageId);
    var l := MessageLane(logs, e.messageId);
    var q, j: nat :| UsesMessageId(logs, q, j, e.messageId) && LaneOf(logs[q][j].event) == l;
    assert Holds(logs, q, j, logs[q][j].event);
  }

  lemma EventIdHome(logs: Logs, p: Part, i: nat, e: Event)
    requires Holds(logs, p, i, e)
    ensures var l := LaneOf(e);
            if CleanLane(logs, l) then EventLane(logs, e.eventId) == l else !CleanLane(logs, EventLane(logs, e.eventId))
  {
    assert UsesEventId(logs, p, i, e.eventId);
    var l := EventLane(logs, e.eventId);
    var q, j: nat :| UsesEventId(logs, q, j, e.eventId) && LaneOf(logs[q][j].event) == l;
    assert Holds(logs, q, j, logs[q][j].event);
  }

  lemma EventHome(logs: Logs, p: Part, i: nat, e: Event)
    requires Orderly(logs) && Holds(logs, p, i, e)
    ensures EventIn(logs, e, LaneOf(e))
    ensures HomePart(logs, LaneOf(e)) == p && LaneOf(e).topic == p.topic
  {
    var l := LaneOf(e);
    MessageHome(logs, p, i, e);
    EventIdHome(logs, p, i, e);
    assert HasLane(logs, p, i, l);
    forall q, j: nat | HasLane(logs, q, j, l) ensures q == p {
      assert Holds(logs, q, j, logs[q][j].event);
    }
  }

  lemma HomeTopic(logs: Logs, l: Lane)
    requires Routed(logs)
    ensures HomePart(logs, l).topic == l.topic
  {
    forall q, j: nat | HasLane(logs, q, j, l) ensures q.topic == l.topic {
      assert Holds(logs, q, j, logs[q][j].event);
    }
  }

  // ---------------------------------------------------------------- the invariant

  ghost predicate ReaderIn(logs: Logs, s: State, t: Topic) {
    var ph := PhaseOf(s, t);
    Busy(ph) ==> LaneOf(ph.event).topic == t && PhaseIn(logs, LaneOf(ph.event), ph)
  }

  ghost predicate PhasesIn(logs: Logs, s: State) {
    forall t :: ReaderIn(logs, s, t)
  }

  /** The lane is where it would be on its own. */
  ghost predicate LaneInStep(logs: Logs, h: Store, a: Store, l: Lane) {
    Agree(logs, h, a, l) && Grows(logs, h, a)
  }

  ghost predicate InStep(logs: Logs, s0: Store, s: State) {
    forall l :: LaneInStep(logs, Solo(logs, s0, s, l), Ahead(s, l), l)
  }

  ghost predicate OnSomewhere(logs: Logs, s0: Store, s: State, x: Cell) {
    exists l :: On(Solo(logs, s0, s, l), x)
  }

  /** Nothing shared is on that no lane alone would switch on. */
  ghost predicate LaneNoneExtra(logs: Logs, s0: Store, s: State, l: Lane) {
    forall x :: HomeOf(logs, x) == Shared && On(Ahead(s, l), x) ==> OnSomewhere(logs, s0, s, x)
  }

  ghost predicate NoneExtra(logs: Logs, s0: Store, s: State) {
    forall l :: LaneNoneExtra(logs, s0, s, l)
  }

  ghost predicate Untouched(logs: Logs, s0: Store, a: Store) {
    forall x :: HomeOf(logs, x) == Shared ==> On(a, x) || Look(a, x) == Look(s0, x)
  }

  ghost predicate Inv(logs: Logs, s0: Store, s: State) {
    PhasesIn(logs, s) && Marks(logs, s) && InStep(logs, s0, s) && NoneExtra(logs, s0, s) && Untouched(logs, s0, s.store)
  }

  // ---------------------------------------------------------------- one lane, seen from the store

  /** Another lane moves the store from a to b. */
  lemma OtherMoves(logs: Logs, l: Lane, ph: Phase, h: Store, a: Store, b: Store)
    requires PhaseIn(logs, l, ph) && LaneInStep(logs, h, Finish(ph, a), l)
    requires Agree(logs, a, b, l) && Grows(logs, a, b)
    ensures LaneInStep(logs, h, Finish(ph, b), l)
    ensures forall x :: HomeOf(logs, x) == Shared && On(Finish(ph, b), x) ==> On(b, x) || On(Finish(ph, a), x)
  {
    FinishCong(logs, l, ph, a, b);
    FinishCong(logs, l, ph, b, a);
    FinishGrows(logs, l, ph, b);
  }

  /** The lane takes up an event. */
  lemma TakesUp(logs: Logs, l: Lane, e: Event, h: Store, a: Store)
    requires EventIn(logs, e, l) && LaneInStep(logs, h, a, l)
    ensures LaneInStep(logs, Handle(h, e), Finish(AtDedup(e), a), l)
    ensures Grows(logs, h, Handle(h, e))
    ensures forall x :: HomeOf(logs, x) == Shared && On(Finish(AtDedup(e), a), x) ==> On(a, x) || On(Handle(h, e), x)
  {
    FinishCong(logs, l, AtDedup(e), h, a);
    FinishCong(logs, l, AtDedup(e), a, h);
    FinishGrows(logs, l, AtDedup(e), a);
    FinishGrows(logs, l, AtDedup(e), h);
  }

  // ---------------------------------------------------------------- Do

  lemma DoStore(logs: Logs, s: State, t: Topic)
    requires PhasesIn(logs, s) && Busy(PhaseOf(s, t))
    ensures var s' := DoStep(s, t, Works); var le := LaneOf(PhaseOf(s, t).event);
            && PhaseIn(logs, le, PhaseOf(s', t)) && Ahead(s', le) == Ahead(s, le)
            && Grows(logs, s.store, s'.store) && Grows(logs, s'.store, Ahead(s', le))
            && (forall l :: l != le ==> Agree(logs, s.store, s'.store, l))
            && (forall x :: Look(s'.store, x) == Look(s.store, x) || MayTouch(logs, le, x, Look(s'.store, x)))
  {
    hide Step, TtlAfter, TallyAfter;
    var ph := PhaseOf(s, t);
    var le := LaneOf(ph.event);
    var s' := DoStep(s, t, Works);
    assert ReaderIn(logs, s, t);
    StepStaysIn(logs, le, ph, s.store, Works);
    StepFrame(logs, le, ph, s.store, Works);
    FinishGrows(logs, le, PhaseOf(s', t), s'.store);
    assert Finish(ph, s.store) == Finish(PhaseOf(s', t), s'.store);
  }

  lemma SomewhereKept(logs: Logs, s0: Store, s: State, s': State, x: Cell)
    requires OnSomewhere(logs, s0, s, x) && s'.tally.high == s.tally.high
    ensures OnSomewhere(logs, s0, s', x)
  {
    var l :| On(Solo(logs, s0, s, l), x);
    assert Solo(logs, s0, s', l) == Solo(logs, s0, s, l);
  }

  lemma DoOtherLane(logs: Logs, s0: Store, s: State, t: Topic, l: Lane)
    requires PhasesIn(logs, s) && InStep(logs, s0, s) && Busy(PhaseOf(s, t)) && l != LaneOf(PhaseOf(s, t).event)
    ensures var s' := DoStep(s, t, Works); var le := LaneOf(PhaseOf(s, t).event);
            && LaneInStep(logs, Solo(logs, s0, s, l), Ahead(s', l), l)
            && (forall x :: HomeOf(logs, x) == Shared && On(Ahead(s', l), x) ==>
                On(Ahead(s, le), x) || On(Ahead(s, l), x))
  {
    var s' := DoStep(s, t, Works);
    DoStore(logs, s, t);
    assert LaneInStep(logs, Solo(logs, s0, s, l), Ahead(s, l), l);
    assert ReaderIn(logs, s, l.topic);
    assert PhaseFor(s', l) == PhaseFor(s, l) && PhaseIn(logs, l, PhaseFor(s, l));
    OtherMoves(logs, l, PhaseFor(s, l), Solo(logs, s0, s, l), s.store, s'.store);
  }

  lemma DoLane(logs: Logs, s0: Store, s: State, t: Topic, l: Lane)
    requires PhasesIn(logs, s) && InStep(logs, s0, s) && NoneExtra(logs, s0, s) && Busy(PhaseOf(s, t))
    ensures var s' := DoStep(s, t, Works);
            && LaneInStep(logs, Solo(logs, s0, s', l), Ahead(s', l), l)
            && LaneNoneExtra(logs, s0, s', l)
  {
    var s' := DoStep(s, t, Works);
    var le := LaneOf(PhaseOf(s, t).event);
    assert LaneInStep(logs, Solo(logs, s0, s, l), Ahead(s, l), l);
    assert LaneNoneExtra(logs, s0, s, l) && LaneNoneExtra(logs, s0, s, le);
    if l != le {
      DoOtherLane(logs, s0, s, t, l);
    } else {
      DoStore(logs, s, t);
    }
    forall x | HomeOf(logs, x) == Shared && On(Ahead(s', l), x) ensures OnSomewhere(logs, s0, s', x) {
      SomewhereKept(logs, s0, s, s', x);
    }
  }

  lemma DoUntouched(logs: Logs, s0: Store, s: State, t: Topic)
    requires PhasesIn(logs, s) && Busy(PhaseOf(s, t)) && Untouched(logs, s0, s.store)
    ensures Untouched(logs, s0, DoStep(s, t, Works).store)
  {
    DoStore(logs, s, t);
  }

  lemma DoKeeps(logs: Logs, s0: Store, s: State, t: Topic)
    requires Inv(logs, s0, s) && Busy(PhaseOf(s, t))
    ensures Inv(logs, s0, DoStep(s, t, Works))
  {
    var s' := DoStep(s, t, Works);
    DoStore(logs, s, t);
    forall l ensures LaneInStep(logs, Solo(logs, s0, s', l), Ahead(s', l), l) && LaneNoneExtra(logs, s0, s', l) {
      DoLane(logs, s0, s, t, l);
    }
    DoUntouched(logs, s0, s, t);
    forall u ensures ReaderIn(logs, s', u) {
      assert ReaderIn(logs, s, u);
    }
    MarksKept(logs, s, Do(t, Works));
  }

  // ---------------------------------------------------------------- Fetch

  lemma {:induction false} InLaneLog(rs: seq<Record>, charger: string, i: nat)
    requires i < |rs| && rs[i].Rec? && rs[i].event.charger == charger
    ensures rs[i].event in LaneLog(rs, charger)
  {
    if i < |rs| - 1 {
      InLaneLog(rs[..|rs| - 1], charger, i);
    }
  }

  /** Fetching a record for the first time adds it to what its own lane has seen. */
  lemma FetchSeen(logs: Logs, s: State, p: Part, l: Lane)
    requires Orderly(logs) && Marks(logs, s) && Available(logs, s, p)
    ensures var s' := FetchStep(logs, s, p);
            var r := logs[p][Position(s, p)];
            var first := Position(s, p) == High(s, p) && r.Rec? && LaneOf(r.event) == l;
            Seen(logs, s', l) == if first then Seen(logs, s, l) + [r.event] else Seen(logs, s, l)
  {
    var s' := FetchStep(logs, s, p);
    var i := Position(s, p);
    var r := logs[p][i];
    if r.Rec? {
      EventHome(logs, p, i, r.event);
    }
    HomeTopic(logs, l);
    assert PartMarks(logs, s, p);
    if i == High(s, p) && HomePart(logs, l) == p {
      assert logs[p][..i + 1][..i] == logs[p][..i];
    }
  }

  lemma SeenLocked(logs: Logs, s0: Store, s: State, l: Lane, e: Event)
    requires CleanLane(logs, l) && EventIn(logs, e, l) && e in Seen(logs, s, l)
    requires LaneInStep(logs, Solo(logs, s0, s, l), s.store, l)
    ensures e.messageId in s.store.locks
  {
    var seen := Seen(logs, s, l);
    var j :| 0 <= j < |seen| && seen[j] == e;
    LocksAfter(s0, seen);
    hide CleanLane, Seen;
    assert HomeOf(logs, L(e.messageId)) == Owned(l);
    assert Look(Solo(logs, s0, s, l), L(e.messageId)) == Look(s.store, L(e.messageId));
  }

  lemma Refetch(logs: Logs, s0: Store, s: State, p: Part, l: Lane)
    requires Orderly(logs) && Inv(logs, s0, s) && Available(logs, s, p) && PhaseOf(s, p.topic).Idle?
    requires Position(s, p) < High(s, p) && logs[p][Position(s, p)].Rec?
    requires CleanLane(logs, l) && LaneOf(logs[p][Position(s, p)].event) == l
    ensures logs[p][Position(s, p)].event.messageId in s.store.locks
  {
    var i := Position(s, p);
    var e := logs[p][i].event;
    assert PartMarks(logs, s, p);
    EventHome(logs, p, i, e);
    InLaneLog(logs[p][..High(s, p)], l.charger, i);
    assert LaneInStep(logs, Solo(logs, s0, s, l), Ahead(s, l), l);
    hide Orderly, CleanLane, EventIn, LaneInStep, Inv, LaneLog;
    SeenLocked(logs, s0, s, l, e);
  }

  /** A lane that shares ids is done again or not; nothing that matters is touched. */
  lemma RefetchShared(logs: Logs, l: Lane, e: Event, h: Store, a: Store)
    requires !CleanLane(logs, l) && EventIn(logs, e, l) && LaneInStep(logs, h, a, l)
    ensures LaneInStep(logs, h, Finish(AtDedup(e), a), l)
    ensures forall x :: HomeOf(logs, x) == Shared && On(Finish(AtDedup(e), a), x) ==> On(a, x)
  {
    FinishGrows(logs, l, AtDedup(e), a);
    forall x ensures HomeOf(logs, x) != Owned(l) {
      NothingOwned(logs, l, x);
    }
  }

  lemma FetchLane(logs: Logs, s0: Store, s: State, p: Part, l: Lane)
    requires Orderly(logs) && Inv(logs, s0, s) && Available(logs, s, p) && PhaseOf(s, p.topic).Idle?
    ensures var s' := FetchStep(logs, s, p);
            && LaneInStep(logs, Solo(logs, s0, s', l), Ahead(s', l), l)
            && Grows(logs, Solo(logs, s0, s, l), Solo(logs, s0, s', l))
            && (forall x :: HomeOf(logs, x) == Shared && On(Ahead(s', l), x) ==>
                  On(Ahead(s, l), x) || On(Solo(logs, s0, s', l), x))
  {
    var s' := FetchStep(logs, s, p);
    var i := Position(s, p);
    var r := logs[p][i];
    FetchSeen(logs, s, p, l);
    assert LaneInStep(logs, Solo(logs, s0, s, l), Ahead(s, l), l);
    assert PartMarks(logs, s, p);
    if r.Rec? && LaneOf(r.event) == l {
      EventHome(logs, p, i, r.event);
      assert PhaseFor(s, l) == Idle && PhaseFor(s', l) == AtDedup(r.event);
      if i == High(s, p) {
        var seen := Seen(logs, s, l);
        assert (seen + [r.event])[..|seen|] == seen;
        TakesUp(logs, l, r.event, Solo(logs, s0, s, l), s.store);
      } else if CleanLane(logs, l) {
        Refetch(logs, s0, s, p, l);
        HandleIsApply(s.store, r.event);
      } else {
        RefetchShared(logs, l, r.event, Solo(logs, s0, s, l), s.store);
      }
    } else {
      assert PhaseFor(s', l) == PhaseFor(s, l);
    }
  }

  lemma FetchKeeps(logs: Logs, s0: Store, s: State, p: Part)
    requires Orderly(logs) && Inv(logs, s0, s) && Available(logs, s, p) && PhaseOf(s, p.topic).Idle?
    ensures Inv(logs, s0, FetchStep(logs, s, p))
  {
    var s' := FetchStep(logs, s, p);
    var i := Position(s, p);
    if logs[p][i].Rec? {
      EventHome(logs, p, i, logs[p][i].event);
    }
    forall l ensures LaneInStep(logs, Solo(logs, s0, s', l), Ahead(s', l), l) && LaneNoneExtra(logs, s0, s', l) {
      FetchLane(logs, s0, s, p, l);
      forall x | HomeOf(logs, x) == Shared && On(Ahead(s', l), x) ensures OnSomewhere(logs, s0, s', x) {
        if On(Ahead(s, l), x) {
          assert LaneNoneExtra(logs, s0, s, l) && OnSomewhere(logs, s0, s, x);
          var l' :| On(Solo(logs, s0, s, l'), x);
          FetchLane(logs, s0, s, p, l');
          assert On(Solo(logs, s0, s', l'), x);
        }
      }
    }
    forall t ensures ReaderIn(logs, s', t) {
      assert ReaderIn(logs, s, t);
    }
    MarksKept(logs, s, Fetch(p));
  }

  // ---------------------------------------------------------------- the other labels

  lemma QuietPurge(s: Store, ttl: map<Key, Nanos>, now: Nanos)
    requires forall k :: k in ttl ==> now < ttl[k]
    ensures Purge(s, ttl, now) == s
  {
    assert Purge(s, ttl, now).hashes == s.hashes;
    assert Purge(s, ttl, now).locks == s.locks;
  }

  lemma SameView(logs: Logs, s0: Store, s: State, s': State)
    requires InStep(logs, s0, s) && NoneExtra(logs, s0, s)
    requires s'.store == s.store && s'.tally.high == s.tally.high
    requires forall l :: PhaseFor(s', l) == PhaseFor(s, l)
    ensures InStep(logs, s0, s') && NoneExtra(logs, s0, s')
  {
    forall l ensures Solo(logs, s0, s', l) == Solo(logs, s0, s, l) && Ahead(s', l) == Ahead(s, l) {
    }
    forall l ensures LaneInStep(logs, Solo(logs, s0, s', l), Ahead(s', l), l) && LaneNoneExtra(logs, s0, s', l) {
      assert LaneInStep(logs, Solo(logs, s0, s, l), Ahead(s, l), l) && LaneNoneExtra(logs, s0, s, l);
      forall x | HomeOf(logs, x) == Shared && On(Ahead(s', l), x) ensures OnSomewhere(logs, s0, s', x) {
        SomewhereKept(logs, s0, s, s', x);
      }
    }
  }

  lemma CommitKeeps(logs: Logs, s0: Store, s: State, t: Topic, ok: bool)
    requires Inv(logs, s0, s) && PhaseOf(s, t).Handled?
    ensures Inv(logs, s0, CommitStep(s, t, ok))
  {
    var s' := CommitStep(s, t, ok);
    forall u ensures ReaderIn(logs, s', u) {
      assert ReaderIn(logs, s, u);
    }
    MarksKept(logs, s, Commit(t, ok));
    SameView(logs, s0, s, s');
  }

  lemma CrashKeeps(logs: Logs, s0: Store, s: State)
    requires Inv(logs, s0, s) && forall t :: !Busy(PhaseOf(s, t))
    ensures Inv(logs, s0, CrashStep(s))
  {
    MarksKept(logs, s, Crash);
    SameView(logs, s0, s, CrashStep(s));
  }

  lemma TickKeeps(logs: Logs, s0: Store, s: State, d: nat)
    requires Orderly(logs) && Inv(logs, s0, s) && AgelessStep(s, Tick(d))
    ensures Inv(logs, s0, TickStep(s, d))
  {
    QuietPurge(s.store, s.ttl, s.clock + d);
    forall t ensures ReaderIn(logs, TickStep(s, d), t) {
      assert ReaderIn(logs, s, t);
    }
    MarksKept(logs, s, Tick(d));
    SameView(logs, s0, s, TickStep(s, d));
  }

  lemma NextKeeps(logs: Logs, s0: Store, s: State, lb: Label)
    requires Orderly(logs) && Inv(logs, s0, s) && AgelessStep(s, lb)
    ensures Inv(logs, s0, Next(logs, s, lb))
  {
    hide Inv, Orderly, FetchStep, DoStep, CommitStep, CrashStep, TickStep;
    if Enabled(logs, s, lb) {
      match lb
      case Fetch(p) => FetchKeeps(logs, s0, s, p);
      case Do(t, _) => DoKeeps(logs, s0, s, t);
      case Commit(t, ok) => CommitKeeps(logs, s0, s, t, ok);
      case Crash => CrashKeeps(logs, s0, s);
      case Tick(d) => TickKeeps(logs, s0, s, d);
    }
  }

  lemma InitInv(logs: Logs, s0: Store, now: Nanos)
    ensures Inv(logs, s0, Init(s0, now))
  {
    var s := Init(s0, now);
    forall l ensures LaneInStep(logs, Solo(logs, s0, s, l), Ahead(s, l), l) && LaneNoneExtra(logs, s0, s, l) {
      assert Seen(logs, s, l) == [];
      forall x | HomeOf(logs, x) == Shared && On(Ahead(s, l), x) ensures OnSomewhere(logs, s0, s, x) {
        assert On(Solo(logs, s0, s, l), x);
      }
    }
  }

  lemma {:induction false} RunKeeps(logs: Logs, s0: Store, now: Nanos, ls: seq<Label>)
    requires Orderly(logs) && Ageless(logs, Init(s0, now), ls)
    ensures Inv(logs, s0, Run(logs, Init(s0, now), ls))
    decreases |ls|
  {
    if ls == [] {
      InitInv(logs, s0, now);
    } else {
      RunKeeps(logs, s0, now, ls[..|ls| - 1]);
      NextKeeps(logs, s0, Run(logs, Init(s0, now), ls[..|ls| - 1]), ls[|ls| - 1]);
    }
  }

  /** The rows of the two tables are never changed or removed. */
  ghost predicate Retains(a: Store, b: Store) {
    && (forall id :: id in a.history ==> id in b.history && b.history[id] == a.history[id])
    && (forall id :: id in a.sessions ==> id in b.sessions && b.sessions[id] == a.sessions[id])
  }

  lemma StepRetains(ph: Phase, s: Store, fault: Fault)
    ensures Retains(s, Step(ph, s, fault).1)
  {
    hide Plan;
  }

  lemma NextRetains(logs: Logs, s: State, l: Label)
    ensures Retains(s.store, Next(logs, s, l).store)
  {
    if l.Do? {
      StepRetains(PhaseOf(s, l.topic), s.store, l.fault);
    }
    hide Step, TallyAfter, TtlAfter, Open;
  }

  lemma {:induction false} RunRetains(logs: Logs, s: State, ls: seq<Label>)
    ensures Retains(s.store, Run(logs, s, ls).store)
    decreases |ls|
  {
    if ls != [] {
      var b, l := Run(logs, s, ls[..|ls| - 1]), ls[|ls| - 1];
      RunRetains(logs, s, ls[..|ls| - 1]);
      NextRetains(logs, b, l);
      hide Next;
    }
  }

  // ---------------------------------------------------------------- when everything is done

  /** Every record has been fetched and every handler has ended. */
  ghost predicate Drained(logs: Logs, s: State) {
    (forall p :: p in logs ==> High(s, p) == |logs[p]|) && (forall t :: !Busy(PhaseOf(s, t)))
  }

  lemma DrainedSolo(logs: Logs, s0: Store, s: State, l: Lane)
    requires Marks(logs, s) && Drained(logs, s)
    ensures Solo(logs, s0, s, l) == HandleSeq(s0, LaneEvents(logs, l))
    ensures Ahead(s, l) == s.store
  {
    var p := HomePart(logs, l);
    if p in logs {
      assert logs[p][..|logs[p]|] == logs[p];
    }
  }

  lemma DrainedShared(logs: Logs, s0: Store, s: State, x: Cell)
    requires Inv(logs, s0, s) && Drained(logs, s) && HomeOf(logs, x) == Shared
    ensures On(s.store, x) <==> exists l :: On(HandleSeq(s0, LaneEvents(logs, l)), x)
  {
    if On(s.store, x) {
      var any := Lane(BootTopic, "");
      DrainedSolo(logs, s0, s, any);
      assert LaneNoneExtra(logs, s0, s, any) && OnSomewhere(logs, s0, s, x);
      var l :| On(Solo(logs, s0, s, l), x);
      DrainedSolo(logs, s0, s, l);
      assert On(HandleSeq(s0, LaneEvents(logs, l)), x);
    }
    forall l | On(HandleSeq(s0, LaneEvents(logs, l)), x) ensures On(s.store, x) {
      DrainedSolo(logs, s0, s, l);
      assert LaneInStep(logs, Solo(logs, s0, s, l), Ahead(s, l), l);
    }
  }
}
