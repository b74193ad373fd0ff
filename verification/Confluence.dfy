/** Interleaving and redelivery do not matter: after any run in which handlers are not cut short,
    the stores hold what each lane produces when run alone. Dedup keys may expire on the way, as
    long as no message comes back after its own has. */
module Confluence {
  import opened Domain
  import opened Store
  import opened Handler
  import opened Machine
  import opened Progress
  import opened Sequential
  import opened Ownership
  import opened Dedup
  import opened Interleaving

  // ---------------------------------------------------------------- runs of any length

  /** No handler of any event has set the key of this id yet, or the key is still there. */
  ghost predicate FindsKey(s: State, m: string) {
    WasSet(s, m) ==> m in s.store.locks
  }

  /** No handler of this event has set its key yet, or the key is still there. */
  predicate FindsOwnKey(s: State, e: Event) {
    e in s.tally.entered ==> e.messageId in s.store.locks
  }

  /** No command fails, the process dies only while every reader is between handlers, and an event
      that is delivered again comes before the key its own handler set has expired. Commits may fail,
      and time may pass and keys expire as they will. */
  ghost predicate SteadyStep(s: State, l: Label) {
    match l
    case Do(t, fault) => fault.Works? && (PhaseOf(s, t).AtDedup? ==> FindsOwnKey(s, PhaseOf(s, t).event))
    case Crash => forall t :: !Busy(PhaseOf(s, t))
    case _ => true
  }

  /** And the same of any other event with its message id; and no pairing record reaches the end of its
      24 hours. */
  ghost predicate GentleStep(s: State, l: Label) {
    && SteadyStep(s, l)
    && (l.Do? && PhaseOf(s, l.topic).AtDedup? ==> FindsKey(s, PhaseOf(s, l.topic).event.messageId))
    && (l.Tick? ==> forall k :: k in s.ttl && !k.DedupKey? ==> s.clock + l.elapsed < s.ttl[k])
  }

  ghost predicate Steady(logs: Logs, s: State, ls: seq<Label>) {
    ls == [] || (var before := ls[..|ls| - 1];
                 Steady(logs, s, before) && SteadyStep(Run(logs, s, before), ls[|ls| - 1]))
  }

  ghost predicate Gentle(logs: Logs, s: State, ls: seq<Label>) {
    ls == [] || (var before := ls[..|ls| - 1];
                 Gentle(logs, s, before) && GentleStep(Run(logs, s, before), ls[|ls| - 1]))
  }

  lemma {:induction false} GentleIsSteady(logs: Logs, s: State, ls: seq<Label>)
    requires Gentle(logs, s, ls)
    ensures Steady(logs, s, ls)
    decreases |ls|
  {
    if ls != [] {
      GentleIsSteady(logs, s, ls[..|ls| - 1]);
    }
  }

  /** The run with its clock stopped. */
  function Stopped(ls: seq<Label>): seq<Label> {
    if ls == [] then []
    else
      var before := Stopped(ls[..|ls| - 1]);
      if ls[|ls| - 1].Tick? then before else before + [ls[|ls| - 1]]
  }

  /** A state, and the one the same run reaches with its clock stopped: all that differs is the time
      and the dedup keys that have expired since. */
  ghost predicate Mirrors(s0: Store, s: State, c: State) {
    && s.readers == c.readers && s.position == c.position && s.committed == c.committed
    && s.store == c.store.(locks := s.store.locks)
    && s.tally == c.tally.(entries := s.tally.entries)
    && s.store.locks <= c.store.locks
    && forall m :: m in c.store.locks ==> m in s0.locks || WasSet(s, m)
  }

  lemma MirrorTick(s0: Store, s: State, c: State, d: nat)
    requires Mirrors(s0, s, c) && GentleStep(s, Tick(d))
    ensures Mirrors(s0, TickStep(s, d), c)
  {
    assert Purge(s.store, s.ttl, s.clock + d).hashes == s.store.hashes;
  }

  ghost predicate StepMirrors(a: Store, b: Store, ra: (Phase, Store), rb: (Phase, Store)) {
    && ra.0 == rb.0
    && ra.1 == rb.1.(locks := ra.1.locks)
  }

  lemma PlanMirrors(e: Event, a: Store, b: Store)
    requires a == b.(locks := a.locks)
    ensures Plan(e, a, false) == Plan(e, b, false)
  {
    hide StopCmds, StartCmds, ConnCmds, Stale, StatusFields, MeterFields, BootFields;
  }

  lemma ExecMirrors(c: Cmd, a: Store, b: Store)
    requires a == b.(locks := a.locks)
    ensures Exec(a, c) == Exec(b, c).(locks := a.locks) && Exec(b, c).locks == b.locks
  {
  }

  lemma StepLocks(ph: Phase, a: Store)
    ensures var a' := Step(ph, a, Works).1;
            a'.locks == if SetsKey(ph, a.locks, true) then a.locks + {ph.event.messageId} else a.locks
  {
    hide Plan;
  }

  lemma MirrorStep(ph: Phase, a: Store, b: Store)
    requires a == b.(locks := a.locks)
    requires ph.AtDedup? ==> (ph.event.messageId in a.locks <==> ph.event.messageId in b.locks)
    ensures StepMirrors(a, b, Step(ph, a, Works), Step(ph, b, Works))
  {
    hide Plan, Exec;
    match ph
    case AtUpdate(e) => PlanMirrors(e, a, b);
    case Writing(e, cmds) =>
      if cmds != [] {
        ExecMirrors(cmds[0], a, b);
      }
    case _ =>
  }

  lemma KeyKnown(s0: Store, s: State, c: State, m: string)
    requires Mirrors(s0, s, c) && FindsKey(s, m) && s0.locks <= s.store.locks
    ensures m in s.store.locks <==> m in c.store.locks
  {
  }

  /** Both sides move to the same phase, and both set the key or neither does. */
  lemma MirrorAdvance(s0: Store, s: State, c: State, t: Topic, ph: Phase, a: Store, b: Store)
    requires Mirrors(s0, s, c) && Busy(PhaseOf(s, t)) && a == b.(locks := a.locks)
    requires SetsKey(PhaseOf(s, t), s.store.locks, true) == SetsKey(PhaseOf(s, t), c.store.locks, true)
    requires var ms := if SetsKey(PhaseOf(s, t), s.store.locks, true) then {PhaseOf(s, t).event.messageId} else {};
             a.locks == s.store.locks + ms && b.locks == c.store.locks + ms
    ensures Mirrors(s0, Advance(s, t, ph, a, true), Advance(c, t, ph, b, true))
  {
    hide TtlAfter, SetsKey, InFlight;
  }

  lemma MirrorDo(s0: Store, s: State, c: State, t: Topic)
    requires Mirrors(s0, s, c) && Busy(PhaseOf(s, t)) && GentleStep(s, Do(t, Works)) && s0.locks <= s.store.locks
    ensures Mirrors(s0, DoStep(s, t, Works), DoStep(c, t, Works))
  {
    var ph := PhaseOf(s, t);
    assert PhaseOf(c, t) == ph;
    if ph.AtDedup? {
      KeyKnown(s0, s, c, ph.event.messageId);
    }
    MirrorStep(ph, s.store, c.store);
    StepLocks(ph, s.store);
    StepLocks(ph, c.store);
    assert SetsKey(ph, s.store.locks, true) == SetsKey(ph, c.store.locks, true);
    hide Step, Mirrors, Advance, SetsKey, GentleStep;
    MirrorAdvance(s0, s, c, t, Step(ph, s.store, Works).0, Step(ph, s.store, Works).1, Step(ph, c.store, Works).1);
  }

  lemma MirrorFetch(logs: Logs, s0: Store, s: State, c: State, p: Part)
    requires Mirrors(s0, s, c) && Available(logs, s, p)
    ensures Mirrors(s0, FetchStep(logs, s, p), FetchStep(logs, c, p))
  {
  }

  lemma MirrorCommit(s0: Store, s: State, c: State, t: Topic, ok: bool)
    requires Mirrors(s0, s, c) && PhaseOf(s, t).Handled?
    ensures Mirrors(s0, CommitStep(s, t, ok), CommitStep(c, t, ok))
  {
  }

  lemma MirrorCrash(s0: Store, s: State, c: State)
    requires Mirrors(s0, s, c)
    ensures Mirrors(s0, CrashStep(s), CrashStep(c))
  {
    assert forall t :: PhaseOf(c, t) == PhaseOf(s, t);
  }

  lemma MirrorNext(logs: Logs, s0: Store, s: State, c: State, l: Label)
    requires Mirrors(s0, s, c) && GentleStep(s, l) && s0.locks <= s.store.locks
    ensures Mirrors(s0, Next(logs, s, l), if l.Tick? then c else Next(logs, c, l))
    ensures !l.Tick? ==> AgelessStep(c, l)
  {
    assert forall t :: PhaseOf(c, t) == PhaseOf(s, t);
    assert forall p :: Available(logs, c, p) == Available(logs, s, p);
    hide Mirrors, DoStep, TickStep, CrashStep, FetchStep, CommitStep;
    match l
    case Do(t, _) =>
      if Busy(PhaseOf(s, t)) {
        MirrorDo(s0, s, c, t);
      }
    case Tick(d) => MirrorTick(s0, s, c, d);
    case Fetch(p) =>
      if Available(logs, s, p) {
        MirrorFetch(logs, s0, s, c, p);
      }
    case Commit(t, ok) =>
      if PhaseOf(s, t).Handled? {
        MirrorCommit(s0, s, c, t, ok);
      }
    case Crash => MirrorCrash(s0, s, c);
  }

  lemma MirrorInit(s0: Store, now: Nanos)
    ensures Mirrors(s0, Init(s0, now), Init(s0, now))
  {
  }

  lemma KeysStay(s0: Store, s: State)
    requires DedupInv(s0, s)
    ensures s0.locks <= s.store.locks
  {
    forall m | m in s0.locks ensures m in s.store.locks {
      assert Owed(s0, s, m);
    }
  }

  /** A gentle run does what the same run does with its clock stopped, where nothing expires. */
  lemma {:induction false} GentleIsStopped(logs: Logs, s0: Store, now: Nanos, ls: seq<Label>)
    requires Gentle(logs, Init(s0, now), ls)
    ensures Ageless(logs, Init(s0, now), Stopped(ls))
    ensures Mirrors(s0, Run(logs, Init(s0, now), ls), Run(logs, Init(s0, now), Stopped(ls)))
    decreases |ls|
  {
    hide Mirrors, GentleStep, AgelessStep, Next;
    var s := Init(s0, now);
    if ls == [] {
      assert Mirrors(s0, s, s) by {
        hide *;
        MirrorInit(s0, now);
      }
    } else {
      var before, l := ls[..|ls| - 1], ls[|ls| - 1];
      GentleIsStopped(logs, s0, now, before);
      HourApart(logs, s0, now, before);
      KeysStay(s0, Run(logs, s, before));
      MirrorNext(logs, s0, Run(logs, s, before), Run(logs, s, Stopped(before)), l);
      if !l.Tick? {
        assert Stopped(ls)[..|Stopped(ls)| - 1] == Stopped(before);
      }
    }
  }

  lemma KeysKept(logs: Logs, s: State, l: Label, m: string)
    requires AgelessStep(s, l) && FindsKey(s, m)
    ensures FindsKey(Next(logs, s, l), m)
  {
    var s' := Next(logs, s, l);
    if l.Tick? {
      QuietPurge(s.store, s.ttl, s.clock + l.elapsed);
    } else if l.Do? && Busy(PhaseOf(s, l.topic)) {
      StepLocks(PhaseOf(s, l.topic), s.store);
      hide Step;
    }
    if e :| e in s'.tally.entered && e.messageId == m {
      assert e in s.tally.entered ==> WasSet(s, m);
    }
  }

  /** A run in which nothing expires is gentle. */
  lemma {:induction false} AgelessIsGentle(logs: Logs, s0: Store, now: Nanos, ls: seq<Label>)
    requires Ageless(logs, Init(s0, now), ls)
    ensures Gentle(logs, Init(s0, now), ls)
    ensures forall m :: FindsKey(Run(logs, Init(s0, now), ls), m)
    decreases |ls|
  {
    if ls != [] {
      var s := Run(logs, Init(s0, now), ls[..|ls| - 1]);
      AgelessIsGentle(logs, s0, now, ls[..|ls| - 1]);
      var s' := Next(logs, s, ls[|ls| - 1]);
      forall m ensures FindsKey(s', m) {
        KeysKept(logs, s, ls[|ls| - 1], m);
      }
      forall e ensures FindsOwnKey(s, e) {
        assert FindsKey(s, e.messageId);
      }
    }
  }

  // ---------------------------------------------------------------- the merge of the lanes

  /** Equal on the lane's cells, dedup keys aside. */
  ghost predicate SameData(logs: Logs, a: Store, b: Store, l: Lane) {
    forall x :: HomeOf(logs, x) == Owned(l) && !x.L? ==> Look(a, x) == Look(b, x)
  }

  /** The contents of a store are those of its lanes run alone, each on its own events only: of every
      lane that shares no id with another one, and what is shared among the lanes of a charger of which
      none does. Of the dedup keys, which come and go with the clock, there is none that the lanes do
      not set. */
  ghost predicate MergeOfLanes(logs: Logs, s0: Store, a: Store) {
    && (forall l :: SameData(logs, a, HandleSeq(s0, LaneEvents(logs, l)), l))
    && (forall x :: HomeOf(logs, x) == Shared ==>
          && (On(a, x) <==> exists l :: On(HandleSeq(s0, LaneEvents(logs, l)), x))
          && (!On(a, x) ==> Look(a, x) == Look(s0, x)))
    && (forall m :: m in a.locks && HomeOf(logs, L(m)).Owned? ==>
          m in HandleSeq(s0, LaneEvents(logs, MessageLane(logs, m))).locks)
  }

  /** While no key expires the dedup keys, too, are those of the lanes. */
  ghost predicate KeysOfLanes(logs: Logs, s0: Store, a: Store) {
    forall m :: HomeOf(logs, L(m)).Owned? ==>
      (m in a.locks <==> m in HandleSeq(s0, LaneEvents(logs, MessageLane(logs, m))).locks)
  }

  lemma AgelessMerge(logs: Logs, s0: Store, now: Nanos, ls: seq<Label>)
    requires Orderly(logs) && Ageless(logs, Init(s0, now), ls)
    requires Drained(logs, Run(logs, Init(s0, now), ls))
    ensures MergeOfLanes(logs, s0, Run(logs, Init(s0, now), ls).store)
    ensures KeysOfLanes(logs, s0, Run(logs, Init(s0, now), ls).store)
  {
    var s := Run(logs, Init(s0, now), ls);
    RunKeeps(logs, s0, now, ls);
    forall l ensures Agree(logs, s.store, HandleSeq(s0, LaneEvents(logs, l)), l) {
      DrainedSolo(logs, s0, s, l);
      assert LaneInStep(logs, Solo(logs, s0, s, l), Ahead(s, l), l);
    }
    forall m | HomeOf(logs, L(m)).Owned?
      ensures m in s.store.locks <==> m in HandleSeq(s0, LaneEvents(logs, MessageLane(logs, m))).locks
    {
      var l := MessageLane(logs, m);
      assert HomeOf(logs, L(m)) == Owned(l);
      assert Look(s.store, L(m)) == Look(HandleSeq(s0, LaneEvents(logs, l)), L(m));
    }
    forall x | HomeOf(logs, x) == Shared
      ensures On(s.store, x) <==> exists l :: On(HandleSeq(s0, LaneEvents(logs, l)), x)
      ensures !On(s.store, x) ==> Look(s.store, x) == Look(s0, x)
    {
      DrainedShared(logs, s0, s, x);
    }
  }

  lemma MirrorMerge(logs: Logs, s0: Store, s: State, c: State)
    requires Mirrors(s0, s, c) && MergeOfLanes(logs, s0, c.store)
    ensures MergeOfLanes(logs, s0, s.store)
  {
    forall x: Cell | !x.L? ensures Look(s.store, x) == Look(c.store, x) {
    }
    forall x | HomeOf(logs, x) == Shared ensures On(s.store, x) <==> On(c.store, x) {
    }
  }

  /** Five interleaved readers, failed commits, restarts, redeliveries and expiring dedup keys
      together do exactly what the lanes do one at a time. */
  lemma RunsAreMerges(logs: Logs, s0: Store, now: Nanos, ls: seq<Label>)
    requires Orderly(logs) && Gentle(logs, Init(s0, now), ls)
    requires Drained(logs, Run(logs, Init(s0, now), ls))
    ensures MergeOfLanes(logs, s0, Run(logs, Init(s0, now), ls).store)
  {
    var s, c := Run(logs, Init(s0, now), ls), Run(logs, Init(s0, now), Stopped(ls));
    GentleIsStopped(logs, s0, now, ls);
    assert Drained(logs, c) by {
      assert forall t :: PhaseOf(c, t) == PhaseOf(s, t);
      assert forall p :: High(c, p) == High(s, p);
    }
    AgelessMerge(logs, s0, now, Stopped(ls));
    MirrorMerge(logs, s0, s, c);
  }

  // ---------------------------------------------------------------- confluence

  /** Two logs that give every lane the same events in the same order; partition numbers and the
      mixing of different chargers within a partition may differ. */
  ghost predicate SameLanes(a: Logs, b: Logs) {
    forall l :: LaneEvents(a, l) == LaneEvents(b, l)
  }

  lemma {:induction false} FromLaneLog(rs: seq<Record>, charger: string, e: Event) returns (i: nat)
    requires e in LaneLog(rs, charger)
    ensures i < |rs| && rs[i] == Rec(e)
  {
    var r := rs[|rs| - 1];
    if r == Rec(e) {
      i := |rs| - 1;
    } else {
      i := FromLaneLog(rs[..|rs| - 1], charger, e);
    }
  }

  lemma AlsoIn(a: Logs, b: Logs, p: Part, i: nat, e: Event) returns (q: Part, j: nat)
    requires Orderly(a) && SameLanes(a, b) && Holds(a, p, i, e)
    ensures Holds(b, q, j, e)
  {
    EventHome(a, p, i, e);
    InLaneLog(a[p], e.charger, i);
    assert e in LaneEvents(b, LaneOf(e));
    q := HomePart(b, LaneOf(e));
    j := FromLaneLog(b[q], e.charger, e);
  }

  lemma SameLanesBack(a: Logs, b: Logs)
    requires SameLanes(a, b)
    ensures SameLanes(b, a)
  {
  }

  lemma SameClean(a: Logs, b: Logs, l: Lane)
    requires Orderly(a) && Orderly(b) && SameLanes(a, b) && CleanLane(a, l)
    ensures CleanLane(b, l)
  {
    hide SameLanes, Orderly;
    forall p, i: nat, e, q, j: nat, f |
      (Holds(b, p, i, e) && Holds(b, q, j, f) && (e.messageId == f.messageId || e.eventId == f.eventId)
       && LaneOf(e) == l)
      ensures LaneOf(f) == l
    {
      var p', i' := AlsoIn(b, a, p, i, e) by {
        SameLanesBack(a, b);
      }
      var q', j' := AlsoIn(b, a, q, j, f) by {
        SameLanesBack(a, b);
      }
    }
  }

  lemma SameOwned(a: Logs, b: Logs, l: Lane)
    requires Orderly(a) && Orderly(b) && SameLanes(a, b)
    ensures OwnedBy(a, l) == OwnedBy(b, l)
  {
    SameLanesBack(a, b);
    hide SameLanes, Orderly;
    if CleanLane(a, l) {
      SameClean(a, b, l);
    }
    if CleanLane(b, l) {
      SameClean(b, a, l);
    }
  }

  lemma SameSharedIn(a: Logs, b: Logs, c: string)
    requires Orderly(a) && Orderly(b) && SameLanes(a, b)
    ensures SharedIn(a, c) == SharedIn(b, c)
  {
    hide SameLanes, Orderly, CleanLane;
    forall t ensures CleanLane(a, Lane(t, c)) <==> CleanLane(b, Lane(t, c)) {
      SameOwned(a, b, Lane(t, c));
    }
  }

  lemma SameMessageHome(a: Logs, b: Logs, m: string)
    requires Orderly(a) && Orderly(b) && SameLanes(a, b)
    requires exists p, i :: UsesMessageId(a, p, i, m)
    ensures OwnedBy(a, MessageLane(a, m)) == OwnedBy(b, MessageLane(b, m))
  {
    var p, i: nat :| UsesMessageId(a, p, i, m);
    var e := a[p][i].event;
    var q, j := AlsoIn(a, b, p, i, e);
    MessageHome(a, p, i, e);
    MessageHome(b, q, j, e);
    SameOwned(a, b, LaneOf(e));
    hide SameLanes, Orderly, CleanLane;
  }

  lemma SameEventIdHome(a: Logs, b: Logs, id: string)
    requires Orderly(a) && Orderly(b) && SameLanes(a, b)
    requires exists p, i :: UsesEventId(a, p, i, id)
    ensures OwnedBy(a, EventLane(a, id)) == OwnedBy(b, EventLane(b, id))
  {
    var p, i: nat :| UsesEventId(a, p, i, id);
    var e := a[p][i].event;
    var q, j := AlsoIn(a, b, p, i, e);
    EventIdHome(a, p, i, e);
    EventIdHome(b, q, j, e);
    SameOwned(a, b, LaneOf(e));
    hide SameLanes, Orderly, CleanLane;
  }

  lemma SameKeyHome(a: Logs, b: Logs, m: string)
    requires Orderly(a) && Orderly(b) && SameLanes(a, b)
    ensures HomeOf(a, L(m)) == HomeOf(b, L(m))
  {
    SameLanesBack(a, b);
    hide SameLanes, Orderly, OwnedBy;
    if exists p, i :: UsesMessageId(a, p, i, m) {
      SameMessageHome(a, b, m);
    } else if exists p, i :: UsesMessageId(b, p, i, m) {
      SameMessageHome(b, a, m);
    } else {
      SameOwned(a, b, MessageLane(a, m));
    }
  }

  lemma SameEventHome(a: Logs, b: Logs, id: string)
    requires Orderly(a) && Orderly(b) && SameLanes(a, b)
    ensures OwnedBy(a, EventLane(a, id)) == OwnedBy(b, EventLane(b, id))
  {
    SameLanesBack(a, b);
    hide SameLanes, Orderly, OwnedBy;
    if exists p, i :: UsesEventId(a, p, i, id) {
      SameEventIdHome(a, b, id);
    } else if exists p, i :: UsesEventId(b, p, i, id) {
      SameEventIdHome(b, a, id);
    } else {
      SameOwned(a, b, EventLane(a, id));
    }
  }

  lemma SameHomes(a: Logs, b: Logs, x: Cell)
    requires Orderly(a) && Orderly(b) && SameLanes(a, b)
    ensures HomeOf(a, x) == HomeOf(b, x)
  {
    match x
    case L(m) => SameKeyHome(a, b, m);
    case Hist(id) => SameEventHome(a, b, id);
    case Sess(id) => SameEventHome(a, b, id);
    case M(k, m) => SameSharedIn(a, b, if k.ConnectorsKey? then k.charger else m);
    case H(k, f) =>
      SameSharedIn(a, b, if k.ChargerKey? then k.charger else "");
      SameOwned(a, b, if k.ChargerKey? then Lane(BootTopic, k.charger)
                      else if k.ConnKey? then Lane(ConnTopic(f), k.charger)
                      else if k.TxKey? then Lane(TxTopic, k.charger) else Lane(HeartbeatTopic, ""));
  }

  /** Equal contents of the cells that no two lanes can race for. */
  ghost predicate SameCells(logs: Logs, keys: bool, a: Store, b: Store) {
    forall x :: HomeOf(logs, x) != Ignored && (keys || !x.L?) ==> Look(a, x) == Look(b, x)
  }

  /** Equal contents, last_seen aside, and, unless `keys`, the dedup keys. */
  ghost predicate SameBut(keys: bool, a: Store, b: Store) {
    forall x :: (forall c :: x != H(ChargerKey(c), LastSeen)) && (keys || !x.L?) ==> Look(a, x) == Look(b, x)
  }

  /** If no lanes share an id, those are all cells but last_seen. */
  lemma ConfinedHomes(logs: Logs, x: Cell)
    requires Confined(logs) && forall c :: x != H(ChargerKey(c), LastSeen)
    ensures HomeOf(logs, x) != Ignored
  {
    assert forall l :: CleanLane(logs, l);
    assert forall c :: CleanCharger(logs, c);
    hide CleanLane, CleanCharger;
  }

  lemma SameOn(logsA: Logs, logsB: Logs, s0: Store, a: Store, b: Store, x: Cell)
    requires SameLanes(logsA, logsB) && HomeOf(logsA, x) == Shared && HomeOf(logsB, x) == Shared
    requires MergeOfLanes(logsA, s0, a) && MergeOfLanes(logsB, s0, b)
    ensures On(a, x) <==> On(b, x)
  {
    if On(a, x) {
      var l :| On(HandleSeq(s0, LaneEvents(logsA, l)), x);
      assert On(HandleSeq(s0, LaneEvents(logsB, l)), x);
    }
    if On(b, x) {
      var l :| On(HandleSeq(s0, LaneEvents(logsB, l)), x);
      assert On(HandleSeq(s0, LaneEvents(logsA, l)), x);
    }
  }

  lemma MergesAreEqual(logsA: Logs, logsB: Logs, s0: Store, a: Store, b: Store, x: Cell)
    requires Orderly(logsA) && Orderly(logsB) && SameLanes(logsA, logsB)
    requires MergeOfLanes(logsA, s0, a) && MergeOfLanes(logsB, s0, b)
    requires HomeOf(logsA, x) != Ignored
    requires x.L? ==> KeysOfLanes(logsA, s0, a) && KeysOfLanes(logsB, s0, b)
    ensures Look(a, x) == Look(b, x)
  {
    SameHomes(logsA, logsB, x);
    var h := HomeOf(logsA, x);
    if h.Owned? {
      var solo := HandleSeq(s0, LaneEvents(logsA, h.lane));
      assert solo == HandleSeq(s0, LaneEvents(logsB, h.lane));
      if !x.L? {
        assert Look(a, x) == Look(solo, x) == Look(b, x);
      }
    } else {
      assert h.Shared?;
      SameOn(logsA, logsB, s0, a, b, x);
    }
  }

  /** Confluence: any two gentle runs, over logs that agree lane by lane, end in the same contents.
      Neither the schedule of the readers, nor failed commits and restarts, nor the partitioning
      nor the clock shows, except in which dedup keys have expired; and if none has, not even there.
      This holds of every cell of a lane that shares no id with another; so, if none does, of all of
      them but last_seen. */
  lemma Confluent(logsA: Logs, logsB: Logs, s0: Store, nowA: Nanos, nowB: Nanos, lsA: seq<Label>, lsB: seq<Label>)
    requires Orderly(logsA) && Orderly(logsB) && SameLanes(logsA, logsB)
    requires Gentle(logsA, Init(s0, nowA), lsA) && Drained(logsA, Run(logsA, Init(s0, nowA), lsA))
    requires Gentle(logsB, Init(s0, nowB), lsB) && Drained(logsB, Run(logsB, Init(s0, nowB), lsB))
    ensures var keys := Ageless(logsA, Init(s0, nowA), lsA) && Ageless(logsB, Init(s0, nowB), lsB);
            var a, b := Run(logsA, Init(s0, nowA), lsA).store, Run(logsB, Init(s0, nowB), lsB).store;
            SameCells(logsA, keys, a, b) && (Confined(logsA) ==> SameBut(keys, a, b))
  {
    var a, b := Run(logsA, Init(s0, nowA), lsA).store, Run(logsB, Init(s0, nowB), lsB).store;
    var keys := Ageless(logsA, Init(s0, nowA), lsA) && Ageless(logsB, Init(s0, nowB), lsB);
    RunsAreMerges(logsA, s0, nowA, lsA);
    RunsAreMerges(logsB, s0, nowB, lsB);
    if keys {
      AgelessMerge(logsA, s0, nowA, lsA);
      AgelessMerge(logsB, s0, nowB, lsB);
    }
    hide Run, Gentle, Ageless, Drained, Orderly, SameLanes, MergeOfLanes, KeysOfLanes, Look, HomeOf, Confined;
    forall x | HomeOf(logsA, x) != Ignored && (keys || !x.L?) ensures Look(a, x) == Look(b, x) {
      MergesAreEqual(logsA, logsB, s0, a, b, x);
    }
    if Confined(logsA) {
      forall x | (forall c :: x != H(ChargerKey(c), LastSeen)) && (keys || !x.L?) ensures Look(a, x) == Look(b, x) {
        ConfinedHomes(logsA, x);
      }
    }
  }
}
