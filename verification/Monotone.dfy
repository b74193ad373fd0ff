/** The stored second of a connector's status, and of its readings, in every reachable state of every
    run, guard and write being separate steps between which the other readers, crashes, failures and
    expiries may fall. */
module Monotone {
  import opened Domain
  import opened Store
  import opened Handler
  import opened Machine
  import opened Dedup
  import opened Delivery
  import opened Connectors

  /** The two topics whose updates are guarded by a stored second. */
  predicate Guards(g: Topic) {
    g == StatusTopic || g == MeterTopic
  }

  /** A sample whose measurand is "ts" would overwrite the second of the readings itself. */
  predicate PlainFor(g: Topic, e: Event) {
    g == MeterTopic ==> Plain(e)
  }

  ghost predicate PlainLogsFor(g: Topic, logs: Logs) {
    g == MeterTopic ==> PlainLogs(logs)
  }

  function SecAt(s: Store, g: Topic, c: string, n: int): Option<int> {
    match Get(s, ConnKey(c, n), TsField(g))
    case Some(Stamp(x)) => Some(x)
    case _ => None
  }

  predicate NotBefore(a: Option<int>, b: Option<int>) {
    a.Some? ==> b.Some? && a.value <= b.value
  }

  ghost predicate AllStamped(s: Store, g: Topic) {
    forall c, n :: var v := Get(s, ConnKey(c, n), TsField(g)); v.Some? ==> v.value.Stamp?
  }

  /** A write of the topic's timestamp field. */
  predicate SetsTs(cmd: Cmd, g: Topic) {
    cmd.HSet? && cmd.key.ConnKey? && TsField(g) in cmd.fields
  }

  /** An event of the topic that updates connectors. */
  predicate IsUpdate(e: Event, g: Topic) {
    TopicOf(e.body) == g && (e.body.Status? || (e.body.Meter? && e.body.readings != []))
  }

  /** An update of connector n of charger c. */
  predicate About(e: Event, g: Topic, c: string, n: int) {
    IsUpdate(e, g) && e.charger == c && e.body.connector == n
  }

  // ---------------------------------------------------------------- who writes the second

  predicate IsWrite(e: Event, g: Topic, cmd: Cmd) {
    && IsUpdate(e, g) && cmd.HSet? && cmd.key == ConnKey(e.charger, e.body.connector)
    && TsField(g) in cmd.fields && cmd.fields[TsField(g)] == Stamp(FloorSec(e.timestamp))
  }

  /** Of the commands waiting to be issued only the first of an update of the topic writes its second;
      and only pairing records are deleted. */
  predicate PlainWrites(g: Topic, e: Event, cmds: seq<Cmd>) {
    && (forall i :: 0 <= i < |cmds| && SetsTs(cmds[i], g) ==> i == 0 && IsWrite(e, g, cmds[0]))
    && (forall i :: 0 <= i < |cmds| && cmds[i].Del? ==> cmds[i].key.TxKey?)
  }

  predicate PlainPhase(g: Topic, t: Topic, ph: Phase) {
    && (Busy(ph) ==> TopicOf(ph.event.body) == t && PlainFor(g, ph.event))
    && (ph.Writing? ==> PlainWrites(g, ph.event, ph.cmds))
  }

  /** The write that stores the second of an update comes next. */
  predicate WritesTs(ph: Phase, g: Topic) {
    ph.Writing? && ph.cmds != [] && SetsTs(ph.cmds[0], g)
  }

  /** That write reaches the server, which executes it. */
  predicate Lands(ph: Phase, fault: Fault, g: Topic, c: string, n: int) {
    WritesTs(ph, g) && About(ph.event, g, c, n) && !fault.Refused?
  }

  lemma {:induction false} SamplesNoStatus(fields: map<Field, Val>, samples: seq<Sample>)
    requires StatusTs !in fields
    ensures StatusTs !in AddSamples(fields, samples)
    decreases |samples|
  {
    if samples != [] {
      SamplesNoStatus(fields[FieldOf(samples[0].measurand) := samples[0].value], samples[1..]);
    }
  }

  lemma ConnCmdsPlain(g: Topic, e: Event)
    requires Guards(g) && PlainFor(g, e) && (e.body.Status? || (e.body.Meter? && e.body.readings != []))
    ensures var fields := UpdateOf(e).fields;
            && (TsField(g) in fields <==> TopicOf(e.body) == g)
            && (TopicOf(e.body) == g ==> fields[TsField(g)] == Stamp(FloorSec(e.timestamp)))
  {
    if e.body.Meter? {
      var fields, last := map[MeterTs := Stamp(FloorSec(e.timestamp))], e.body.readings[|e.body.readings| - 1];
      SamplesNoStatus(fields, last);
      if g == MeterTopic {
        assert Plain(e) && MeterTs in fields;
        forall i | 0 <= i < |last| ensures last[i].measurand != "ts" {
          assert last[i] == e.body.readings[|e.body.readings| - 1][i];
        }
        SamplesKeepTs(fields, last);
      }
    }
  }

  lemma ConnWritesPlain(g: Topic, e: Event, fields: map<Field, Val>, seen: map<Field, Val>)
    requires Guards(g) && PlainFor(g, e) && (e.body.Status? || (e.body.Meter? && e.body.readings != []))
    requires fields == UpdateOf(e).fields
    ensures var cmds := ConnCmds(e, e.body.connector, fields, seen);
            PlainWrites(g, e, cmds) && (IsUpdate(e, g) <==> WritesTs(Continue(e, cmds), g))
  {
    ConnCmdsPlain(g, e);
    hide UpdateOf;
  }

  lemma PlanPlain(g: Topic, e: Event, s: Store, readFails: bool)
    requires Guards(g) && PlainFor(g, e)
    ensures var d := Plan(e, s, readFails);
            d.Write? ==> PlainWrites(g, e, d.cmds) && (IsUpdate(e, g) <==> WritesTs(Continue(e, d.cmds), g))
  {
    hide SessionOf, TxFields, SeenOnline, LastSeenOf, BootFields, Stale, StatusFields, MeterFields, ConnCmds;
    if e.body.Meter? && e.body.readings != [] {
      assert UpdateOf(e).fields == MeterFields(e);
      ConnWritesPlain(g, e, MeterFields(e), LastSeenOf(e));
    } else if e.body.Status? {
      assert UpdateOf(e).fields == StatusFields(e);
      ConnWritesPlain(g, e, StatusFields(e), SeenOnline(e));
    }
  }

  /** The guard: an update whose read works is let through only if it is after the stored second. */
  lemma GuardOf(g: Topic, e: Event, s: Store, readFails: bool)
    requires Guards(g) && IsUpdate(e, g) && AllStamped(s, g)
    ensures var x := SecAt(s, g, e.charger, e.body.connector);
            Plan(e, s, readFails).Write? <==> readFails || x.None? || x.value * SECOND < e.timestamp
    ensures !Plan(e, s, readFails).Reject?
  {
    var v := Get(s, ConnKey(e.charger, e.body.connector), TsField(g));
    assert v.Some? ==> v.value.Stamp?;
  }

  lemma SetsSecond(s: Store, g: Topic, k: Key, fields: map<Field, Val>, c: string, n: int)
    requires AllStamped(s, g) && (TsField(g) in fields ==> fields[TsField(g)].Stamp?)
    ensures var v := Get(Exec(s, HSet(k, fields)), ConnKey(c, n), TsField(g)); v.Some? ==> v.value.Stamp?
    ensures SecAt(Exec(s, HSet(k, fields)), g, c, n) ==
            if k == ConnKey(c, n) && TsField(g) in fields then Some(fields[TsField(g)].sec) else SecAt(s, g, c, n)
  {
    var v := Get(s, ConnKey(c, n), TsField(g));
    assert v.Some? ==> v.value.Stamp?;
  }

  lemma OtherHash(s: Store, g: Topic, k: Key, fields: map<Field, Val>, c: string, n: int)
    requires AllStamped(s, g) && !k.ConnKey?
    ensures var v := Get(Exec(s, HSet(k, fields)), ConnKey(c, n), TsField(g)); v.Some? ==> v.value.Stamp?
    ensures SecAt(Exec(s, HSet(k, fields)), g, c, n) == SecAt(s, g, c, n)
  {
    var v := Get(s, ConnKey(c, n), TsField(g));
    assert v.Some? ==> v.value.Stamp?;
  }

  lemma OtherSecond(s: Store, g: Topic, cmd: Cmd, c: string, n: int)
    requires AllStamped(s, g) && !cmd.HSet? && (cmd.Del? ==> cmd.key.TxKey?)
    ensures var v := Get(Exec(s, cmd), ConnKey(c, n), TsField(g)); v.Some? ==> v.value.Stamp?
    ensures SecAt(Exec(s, cmd), g, c, n) == SecAt(s, g, c, n)
  {
    var v := Get(s, ConnKey(c, n), TsField(g));
    assert v.Some? ==> v.value.Stamp?;
  }

  lemma ExecSecond(s: Store, g: Topic, e: Event, cmds: seq<Cmd>, c: string, n: int)
    requires AllStamped(s, g) && cmds != [] && PlainWrites(g, e, cmds)
    ensures var v := Get(Exec(s, cmds[0]), ConnKey(c, n), TsField(g)); v.Some? ==> v.value.Stamp?
    ensures SecAt(Exec(s, cmds[0]), g, c, n) ==
            if SetsTs(cmds[0], g) && About(e, g, c, n) then Some(FloorSec(e.timestamp)) else SecAt(s, g, c, n)
  {
    hide Exec, SecAt, AllStamped;
    var cmd := cmds[0];
    if cmd.HSet? && (SetsTs(cmd, g) || TsField(g) !in cmd.fields) {
      SetsSecond(s, g, cmd.key, cmd.fields, c, n);
    } else if cmd.HSet? {
      OtherHash(s, g, cmd.key, cmd.fields, c, n);
    } else {
      OtherSecond(s, g, cmd, c, n);
    }
  }

  /** One step of a handler, seen from the stored seconds. */
  lemma StepSecond(g: Topic, t: Topic, ph: Phase, s: Store, fault: Fault)
    requires Guards(g) && AllStamped(s, g) && Busy(ph) && PlainPhase(g, t, ph)
    ensures var ph', s' := Step(ph, s, fault).0, Step(ph, s, fault).1;
            && PlainPhase(g, t, ph') && AllStamped(s', g)
            && (forall c, n :: SecAt(s', g, c, n) ==
                  if Lands(ph, fault, g, c, n) then Some(FloorSec(ph.event.timestamp)) else SecAt(s, g, c, n))
            && (WritesTs(ph', g) ==> ph.AtUpdate?)
            && (ph.AtUpdate? && IsUpdate(ph.event, g) ==>
                  var x := SecAt(s, g, ph.event.charger, ph.event.body.connector);
                  WritesTs(ph', g) <==> !fault.Works? || x.None? || x.value * SECOND < ph.event.timestamp)
  {
    var (ph', s') := Step(ph, s, fault);
    if ph.AtUpdate? {
      hide Plan;
      PlanPlain(g, ph.event, s, !fault.Works? && Reads(ph.event.body));
      if IsUpdate(ph.event, g) {
        GuardOf(g, ph.event, s, !fault.Works? && Reads(ph.event.body));
      }
    } else if ph.Writing? && ph.cmds != [] && !fault.Refused? {
      forall c, n
        ensures SecAt(s', g, c, n) ==
                if Lands(ph, fault, g, c, n) then Some(FloorSec(ph.event.timestamp)) else SecAt(s, g, c, n)
        ensures var v := Get(s', ConnKey(c, n), TsField(g)); v.Some? ==> v.value.Stamp?
      {
        ExecSecond(s, g, ph.event, ph.cmds, c, n);
      }
    }
  }

  // ---------------------------------------------------------------- every reachable state

  ghost predicate ReaderPlain(g: Topic, s: State, t: Topic) {
    PlainPhase(g, t, PhaseOf(s, t)) && ReaderTxLifetimes(s, t)
  }

  ghost predicate TtlOnTx(s: State) {
    forall k :: k in s.ttl ==> !k.ConnKey?
  }

  ghost predicate SecondsInv(g: Topic, s: State) {
    Guards(g) && AllStamped(s.store, g) && TtlOnTx(s) && forall t :: ReaderPlain(g, s, t)
  }

  /** A write is about to be issued that is older than what is stored. */
  predicate Poised(s: State, g: Topic, c: string, n: int) {
    var ph := PhaseOf(s, g);
    var x := SecAt(s.store, g, c, n);
    WritesTs(ph, g) && About(ph.event, g, c, n) && x.Some? && ph.event.timestamp < x.value * SECOND
  }

  /** The guard read of an update fails, which the handler ignores, and the event is older than
      the stored second: the read would have stopped it. */
  predicate Slips(s: State, l: Label, g: Topic, c: string, n: int) {
    && l.Do? && l.topic == g && !l.fault.Works?
    && PhaseOf(s, g).AtUpdate? && About(PhaseOf(s, g).event, g, c, n)
    && SecAt(s.store, g, c, n).Some?
    && PhaseOf(s, g).event.timestamp < SecAt(s.store, g, c, n).value * SECOND
  }

  /** A label at which the reader of topic g neither moves nor dies. */
  predicate Spares(l: Label, g: Topic) {
    !l.Crash? && !(l.Do? && l.topic == g)
  }

  /** A command of the reader of topic g that the server executes. */
  predicate Executed(l: Label, g: Topic) {
    l.Do? && l.topic == g && !l.fault.Refused?
  }

  lemma TtlStaysOnTx(ttl: map<Key, Nanos>, ph: Phase, s: Store, now: Nanos)
    requires ph.Writing? ==> OnlyTxLifetimes(ph.cmds)
    requires forall k :: k in ttl ==> !k.ConnKey?
    ensures forall k :: k in TtlAfter(ttl, ph, s, now) ==> !k.ConnKey?
  {
    assert ph.Writing? && ph.cmds != [] ==> ph.cmds[0] in ph.cmds;
  }

  lemma AdvanceInv(g: Topic, s: State, t: Topic, fault: Fault)
    requires SecondsInv(g, s) && Busy(PhaseOf(s, t))
    ensures SecondsInv(g, DoStep(s, t, fault))
  {
    var (ph, store) := Step(PhaseOf(s, t), s.store, fault);
    var s' := Advance(s, t, ph, store, !fault.Refused?);
    assert ReaderPlain(g, s, t);
    StepSecond(g, t, PhaseOf(s, t), s.store, fault);
    StepLifetimes(PhaseOf(s, t), s.store, fault);
    AdvancePhases(s, t, ph, store, !fault.Refused?);
    TtlStaysOnTx(s.ttl, PhaseOf(s, t), s.store, s.clock);
    hide Step, TtlAfter, TallyAfter;
    forall u ensures ReaderPlain(g, s', u) {
      assert ReaderPlain(g, s, u);
    }
  }

  lemma DoSecond(g: Topic, s: State, t: Topic, fault: Fault, c: string, n: int)
    requires SecondsInv(g, s) && Busy(PhaseOf(s, t))
    ensures var s' := DoStep(s, t, fault); var x, x' := SecAt(s.store, g, c, n), SecAt(s'.store, g, c, n);
            && (!NotBefore(x, x') <==> Poised(s, g, c, n) && Executed(Do(t, fault), g))
            && (x' != x ==> WritesTs(PhaseOf(s, g), g) && Executed(Do(t, fault), g))
            && (Poised(s', g, c, n) <==> if t == g then Slips(s, Do(t, fault), g, c, n) else Poised(s, g, c, n))
  {
    var (ph, store) := Step(PhaseOf(s, t), s.store, fault);
    assert ReaderPlain(g, s, t) && ReaderPlain(g, s, g);
    StepSecond(g, t, PhaseOf(s, t), s.store, fault);
    StepShape(PhaseOf(s, t), s.store, fault);
    AdvancePhases(s, t, ph, store, !fault.Refused?);
    hide Step, SecAt, PlainPhase;
  }

  lemma FetchInv(g: Topic, logs: Logs, s: State, p: Part)
    requires Routed(logs) && PlainLogsFor(g, logs) && SecondsInv(g, s) && Available(logs, s, p)
    ensures SecondsInv(g, FetchStep(logs, s, p))
  {
    var s' := FetchStep(logs, s, p);
    var i := Position(s, p);
    if logs[p][i].Rec? {
      assert Holds(logs, p, i, logs[p][i].event);
    }
    forall u ensures ReaderPlain(g, s', u) {
      assert ReaderPlain(g, s, u);
    }
  }

  lemma IdleInv(g: Topic, s: State, s': State)
    requires SecondsInv(g, s) && s'.store == s.store && s'.ttl == s.ttl
    requires forall u :: PhaseOf(s', u) == PhaseOf(s, u) || PhaseOf(s', u).Idle?
    ensures SecondsInv(g, s')
  {
    forall u ensures ReaderPlain(g, s', u) {
      assert ReaderPlain(g, s, u);
    }
  }

  lemma TickInv(g: Topic, s: State, d: nat)
    requires SecondsInv(g, s)
    ensures SecondsInv(g, TickStep(s, d))
    ensures forall c, n :: SecAt(TickStep(s, d).store, g, c, n) == SecAt(s.store, g, c, n)
  {
    var s' := TickStep(s, d);
    forall c, n ensures Get(s'.store, ConnKey(c, n), TsField(g)) == Get(s.store, ConnKey(c, n), TsField(g)) {
      assert ConnKey(c, n) !in s.ttl;
    }
    forall u ensures ReaderPlain(g, s', u) {
      assert ReaderPlain(g, s, u);
    }
  }

  lemma InvKept(g: Topic, logs: Logs, s: State, l: Label)
    requires Routed(logs) && PlainLogsFor(g, logs) && SecondsInv(g, s)
    ensures SecondsInv(g, Next(logs, s, l))
  {
    if Enabled(logs, s, l) {
      match l
      case Do(t, fault) => AdvanceInv(g, s, t, fault);
      case Fetch(p) => FetchInv(g, logs, s, p);
      case Tick(d) => TickInv(g, s, d);
      case Commit(t, ok) => IdleInv(g, s, CommitStep(s, t, ok));
      case Crash => IdleInv(g, s, CrashStep(s));
    }
  }

  lemma SameReaders(logs: Logs, s: State, l: Label, g: Topic)
    requires l.Tick?
    ensures PhaseOf(Next(logs, s, l), g) == PhaseOf(s, g)
  {
  }

  /** One step of a run: when it takes the second back, and when it makes that possible. */
  /** Any other label leaves the stored second, and a write that is about to be issued unless the process
      dies. */
  lemma RestSecond(g: Topic, logs: Logs, s: State, l: Label, c: string, n: int)
    requires SecondsInv(g, s) && !(l.Do? && Busy(PhaseOf(s, l.topic)))
    ensures var s' := Next(logs, s, l);
            && SecAt(s'.store, g, c, n) == SecAt(s.store, g, c, n)
            && (PhaseOf(s', g) == PhaseOf(s, g) || (!WritesTs(PhaseOf(s', g), g) && !WritesTs(PhaseOf(s, g), g))
                || (l.Crash? && !WritesTs(PhaseOf(s', g), g)))
            && (l.Crash? ==> !WritesTs(PhaseOf(s', g), g))
  {
    hide DoStep, SecAt;
    if l.Tick? {
      TickInv(g, s, l.elapsed);
      hide TickStep;
      assert PhaseOf(Next(logs, s, l), g) == PhaseOf(s, g) by {
        SameReaders(logs, s, l, g);
      }
    }
  }

  lemma NextSecond(g: Topic, logs: Logs, s: State, l: Label, c: string, n: int)
    requires SecondsInv(g, s)
    ensures var s' := Next(logs, s, l); var x, x' := SecAt(s.store, g, c, n), SecAt(s'.store, g, c, n);
            && (!NotBefore(x, x') <==> Poised(s, g, c, n) && Executed(l, g))
            && (x' != x ==> WritesTs(PhaseOf(s, g), g) && Executed(l, g))
            && (Poised(s', g, c, n) <==> Slips(s, l, g, c, n) || (Poised(s, g, c, n) && Spares(l, g)))
  {
    if l.Do? && Busy(PhaseOf(s, l.topic)) {
      DoSecond(g, s, l.topic, l.fault, c, n);
      hide DoStep, SecAt, WritesTs, About, Slips, Poised, SecondsInv;
    } else {
      RestSecond(g, logs, s, l, c, n);
      hide Next, SecAt, WritesTs, About, SecondsInv;
    }
  }

  lemma {:induction false} RunSeconds(g: Topic, logs: Logs, s0: Store, now: Nanos, ls: seq<Label>)
    requires Guards(g) && Routed(logs) && PlainLogsFor(g, logs) && AllStamped(s0, g)
    ensures SecondsInv(g, Run(logs, Init(s0, now), ls))
    decreases |ls|
  {
    if ls != [] {
      RunSeconds(g, logs, s0, now, ls[..|ls| - 1]);
      InvKept(g, logs, Run(logs, Init(s0, now), ls[..|ls| - 1]), ls[|ls| - 1]);
    }
  }

  // ---------------------------------------------------------------- the runs

  /** The stored second after k labels. */
  function SecAfter(logs: Logs, s: State, ls: seq<Label>, k: nat, g: Topic, c: string, n: int): Option<int>
    requires k <= |ls|
  {
    SecAt(Run(logs, s, ls[..k]).store, g, c, n)
  }

  /** Label k takes the second back, or away. */
  predicate GoesBack(logs: Logs, s: State, ls: seq<Label>, k: nat, g: Topic, c: string, n: int) {
    k < |ls| && !NotBefore(SecAfter(logs, s, ls, k, g, c, n), SecAfter(logs, s, ls, k + 1, g, c, n))
  }

  /** At label a an older event slips past its failed guard read, and at label k, with nothing of the
      topic's reader in between, its write reaches the server. */
  ghost predicate Overwrites(logs: Logs, s: State, ls: seq<Label>, a: nat, k: nat, g: Topic, c: string, n: int) {
    && a < k < |ls| && Slips(Run(logs, s, ls[..a]), ls[a], g, c, n)
    && (forall i :: a < i < k ==> Spares(ls[i], g)) && Executed(ls[k], g)
  }

  /** An event that slipped past its guard read at label a is still about to be written. */
  ghost predicate Slipped(logs: Logs, s: State, ls: seq<Label>, a: nat, g: Topic, c: string, n: int) {
    && a < |ls| && Slips(Run(logs, s, ls[..a]), ls[a], g, c, n)
    && forall i :: a < i < |ls| ==> Spares(ls[i], g)
  }

  lemma NotPoised(g: Topic, s0: Store, now: Nanos, c: string, n: int)
    ensures !Poised(Init(s0, now), g, c, n)
  {
  }

  lemma SlippedSnoc(g: Topic, logs: Logs, s: State, before: seq<Label>, l: Label, a: nat, c: string, n: int)
    ensures Slipped(logs, s, before + [l], a, g, c, n) <==>
            (a == |before| && Slips(Run(logs, s, before), l, g, c, n))
            || (Slipped(logs, s, before, a, g, c, n) && Spares(l, g))
  {
    hide Slips, Spares, Run;
    var ls := before + [l];
    if a == |before| {
      assert ls[..a] == before;
    } else if a < |before| {
      assert ls[..a] == before[..a] && ls[a] == before[a];
      if Slipped(logs, s, ls, a, g, c, n) {
        assert Spares(ls[|before|], g);
        forall i | a < i < |before| ensures Spares(before[i], g) {
          assert Spares(ls[i], g);
        }
      }
    }
  }

  lemma {:induction false} PoisedIff(g: Topic, logs: Logs, s0: Store, now: Nanos, ls: seq<Label>, c: string, n: int)
    requires Guards(g) && Routed(logs) && PlainLogsFor(g, logs) && AllStamped(s0, g)
    ensures Poised(Run(logs, Init(s0, now), ls), g, c, n) <==> exists a :: Slipped(logs, Init(s0, now), ls, a, g, c, n)
    decreases |ls|
  {
    hide Poised, Slips, Next, Spares, SecondsInv;
    var s := Init(s0, now);
    if ls == [] {
      assert !Poised(s, g, c, n) by {
        NotPoised(g, s0, now, c, n);
      }
    } else {
      var before, l, m := ls[..|ls| - 1], ls[|ls| - 1], |ls| - 1;
      RunSeconds(g, logs, s0, now, before);
      PoisedIff(g, logs, s0, now, before, c, n);
      NextSecond(g, logs, Run(logs, s, before), l, c, n);
      forall a: nat ensures Slipped(logs, s, ls, a, g, c, n) <==>
                            (a == m && Slips(Run(logs, s, before), l, g, c, n))
                            || (Slipped(logs, s, before, a, g, c, n) && Spares(l, g))
      {
        SlippedSnoc(g, logs, s, before, l, a, c, n);
        assert before + [l] == ls;
      }
      assert Slips(Run(logs, s, before), l, g, c, n) ==> Slipped(logs, s, ls, m, g, c, n);
    }
  }

  lemma OverwritesIff(g: Topic, logs: Logs, s: State, ls: seq<Label>, a: nat, k: nat, c: string, n: int)
    requires k < |ls|
    ensures Overwrites(logs, s, ls, a, k, g, c, n) <==> Slipped(logs, s, ls[..k], a, g, c, n) && Executed(ls[k], g)
  {
    hide Slips, Spares, Run, Executed;
    if a < k {
      assert ls[..k][..a] == ls[..a] && ls[..k][a] == ls[a];
    }
  }

  lemma StepBackIff(g: Topic, logs: Logs, s: State, ls: seq<Label>, k: nat, c: string, n: int)
    requires k < |ls| && SecondsInv(g, Run(logs, s, ls[..k]))
    ensures GoesBack(logs, s, ls, k, g, c, n) <==> Poised(Run(logs, s, ls[..k]), g, c, n) && Executed(ls[k], g)
  {
    assert ls[..k + 1][..k] == ls[..k];
    assert Run(logs, s, ls[..k + 1]) == Next(logs, Run(logs, s, ls[..k]), ls[k]);
    hide Poised, Next, SecondsInv, Executed, NotBefore, Run, SecAt, WritesTs;
    NextSecond(g, logs, Run(logs, s, ls[..k]), ls[k], c, n);
  }

  /** The exact condition, step by step: label k takes the second back if and only if it completes an
      overwrite. */
  lemma GoesBackIff(g: Topic, logs: Logs, s0: Store, now: Nanos, ls: seq<Label>, k: nat, c: string, n: int)
    requires Guards(g) && Routed(logs) && PlainLogsFor(g, logs) && AllStamped(s0, g)
    ensures GoesBack(logs, Init(s0, now), ls, k, g, c, n)
            <==> exists a :: Overwrites(logs, Init(s0, now), ls, a, k, g, c, n)
  {
    hide Poised, Slipped, SecondsInv, Executed, NotBefore, Run, SecAfter;
    if k < |ls| {
      RunSeconds(g, logs, s0, now, ls[..k]);
      PoisedIff(g, logs, s0, now, ls[..k], c, n);
      StepBackIff(g, logs, Init(s0, now), ls, k, c, n);
      hide Init, Overwrites;
      forall a: nat ensures Overwrites(logs, Init(s0, now), ls, a, k, g, c, n) <==>
                            Slipped(logs, Init(s0, now), ls[..k], a, g, c, n) && Executed(ls[k], g)
      {
        OverwritesIff(g, logs, Init(s0, now), ls, a, k, c, n);
      }
    }
  }

  lemma {:induction false} StepsMakeRuns(g: Topic, logs: Logs, s: State, ls: seq<Label>, p: nat, q: nat, c: string,
                                         n: int)
    requires p <= q <= |ls|
    requires forall k :: p <= k < q ==> !GoesBack(logs, s, ls, k, g, c, n)
    ensures NotBefore(SecAfter(logs, s, ls, p, g, c, n), SecAfter(logs, s, ls, q, g, c, n))
    decreases q - p
  {
    hide SecAfter;
    if p < q {
      StepsMakeRuns(g, logs, s, ls, p, q - 1, c, n);
      assert !GoesBack(logs, s, ls, q - 1, g, c, n);
    }
  }

  /** The stored second never goes back, and never disappears, between two points of a run if and only
      if no event older than it slips past a failed guard read and gets written between them. This
      holds of every run, with crashes, failed writes and expiries. */
  lemma SecondsNeverDecreaseIff(g: Topic, logs: Logs, s0: Store, now: Nanos, ls: seq<Label>, i: nat, j: nat,
                                c: string, n: int)
    requires Guards(g) && Routed(logs) && PlainLogsFor(g, logs) && AllStamped(s0, g) && i <= j <= |ls|
    ensures (forall p, q :: i <= p <= q <= j ==>
               NotBefore(SecAfter(logs, Init(s0, now), ls, p, g, c, n), SecAfter(logs, Init(s0, now), ls, q, g, c, n)))
            <==> !exists a, k :: i <= k < j && Overwrites(logs, Init(s0, now), ls, a, k, g, c, n)
  {
    var s := Init(s0, now);
    hide SecAfter, Overwrites;
    forall k: nat ensures GoesBack(logs, s, ls, k, g, c, n) <==> exists a :: Overwrites(logs, s, ls, a, k, g, c, n) {
      GoesBackIff(g, logs, s0, now, ls, k, c, n);
    }
    if a: nat, k: nat :| i <= k < j && Overwrites(logs, s, ls, a, k, g, c, n) {
      assert GoesBack(logs, s, ls, k, g, c, n);
    } else {
      forall p, q | i <= p <= q <= j
        ensures NotBefore(SecAfter(logs, s, ls, p, g, c, n), SecAfter(logs, s, ls, q, g, c, n))
      {
        StepsMakeRuns(g, logs, s, ls, p, q, c, n);
      }
    }
  }

  /** The guard read of an update returns an error, which the handler ignores. */
  predicate GuardReadFails(s: State, lb: Label, g: Topic) {
    lb.Do? && lb.topic == g && !lb.fault.Works? && PhaseOf(s, g).AtUpdate?
  }

  ghost predicate GuardReadsWork(logs: Logs, s: State, ls: seq<Label>, g: Topic) {
    ls == [] || (var before := ls[..|ls| - 1];
                 GuardReadsWork(logs, s, before, g) && !GuardReadFails(Run(logs, s, before), ls[|ls| - 1], g))
  }

  lemma {:induction false} NothingSlips(g: Topic, logs: Logs, s: State, ls: seq<Label>, a: nat, c: string, n: int)
    requires GuardReadsWork(logs, s, ls, g) && a < |ls|
    ensures !Slips(Run(logs, s, ls[..a]), ls[a], g, c, n)
    decreases |ls|
  {
    if a < |ls| - 1 {
      NothingSlips(g, logs, s, ls[..|ls| - 1], a, c, n);
      assert ls[..|ls| - 1][..a] == ls[..a];
    }
  }

  /** So between any two points of any run in which no guard read fails it never goes back. */
  lemma SecondsNeverDecrease(g: Topic, logs: Logs, s0: Store, now: Nanos, ls: seq<Label>, more: seq<Label>, c: string,
                             n: int)
    requires Guards(g) && Routed(logs) && PlainLogsFor(g, logs) && AllStamped(s0, g)
    requires GuardReadsWork(logs, Init(s0, now), ls + more, g)
    ensures NotBefore(SecAt(Run(logs, Init(s0, now), ls).store, g, c, n),
                      SecAt(Run(logs, Init(s0, now), ls + more).store, g, c, n))
  {
    var s, all := Init(s0, now), ls + more;
    forall a: nat, k: nat ensures !Overwrites(logs, s, all, a, k, g, c, n) {
      if a < |all| {
        NothingSlips(g, logs, s, all, a, c, n);
      }
    }
    SecondsNeverDecreaseIff(g, logs, s0, now, all, |ls|, |all|, c, n);
    assert all[..|ls|] == ls && all[..|all|] == all;
    assert NotBefore(SecAfter(logs, s, all, |ls|, g, c, n), SecAfter(logs, s, all, |all|, g, c, n));
  }

  // ---------------------------------------------------------------- a run that goes back

  lemma ThreeSteps(g: Topic, logs: Logs, s: State, p: Part, e: Event, a: State, b: State, d: State)
    requires p in logs && logs[p] == [Rec(e)] && s == Init(s.store, s.clock) && e.messageId !in s.store.locks
    requires Guards(g) && p.topic == g && IsUpdate(e, g)
    requires a == Next(logs, s, Fetch(p)) && b == Next(logs, a, Do(g, Works))
    requires d == Next(logs, b, Do(g, Works))
    ensures PhaseOf(d, g) == AtUpdate(e) && d.store.hashes == s.store.hashes
  {
    assert PhaseOf(a, g) == AtDedup(e) && a.store == s.store;
    assert PhaseOf(b, g) == AtHistory(e) && b.store == Lock(s.store, e.messageId);
  }

  lemma SlipsAndLands(g: Topic, logs: Logs, s0: Store, now: Nanos, ls: seq<Label>, fail: Label, c: string, n: int)
    requires Guards(g) && Routed(logs) && PlainLogsFor(g, logs) && AllStamped(s0, g)
    requires Slips(Run(logs, Init(s0, now), ls), fail, g, c, n)
    ensures var s := Init(s0, now);
            !NotBefore(SecAt(Run(logs, s, ls).store, g, c, n),
                       SecAt(Run(logs, s, ls + [fail, Do(g, Works)]).store, g, c, n))
  {
    var s, go := Init(s0, now), Do(g, Works);
    var a := Run(logs, s, ls);
    assert ls + [fail, go] == ls + [fail] + [go];
    RunSnoc(logs, s, ls, fail);
    RunSnoc(logs, s, ls + [fail], go);
    RunSeconds(g, logs, s0, now, ls);
    RunSeconds(g, logs, s0, now, ls + [fail]);
    assert PhaseOf(a, g).AtUpdate?;
    hide Run, Next, SecAt, SecondsInv, Init;
    NextSecond(g, logs, a, fail, c, n);
    NextSecond(g, logs, Run(logs, s, ls + [fail]), go, c, n);
  }

  lemma RunNothing(logs: Logs, s: State)
    ensures Run(logs, s, []) == s
  {
  }

  lemma ReachesGuard(g: Topic, s0: Store, now: Nanos, e: Event, logs: Logs) returns (ls: seq<Label>)
    requires Guards(g) && IsUpdate(e, g) && e.messageId !in s0.locks && logs == map[Part(g, 0) := [Rec(e)]]
    ensures var d := Run(logs, Init(s0, now), ls);
            PhaseOf(d, g) == AtUpdate(e) && d.store.hashes == s0.hashes
  {
    var p, go := Part(g, 0), Do(g, Works);
    hide Run, Next;
    var more, a, b, d := RunOf3More(logs, Init(s0, now), [], Fetch(p), go, go);
    assert Run(logs, Init(s0, now), []) == Init(s0, now) by {
      RunNothing(logs, Init(s0, now));
    }
    ThreeSteps(g, logs, Init(s0, now), p, e, a, b, d);
    ls := more;
  }

  /** Whatever second is stored, one older event whose guard read fails takes it back: five labels. */
  lemma FailedGuardReadGoesBack(g: Topic, s0: Store, now: Nanos, e: Event, fault: Fault)
    requires Guards(g) && AllStamped(s0, g) && PlainFor(g, e) && IsUpdate(e, g)
    requires e.messageId !in s0.locks && !fault.Works?
    requires SecAt(s0, g, e.charger, e.body.connector).Some?
    requires e.timestamp < SecAt(s0, g, e.charger, e.body.connector).value * SECOND
    ensures exists logs, ls :: Routed(logs) && PlainLogsFor(g, logs)
              && !NotBefore(SecAt(s0, g, e.charger, e.body.connector),
                            SecAt(Run(logs, Init(s0, now), ls).store, g, e.charger, e.body.connector))
  {
    hide Run;
    var logs: Logs := map[Part(g, 0) := [Rec(e)]];
    var ls := ReachesGuard(g, s0, now, e, logs);
    SlipsAndLands(g, logs, s0, now, ls, Do(g, fault), e.charger, e.body.connector);
  }
}
