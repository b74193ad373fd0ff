/** How long a pairing record lives, by the clock, over every run: faults, crashes, redeliveries and
    readers racing on one charger included. */
module Lifetime {
  import opened Domain
  import opened Store
  import opened Handler
  import opened Machine
  import opened Dedup
  import opened Confluence
  import Billing

  // ---------------------------------------------------------------- what a label does to a record

  /** The server executes a command on the pairing record of the charger. */
  predicate Touches(s: State, l: Label, c: string) {
    l.Do? && !l.fault.Refused?
    && var ph := PhaseOf(s, l.topic);
       ph.Writing? && ph.cmds != [] && !ph.cmds[0].InsertSession? && ph.cmds[0].key == TxKey(c)
  }

  /** The server executes the command of the handler of the Start e that is `left` from the end. */
  predicate Executes(s: State, l: Label, e: Event, left: nat) {
    l.Do? && !l.fault.Refused?
    && var ph := PhaseOf(s, l.topic);
       ph.Writing? && ph.event == e && e.body.Start? && |ph.cmds| == left
  }

  /** At label i the pairing record of the Start e is written: the third of its six commands. */
  ghost predicate WrittenAt(logs: Logs, s: State, ls: seq<Label>, i: nat, e: Event) {
    i < |ls| && Executes(Run(logs, s, ls[..i]), ls[i], e, 4)
  }

  /** At label k it is given its lifetime: the fourth. */
  ghost predicate DatedAt(logs: Logs, s: State, ls: seq<Label>, k: nat, e: Event) {
    k < |ls| && Executes(Run(logs, s, ls[..k]), ls[k], e, 3)
  }

  ghost predicate TouchedAt(logs: Logs, s: State, ls: seq<Label>, m: nat, c: string) {
    m < |ls| && Touches(Run(logs, s, ls[..m]), ls[m], c)
  }

  /** No command on the charger's record is executed after label i. */
  ghost predicate UntouchedAfter(logs: Logs, s: State, ls: seq<Label>, i: nat, c: string) {
    forall m :: i < m < |ls| ==> !TouchedAt(logs, s, ls, m, c)
  }

  function ClockAt(logs: Logs, s: State, ls: seq<Label>, k: nat): Nanos
    requires k <= |ls|
  {
    Run(logs, s, ls[..k]).clock
  }

  /** The record is what the Start says, and nothing else of these four. */
  predicate Tells(h: map<Field, Val>, e: Event) {
    && e.body.Start?
    && StartTime in h && h[StartTime] == Stamp(e.timestamp / 1_000_000_000)
    && MeterStart in h && h[MeterStart] == Num(e.body.meterStart)
    && IdTag in h && h[IdTag] == Text(e.body.idTag)
    && ConnectorId in h && h[ConnectorId] == Num(e.body.connector)
  }

  // ---------------------------------------------------------------- the commands of a Start

  /** A Start is in the middle of its six commands, and nobody else gives a key a lifetime. */
  predicate InOrder(ph: Phase) {
    ph.Writing? ==>
      && ph.cmds != []
      && (ph.event.body.Start? ==> |ph.cmds| <= 6 && ph.cmds == StartCmds(ph.event)[6 - |ph.cmds|..])
      && (!ph.event.body.Start? ==> forall i :: 0 <= i < |ph.cmds| ==> !ph.cmds[i].Expire?)
  }

  lemma PlanInOrder(e: Event, s: Store, readFails: bool)
    ensures var d := Plan(e, s, readFails); d.Write? ==> InOrder(Continue(e, d.cmds))
  {
    hide SessionOf, StatusFields, MeterFields, BootFields, TxFields, SeenOnline, LastSeenOf, Stale;
    if e.body.Start? {
      assert StartCmds(e)[0..] == StartCmds(e);
    }
  }

  lemma StepInOrder(ph: Phase, s: Store, fault: Fault)
    requires InOrder(ph)
    ensures InOrder(Step(ph, s, fault).0)
  {
    if ph.AtUpdate? {
      PlanInOrder(ph.event, s, !fault.Works? && Reads(ph.event.body));
      hide Plan, StartCmds;
    } else if ph.Writing? && ph.cmds != [] {
      hide StartCmds;
      assert ph.event.body.Start? ==> StartCmds(ph.event)[6 - |ph.cmds|..][1..] == StartCmds(ph.event)[7 - |ph.cmds|..];
    }
  }

  ghost predicate ReaderInOrder(s: State, t: Topic) {
    InOrder(PhaseOf(s, t))
  }

  ghost predicate AllInOrder(s: State) {
    forall t :: ReaderInOrder(s, t)
  }

  lemma {:induction false} NextInOrder(logs: Logs, s: State, l: Label)
    requires AllInOrder(s)
    ensures AllInOrder(Next(logs, s, l))
  {
    forall t ensures ReaderInOrder(Next(logs, s, l), t) {
      assert ReaderInOrder(s, t);
      NextPhase(logs, s, l, t);
      if l.Do? {
        StepInOrder(PhaseOf(s, t), s.store, l.fault);
      }
      hide Step, Next;
    }
  }

  lemma {:induction false} RunInOrder(logs: Logs, s0: Store, now: Nanos, ls: seq<Label>)
    ensures AllInOrder(Run(logs, Init(s0, now), ls))
    decreases |ls|
  {
    if ls == [] {
      forall t ensures ReaderInOrder(Init(s0, now), t) {
      }
    } else {
      RunInOrder(logs, s0, now, ls[..|ls| - 1]);
      NextInOrder(logs, Run(logs, Init(s0, now), ls[..|ls| - 1]), ls[|ls| - 1]);
    }
  }

  // ---------------------------------------------------------------- one record, untouched

  /** The charger's record is `was` until `end`, and gone from then on. */
  predicate Kept(s: State, c: string, was: Option<map<Field, Val>>, end: Option<Nanos>) {
    var k := TxKey(c);
    if was.Some? && (end.None? || s.clock < end.value) then
      && k in s.store.hashes && s.store.hashes[k] == was.value
      && (k in s.ttl <==> end.Some?) && (end.Some? ==> s.ttl[k] == end.value)
    else k !in s.store.hashes
  }

  /** The next command is not on this key. */
  predicate Avoids(ph: Phase, k: Key) {
    ph.Writing? && ph.cmds != [] && !ph.cmds[0].InsertSession? ==> ph.cmds[0].key != k
  }

  lemma StepHash(ph: Phase, s: Store, fault: Fault, k: Key)
    requires Busy(ph) && (fault.Refused? || Avoids(ph, k))
    ensures var s' := Step(ph, s, fault).1;
            (k in s'.hashes <==> k in s.hashes) && (k in s.hashes ==> s'.hashes[k] == s.hashes[k])
  {
    hide Plan;
  }

  lemma StepTtl(ttl: map<Key, Nanos>, ph: Phase, s: Store, now: Nanos, k: Key)
    requires Avoids(ph, k) && !k.DedupKey?
    ensures var ttl' := TtlAfter(ttl, ph, s, now); (k in ttl' <==> k in ttl) && (k in ttl ==> ttl'[k] == ttl[k])
  {
  }

  lemma DoKept(s: State, t: Topic, fault: Fault, c: string)
    requires Busy(PhaseOf(s, t)) && !Touches(s, Do(t, fault), c)
    ensures var s' := DoStep(s, t, fault); var k := TxKey(c);
            && (k in s'.store.hashes <==> k in s.store.hashes)
            && (k in s.store.hashes ==> s'.store.hashes[k] == s.store.hashes[k])
            && (k in s'.ttl <==> k in s.ttl) && (k in s.ttl ==> s'.ttl[k] == s.ttl[k])
            && s'.clock == s.clock
  {
    StepHash(PhaseOf(s, t), s.store, fault, TxKey(c));
    if !fault.Refused? {
      StepTtl(s.ttl, PhaseOf(s, t), s.store, s.clock, TxKey(c));
    }
    hide Step, TtlAfter, TallyAfter, Avoids, Touches;
  }

  lemma NextKept(logs: Logs, s: State, l: Label, c: string, was: Option<map<Field, Val>>, end: Option<Nanos>)
    requires Kept(s, c, was, end) && !Touches(s, l, c)
    ensures Kept(Next(logs, s, l), c, was, end)
  {
    if l.Do? && Busy(PhaseOf(s, l.topic)) {
      DoKept(s, l.topic, l.fault, c);
      hide DoStep, Touches;
    } else {
      hide Touches, DoStep;
    }
  }

  lemma {:induction false} StaysKept(logs: Logs, s: State, ls: seq<Label>, i: nat, c: string,
                                     was: Option<map<Field, Val>>, end: Option<Nanos>)
    requires i < |ls| && Kept(Run(logs, s, ls[..i + 1]), c, was, end) && UntouchedAfter(logs, s, ls, i, c)
    ensures Kept(Run(logs, s, ls), c, was, end)
    decreases |ls|
  {
    var n := |ls| - 1;
    if i == n {
      assert ls[..i + 1] == ls;
    } else {
      var before := ls[..n];
      forall m | i < m < n ensures !TouchedAt(logs, s, before, m, c) {
        assert before[..m] == ls[..m];
        assert !TouchedAt(logs, s, ls, m, c);
      }
      assert before[..i + 1] == ls[..i + 1];
      StaysKept(logs, s, before, i, c, was, end);
      assert !TouchedAt(logs, s, ls, n, c);
      hide Touches, Kept, Next;
      NextKept(logs, Run(logs, s, before), ls[n], c, was, end);
    }
  }

  // ---------------------------------------------------------------- a record's day

  function RecordIn(s: State, c: string): Option<map<Field, Val>> {
    if TxKey(c) in s.store.hashes then Some(s.store.hashes[TxKey(c)]) else None
  }

  lemma ExpireDates(s: State, t: Topic, fault: Fault, e: Event)
    requires AllInOrder(s) && Executes(s, Do(t, fault), e, 3)
    ensures Kept(DoStep(s, t, fault), e.charger, RecordIn(s, e.charger), Some(s.clock + 24 * 3600 * 1_000_000_000))
  {
    assert ReaderInOrder(s, t);
    assert PhaseOf(s, t).cmds[0] == StartCmds(e)[3];
    hide TallyAfter, TxFields, Plan;
  }

  lemma AtLabel(logs: Logs, s: State, ls: seq<Label>, k: nat)
    requires k < |ls|
    ensures Run(logs, s, ls[..k + 1]) == Next(logs, Run(logs, s, ls[..k]), ls[k])
  {
    assert ls[..k + 1] == ls[..k] + [ls[k]];
    RunSnoc(logs, s, ls[..k], ls[k]);
  }

  lemma DatedIsKept(logs: Logs, s0: Store, now: Nanos, ls: seq<Label>, k: nat, e: Event)
    requires DatedAt(logs, Init(s0, now), ls, k, e)
    ensures var s := Init(s0, now);
            Kept(Run(logs, s, ls[..k + 1]), e.charger, RecordIn(Run(logs, s, ls[..k]), e.charger),
                 Some(ClockAt(logs, s, ls, k) + 24 * 3600 * 1_000_000_000))
  {
    var s := Init(s0, now);
    var b := Run(logs, s, ls[..k]);
    RunInOrder(logs, s0, now, ls[..k]);
    AtLabel(logs, s, ls, k);
    ExpireDates(b, ls[k].topic, ls[k].fault, e);
    hide DoStep, AllInOrder, Kept, Run;
    assert Next(logs, b, ls[k]) == DoStep(b, ls[k].topic, ls[k].fault);
  }

  /** A pairing record lives for a day: in every run, if the lifetime of the record of a Start was set at
      label k and no command on the record was executed since, it is there, as it was, exactly if it was
      there at k and the clock has not moved by 24 hours. */
  lemma RecordLastsADay(logs: Logs, s0: Store, now: Nanos, ls: seq<Label>, k: nat, e: Event)
    requires DatedAt(logs, Init(s0, now), ls, k, e) && UntouchedAfter(logs, Init(s0, now), ls, k, e.charger)
    ensures var s := Init(s0, now); var was := RecordIn(Run(logs, s, ls[..k]), e.charger);
            RecordIn(Run(logs, s, ls), e.charger)
            == if Run(logs, s, ls).clock < ClockAt(logs, s, ls, k) + 24 * 3600 * 1_000_000_000 then was else None
  {
    var s := Init(s0, now);
    DatedIsKept(logs, s0, now, ls, k, e);
    hide DatedAt, UntouchedAfter, Run;
    StaysKept(logs, s, ls, k, e.charger, RecordIn(Run(logs, s, ls[..k]), e.charger),
              Some(ClockAt(logs, s, ls, k) + 24 * 3600 * 1_000_000_000));
  }

  /** The end of the lifetime the charger's record has, if it has one. */
  function EndOf(s: State, c: string): Option<Nanos> {
    if TxKey(c) in s.ttl then Some(s.ttl[TxKey(c)]) else None
  }

  predicate Ahead(s: State, c: string) {
    TxKey(c) in s.ttl ==> s.clock < s.ttl[TxKey(c)]
  }

  lemma OnlyStartsExpire(ph: Phase)
    requires InOrder(ph) && ph.Writing? && ph.cmds[0].Expire?
    ensures ph.event.body.Start? && |ph.cmds| == 3
            && ph.cmds[0] == Expire(TxKey(ph.event.charger), 24 * 3600 * 1_000_000_000)
  {
    assert ph.cmds[0] == StartCmds(ph.event)[6 - |ph.cmds|];
    hide TxFields, LastSeenOf;
  }

  lemma TtlAhead(ttl: map<Key, Nanos>, ph: Phase, s: Store, now: Nanos, k: Key)
    requires InOrder(ph) && !k.DedupKey? && (k in ttl ==> now < ttl[k])
    ensures k in TtlAfter(ttl, ph, s, now) ==> now < TtlAfter(ttl, ph, s, now)[k]
  {
    if ph.Writing? && ph.cmds[0].Expire? {
      OnlyStartsExpire(ph);
    }
    hide StartCmds, InOrder;
  }

  lemma StepAhead(logs: Logs, s: State, l: Label, c: string)
    requires AllInOrder(s) && Ahead(s, c)
    ensures Ahead(Next(logs, s, l), c)
  {
    if l.Do? && Busy(PhaseOf(s, l.topic)) {
      assert ReaderInOrder(s, l.topic);
      TtlAhead(s.ttl, PhaseOf(s, l.topic), s.store, s.clock, TxKey(c));
      hide Step, TtlAfter, TallyAfter, StartCmds, InOrder;
    } else {
      hide DoStep, AllInOrder;
    }
  }

  lemma {:induction false} RunAhead(logs: Logs, s0: Store, now: Nanos, ls: seq<Label>, c: string)
    ensures Ahead(Run(logs, Init(s0, now), ls), c)
    decreases |ls|
  {
    if ls != [] {
      RunAhead(logs, s0, now, ls[..|ls| - 1], c);
      RunInOrder(logs, s0, now, ls[..|ls| - 1]);
      StepAhead(logs, Run(logs, Init(s0, now), ls[..|ls| - 1]), ls[|ls| - 1], c);
    }
  }

  function Record(e: Event): map<Field, Val>
    requires e.body.Start?
  {
    map[StartTime := Stamp(e.timestamp / 1_000_000_000), MeterStart := Num(e.body.meterStart),
        IdTag := Text(e.body.idTag), ConnectorId := Num(e.body.connector)]
  }

  lemma ThirdCommand(ph: Phase)
    requires InOrder(ph) && ph.Writing? && ph.event.body.Start? && |ph.cmds| == 4
    ensures ph.cmds[0] == HSet(TxKey(ph.event.charger), Record(ph.event))
  {
    assert ph.cmds[0] == StartCmds(ph.event)[2];
  }

  lemma RecordSet(s: State, t: Topic, fault: Fault, c: string, fields: map<Field, Val>)
    requires PhaseOf(s, t).Writing? && PhaseOf(s, t).cmds != [] && !fault.Refused?
    requires PhaseOf(s, t).cmds[0] == HSet(TxKey(c), fields)
    ensures var s' := DoStep(s, t, fault);
            && RecordIn(s', c) == Some(Hash(s.store, TxKey(c)) + fields)
            && s'.ttl == s.ttl && s'.clock == s.clock
  {
    hide TallyAfter, Plan;
  }

  lemma MergedTells(h: map<Field, Val>, e: Event)
    requires e.body.Start?
    ensures Tells(h + Record(e), e)
  {
  }

  lemma WriteKeeps(s: State, t: Topic, fault: Fault, e: Event)
    requires AllInOrder(s) && Executes(s, Do(t, fault), e, 4) && Ahead(s, e.charger)
    ensures var s' := DoStep(s, t, fault);
            && RecordIn(s', e.charger).Some? && Tells(RecordIn(s', e.charger).value, e)
            && Kept(s', e.charger, RecordIn(s', e.charger), EndOf(s, e.charger))
  {
    assert ReaderInOrder(s, t);
    ThirdCommand(PhaseOf(s, t));
    RecordSet(s, t, fault, e.charger, Record(e));
    MergedTells(Hash(s.store, TxKey(e.charger)), e);
    hide DoStep, Record, Hash, Tells;
  }

  /** And it says what its Start said: once the record of a Start is written, and with no command on it
      executed since, it is there with that Start's values, unless a lifetime that an earlier Start left
      on the key has run out. */
  lemma RecordIsOfItsStart(logs: Logs, s0: Store, now: Nanos, ls: seq<Label>, i: nat, e: Event)
    requires WrittenAt(logs, Init(s0, now), ls, i, e) && UntouchedAfter(logs, Init(s0, now), ls, i, e.charger)
    ensures var s := Init(s0, now); var r := RecordIn(Run(logs, s, ls), e.charger);
            var end := EndOf(Run(logs, s, ls[..i]), e.charger);
            && (r.Some? <==> (end.Some? ==> Run(logs, s, ls).clock < end.value))
            && (r.Some? ==> Tells(r.value, e))
  {
    var s := Init(s0, now);
    var b := Run(logs, s, ls[..i]);
    RunInOrder(logs, s0, now, ls[..i]);
    RunAhead(logs, s0, now, ls[..i], e.charger);
    AtLabel(logs, s, ls, i);
    WriteKeeps(b, ls[i].topic, ls[i].fault, e);
    hide DoStep, AllInOrder, Run, WrittenAt, UntouchedAfter, Tells;
    assert Next(logs, b, ls[i]) == DoStep(b, ls[i].topic, ls[i].fault);
    StaysKept(logs, s, ls, i, e.charger, RecordIn(Run(logs, s, ls[..i + 1]), e.charger), EndOf(b, e.charger));
  }

  // ---------------------------------------------------------------- the Stop that reads it

  /** d divided by a second, toward zero. */
  predicate WholeSeconds(n: int, d: Nanos) {
    if d >= 0 then n * 1_000_000_000 <= d < (n + 1) * 1_000_000_000
    else (n - 1) * 1_000_000_000 < d <= n * 1_000_000_000
  }

  /** The CDR of a Start and a Stop. */
  predicate RowSays(r: Session, start: Event, stop: Event)
    requires start.body.Start? && stop.body.Stop?
  {
    && r.sessionId == stop.eventId && r.charger == stop.charger && r.connector == start.body.connector
    && r.idTag == (if stop.body.idTag == "" then start.body.idTag else stop.body.idTag)
    && r.startTime == start.timestamp / 1_000_000_000 * 1_000_000_000 && r.endTime == stop.timestamp
    && WholeSeconds(r.durationSec, r.endTime - r.startTime)
    && r.meterStart == start.body.meterStart && r.meterStop == stop.body.meterStop
    && r.energyWh == (if r.meterStop < r.meterStart then 0 else r.meterStop - r.meterStart)
    && r.reason == stop.body.reason
  }

  lemma Truncates(d: Nanos)
    ensures WholeSeconds(TruncSec(d), d)
  {
  }

  lemma RowOfRecord(stop: Event, h: map<Field, Val>, start: Event)
    requires stop.body.Stop? && Tells(h, start)
    ensures Billing.HasStart(h) && RowSays(SessionOf(stop, h), start, stop)
  {
    Truncates(stop.timestamp - start.timestamp / 1_000_000_000 * 1_000_000_000);
    hide TruncSec, WholeSeconds;
  }

  lemma UpdateWrites(stop: Event, s: Store)
    requires stop.body.Stop?
    ensures Step(AtUpdate(stop), s, Works).0.Writing? && Step(AtUpdate(stop), s, Works).0.event == stop
  {
    hide SessionOf;
  }

  /** The handler of a Stop that reads the record. */
  lemma ReadOrNot(b: State, start: Event, stop: Event)
    requires stop.body.Stop? && stop.charger == start.charger
    requires RecordIn(b, start.charger).Some? ==> Tells(RecordIn(b, start.charger).value, start)
    ensures var ph := Step(AtUpdate(stop), b.store, Works).0;
            && (Billing.Ready(ph, stop) <==> RecordIn(b, start.charger).Some?)
            && (RecordIn(b, start.charger).Some? ==> RowSays(ph.cmds[0].row, start, stop))
            && (RecordIn(b, start.charger).None? ==>
                  ph.Writing? && forall j :: 0 <= j < |ph.cmds| ==> !ph.cmds[j].InsertSession?)
  {
    var h := Hash(b.store, TxKey(stop.charger));
    if RecordIn(b, start.charger).Some? {
      RowOfRecord(stop, h, start);
    }
    Billing.UpdateRows(stop, b.store, Works);
    UpdateWrites(stop, b.store);
    hide Step, RowSays, SessionOf, Tells;
  }

  /** A Stop finds its Start for a day: the pairing record of a Start was written at label i and dated at
      k, where it was still there, no command on it was executed in between or since, and a Stop of the
      charger is about to read it. If the read works, the insert of the CDR of the two comes next if and
      only if the clock has not moved by 24 hours since k; otherwise no insert comes at all. */
  lemma StopFindsItsStart(logs: Logs, s0: Store, now: Nanos, ls: seq<Label>, i: nat, k: nat, start: Event,
                          t: Topic, stop: Event)
    requires WrittenAt(logs, Init(s0, now), ls, i, start) && i < k && DatedAt(logs, Init(s0, now), ls, k, start)
    requires UntouchedAfter(logs, Init(s0, now), ls[..k], i, start.charger)
    requires UntouchedAfter(logs, Init(s0, now), ls, k, start.charger)
    requires RecordIn(Run(logs, Init(s0, now), ls[..k]), start.charger).Some?
    requires PhaseOf(Run(logs, Init(s0, now), ls), t) == AtUpdate(stop)
    requires stop.body.Stop? && stop.charger == start.charger
    ensures var s := Init(s0, now); var b := Run(logs, s, ls); var ph := PhaseOf(Next(logs, b, Do(t, Works)), t);
            var inTime := b.clock < ClockAt(logs, s, ls, k) + 24 * 3600 * 1_000_000_000;
            && (Billing.Ready(ph, stop) <==> inTime)
            && (inTime ==> RowSays(ph.cmds[0].row, start, stop))
            && (!inTime ==> ph.Writing? && forall j :: 0 <= j < |ph.cmds| ==> !ph.cmds[j].InsertSession?)
  {
    var s := Init(s0, now);
    var b := Run(logs, s, ls);
    assert ls[..k][..i] == ls[..i];
    RecordIsOfItsStart(logs, s0, now, ls[..k], i, start);
    RecordLastsADay(logs, s0, now, ls, k, start);
    hide WrittenAt, DatedAt, UntouchedAfter, Run, RowSays, SessionOf, Tells;
    assert PhaseOf(Next(logs, b, Do(t, Works)), t) == Step(AtUpdate(stop), b.store, Works).0 by {
      hide Step;
    }
    ReadOrNot(b, start, stop);
    hide Step, Next, RecordIn;
  }

  // ---------------------------------------------------------------- gentle runs by the clock

  /** The server executes an EXPIRE or a DEL of the charger's record. */
  predicate Redates(s: State, l: Label, c: string) {
    l.Do? && !l.fault.Refused?
    && var ph := PhaseOf(s, l.topic);
       ph.Writing? && ph.cmds != [] && (ph.cmds[0].Expire? || ph.cmds[0].Del?) && ph.cmds[0].key == TxKey(c)
  }

  ghost predicate RedatedAt(logs: Logs, s: State, ls: seq<Label>, m: nat, c: string) {
    m < |ls| && Redates(Run(logs, s, ls[..m]), ls[m], c)
  }

  /** The day that the Start e began at label k is the one its charger's record has been given last. */
  ghost predicate Runs(logs: Logs, s: State, ls: seq<Label>, k: nat, e: Event) {
    && DatedAt(logs, s, ls, k, e) && RecordIn(Run(logs, s, ls[..k]), e.charger).Some?
    && forall m :: k < m < |ls| ==> !RedatedAt(logs, s, ls, m, e.charger)
  }

  /** Time passes, and every such day is less than 24 hours old when it has. */
  ghost predicate InTimeStep(logs: Logs, s: State, before: seq<Label>, l: Label) {
    l.Tick? ==>
      forall k, e :: Runs(logs, s, before, k, e) ==>
        Run(logs, s, before).clock + l.elapsed < ClockAt(logs, s, before, k) + 24 * 3600 * 1_000_000_000
  }

  ghost predicate RecordsInTime(logs: Logs, s: State, ls: seq<Label>) {
    ls == [] || (var before := ls[..|ls| - 1];
                 RecordsInTime(logs, s, before) && InTimeStep(logs, s, before, ls[|ls| - 1]))
  }

  /** No SetNX of a handler comes after the key of its message id was set and has expired. */
  ghost predicate KeysInTime(logs: Logs, s: State, ls: seq<Label>) {
    ls == [] || (var before, l := ls[..|ls| - 1], ls[|ls| - 1];
                 var b := Run(logs, s, before);
                 && KeysInTime(logs, s, before)
                 && (l.Do? && PhaseOf(b, l.topic).AtDedup? ==> FindsKey(b, PhaseOf(b, l.topic).event.messageId)))
  }

  /** The day still runs. */
  predicate Lasts(s: State, c: string, end: Nanos) {
    s.clock < end && TxKey(c) in s.store.hashes && TxKey(c) in s.ttl && s.ttl[TxKey(c)] == end
  }

  lemma DoLasts(s: State, t: Topic, fault: Fault, c: string)
    requires Busy(PhaseOf(s, t)) && !Redates(s, Do(t, fault), c)
    ensures var s' := DoStep(s, t, fault); var k := TxKey(c);
            && (k in s.store.hashes ==> k in s'.store.hashes)
            && (k in s'.ttl <==> k in s.ttl) && (k in s.ttl ==> s'.ttl[k] == s.ttl[k]) && s'.clock == s.clock
  {
    hide Plan, TallyAfter;
  }

  lemma NextLasts(logs: Logs, s: State, l: Label, c: string, end: Nanos)
    requires Lasts(s, c, end) && !Redates(s, l, c) && (l.Tick? ==> s.clock + l.elapsed < end)
    ensures Lasts(Next(logs, s, l), c, end)
  {
    if l.Do? && Busy(PhaseOf(s, l.topic)) {
      DoLasts(s, l.topic, l.fault, c);
      hide DoStep, Redates;
    } else {
      hide Redates, DoStep;
    }
  }

  lemma RunsBefore(logs: Logs, s: State, ls: seq<Label>, k: nat, e: Event)
    requires ls != [] && k < |ls| - 1
    ensures Runs(logs, s, ls, k, e)
            <==> Runs(logs, s, ls[..|ls| - 1], k, e)
                 && !Redates(Run(logs, s, ls[..|ls| - 1]), ls[|ls| - 1], e.charger)
  {
    var n := |ls| - 1;
    var before := ls[..n];
    assert before[..k] == ls[..k];
    forall m: nat | m < n ensures RedatedAt(logs, s, ls, m, e.charger) <==> RedatedAt(logs, s, before, m, e.charger) {
      assert before[..m] == ls[..m];
    }
    hide Redates, Run;
    assert RedatedAt(logs, s, ls, n, e.charger) <==> Redates(Run(logs, s, before), ls[n], e.charger);
  }

  lemma DoClock(logs: Logs, s: State, l: Label)
    ensures !l.Tick? ==> Next(logs, s, l).clock == s.clock
  {
    hide Step, TtlAfter, TallyAfter;
  }

  lemma TickAllowed(s: State, l: Label, c: string, end: Nanos)
    requires GentleStep(s, l) && Lasts(s, c, end)
    ensures l.Tick? ==> s.clock + l.elapsed < end
  {
  }

  lemma {:induction false} GentleLasts(logs: Logs, s0: Store, now: Nanos, ls: seq<Label>, k: nat, e: Event)
    requires Gentle(logs, Init(s0, now), ls) && Runs(logs, Init(s0, now), ls, k, e)
    ensures var s := Init(s0, now);
            Lasts(Run(logs, s, ls), e.charger, ClockAt(logs, s, ls, k) + 24 * 3600 * 1_000_000_000)
    decreases |ls|
  {
    var s := Init(s0, now);
    var n := |ls| - 1;
    if k == n {
      DatedIsKept(logs, s0, now, ls, k, e);
      assert ls[..k + 1] == ls;
      DoClock(logs, Run(logs, s, ls[..k]), ls[k]);
      hide Run, Executes;
    } else {
      var before := ls[..n];
      RunsBefore(logs, s, ls, k, e);
      GentleLasts(logs, s0, now, before, k, e);
      assert before[..k] == ls[..k];
      hide Redates, Lasts, Next, SteadyStep;
      var end := ClockAt(logs, s, ls, k) + 24 * 3600 * 1_000_000_000;
      TickAllowed(Run(logs, s, before), ls[n], e.charger, end);
      NextLasts(logs, Run(logs, s, before), ls[n], e.charger, end);
    }
  }

  /** The day of k is the one this lifetime is of. */
  ghost predicate DayOf(logs: Logs, s: State, ls: seq<Label>, key: Key, k: nat, e: Event) {
    && Runs(logs, s, ls, k, e) && key == TxKey(e.charger)
    && (var b := Run(logs, s, ls); key in b.ttl && b.ttl[key] == ClockAt(logs, s, ls, k) + 24 * 3600 * 1_000_000_000)
  }

  lemma TtlMoves(logs: Logs, s: State, l: Label, key: Key)
    requires AllInOrder(s) && !key.DedupKey? && key in Next(logs, s, l).ttl
    ensures var s' := Next(logs, s, l);
            || (key in s.ttl && s'.ttl[key] == s.ttl[key]
                && (key.TxKey? && key in s.store.hashes ==> !Redates(s, l, key.charger)))
            || (l.Do? && (var e := PhaseOf(s, l.topic).event;
                          && Busy(PhaseOf(s, l.topic)) && key == TxKey(e.charger) && Executes(s, l, e, 3)
                          && RecordIn(s, e.charger).Some? && s'.ttl[key] == s.clock + 24 * 3600 * 1_000_000_000))
  {
    if l.Do? && Busy(PhaseOf(s, l.topic)) {
      var ph := PhaseOf(s, l.topic);
      assert ReaderInOrder(s, l.topic);
      if ph.Writing? && ph.cmds[0].Expire? {
        OnlyStartsExpire(ph);
      }
      hide Step, TallyAfter, StartCmds;
    } else {
      hide DoStep;
    }
  }

  lemma NewDay(logs: Logs, s: State, ls: seq<Label>, e: Event)
    requires ls != [] && Executes(Run(logs, s, ls[..|ls| - 1]), ls[|ls| - 1], e, 3)
    requires RecordIn(Run(logs, s, ls[..|ls| - 1]), e.charger).Some?
    ensures Runs(logs, s, ls, |ls| - 1, e)
  {
  }

  /** While nothing has expired, every lifetime of a record is of a day that a Start began. */
  lemma {:induction false} LifetimesBegun(logs: Logs, s0: Store, now: Nanos, ls: seq<Label>, key: Key)
    returns (k: nat, e: Event)
    requires Gentle(logs, Init(s0, now), ls) && !key.DedupKey? && key in Run(logs, Init(s0, now), ls).ttl
    ensures DayOf(logs, Init(s0, now), ls, key, k, e)
    decreases |ls|
  {
    var s := Init(s0, now);
    if ls == [] {
      assert false;
    } else {
      var n := |ls| - 1;
      var before := ls[..n];
      var b := Run(logs, s, before);
      RunInOrder(logs, s0, now, before);
      hide Next, GentleStep, Executes, AllInOrder;
      TtlMoves(logs, b, ls[n], key);
      if key in b.ttl && Next(logs, b, ls[n]).ttl[key] == b.ttl[key] {
        k, e := LifetimesBegun(logs, s0, now, before, key);
        hide Redates;
        assert before[..k] == ls[..k];
        GentleLasts(logs, s0, now, before, k, e);
        if !Redates(b, ls[n], e.charger) {
          RunsBefore(logs, s, ls, k, e);
          return;
        }
      }
      k, e := n, PhaseOf(b, ls[n].topic).event;
      NewDay(logs, s, ls, e);
    }
  }

  /** Gentle by the clock. */
  lemma TickIff(logs: Logs, s0: Store, now: Nanos, before: seq<Label>, d: nat)
    requires Gentle(logs, Init(s0, now), before)
    ensures var s := Init(s0, now); var b := Run(logs, s, before);
            (forall k :: k in b.ttl && !k.DedupKey? ==> b.clock + d < b.ttl[k])
            <==> InTimeStep(logs, s, before, Tick(d))
  {
    var s := Init(s0, now);
    var b := Run(logs, s, before);
    hide Gentle, Executes, Run;
    if forall k :: k in b.ttl && !k.DedupKey? ==> b.clock + d < b.ttl[k] {
      forall k, e | Runs(logs, s, before, k, e)
        ensures b.clock + d < ClockAt(logs, s, before, k) + 24 * 3600 * 1_000_000_000
      {
        GentleLasts(logs, s0, now, before, k, e);
      }
    }
    if InTimeStep(logs, s, before, Tick(d)) {
      forall key | key in b.ttl && !key.DedupKey? ensures b.clock + d < b.ttl[key] {
        var k, e := LifetimesBegun(logs, s0, now, before, key);
      }
    }
  }

  lemma NotTick(logs: Logs, s: State, before: seq<Label>, l: Label)
    requires !l.Tick?
    ensures InTimeStep(logs, s, before, l)
  {
  }

  /** What a gentle run is, by the clock: a steady one in which no SetNX comes after the key of its id has
      expired, and time never passes the 24 hours of a record since its Start dated it, unless it was
      dated again or deleted. */
  lemma {:induction false} GentleByTheClock(logs: Logs, s0: Store, now: Nanos, ls: seq<Label>)
    ensures var s := Init(s0, now);
            Gentle(logs, s, ls) <==> Steady(logs, s, ls) && KeysInTime(logs, s, ls) && RecordsInTime(logs, s, ls)
    decreases |ls|
  {
    if ls != [] {
      var s := Init(s0, now);
      var before, l := ls[..|ls| - 1], ls[|ls| - 1];
      GentleByTheClock(logs, s0, now, before);
      hide InTimeStep, SteadyStep, FindsKey, Run;
      if Gentle(logs, s, before) && l.Tick? {
        TickIff(logs, s0, now, before, l.elapsed);
      } else if !l.Tick? {
        NotTick(logs, s, before, l);
      }
    }
  }
}
