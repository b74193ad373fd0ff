/** Who may write what. Every cell of the stores belongs to one lane, or is shared and only ever
    switched on, or (last_seen) is written by everybody. A lane's handler reads only its own
    cells, so what it does cannot depend on when the other readers run. */
module Ownership {
  import opened Domain
  import opened Store
  import opened Handler
  import opened Machine

  datatype Cell =
    | H(key: Key, field: Field)
    | M(key: Key, member: string)
    | L(messageId: string)
    | Hist(eventId: string)
    | Sess(sessionId: string)

  datatype Content = V(val: Val) | Unit | Ev(event: Event) | Row(row: Session)

  function Look(s: Store, x: Cell): Option<Content> {
    match x
    case H(k, f) => if f in Hash(s, k) then Some(V(Hash(s, k)[f])) else None
    case M(k, m) => if m in Members(s, k) then Some(Unit) else None
    case L(m) => if m in s.locks then Some(Unit) else None
    case Hist(id) => if id in s.history then Some(Ev(s.history[id])) else None
    case Sess(id) => if id in s.sessions then Some(Row(s.sessions[id])) else None
  }

  /** What a command makes of one cell, given only that cell's old content. */
  function Effect(c: Cmd, x: Cell, before: Option<Content>): Option<Content> {
    match c
    case HSet(k, fields) => if x.H? && x.key == k && x.field in fields then Some(V(fields[x.field])) else before
    case SAdd(k, m) => if x == M(k, m) then Some(Unit) else before
    case Expire(_, _) => before
    case Del(k) => if x.H? && x.key == k then None else before
    case InsertSession(r) => if x == Sess(r.sessionId) && before.None? then Some(Row(r)) else before
  }

  lemma ExecLook(s: Store, c: Cmd, x: Cell)
    ensures Look(Exec(s, c), x) == Effect(c, x, Look(s, x))
  {
  }

  // ---------------------------------------------------------------- homes

  datatype Home = Owned(lane: Lane) | Shared | Ignored

  /** The reader that writes a field of a connector hash. */
  function ConnTopic(f: Field): Topic {
    match f
    case StatusF => StatusTopic
    case ErrorCode => StatusTopic
    case StatusTs => StatusTopic
    case Info => StatusTopic
    case ActiveTransaction => TxTopic
    case TxIdTag => TxTopic
    case _ => MeterTopic
  }

  ghost predicate UsesMessageId(logs: Logs, p: Part, i: nat, m: string) {
    p in logs && i < |logs[p]| && logs[p][i].Rec? && logs[p][i].event.messageId == m
  }

  ghost predicate UsesEventId(logs: Logs, p: Part, i: nat, id: string) {
    p in logs && i < |logs[p]| && logs[p][i].Rec? && logs[p][i].event.eventId == id
  }

  ghost function MessageLane(logs: Logs, m: string): Lane {
    if exists p, i :: UsesMessageId(logs, p, i, m) then
      var p, i: nat :| UsesMessageId(logs, p, i, m);
      LaneOf(logs[p][i].event)
    else Lane(HeartbeatTopic, "")
  }

  ghost function EventLane(logs: Logs, id: string): Lane {
    if exists p, i :: UsesEventId(logs, p, i, id) then
      var p, i: nat :| UsesEventId(logs, p, i, id);
      LaneOf(logs[p][i].event)
    else Lane(HeartbeatTopic, "")
  }

  /** A lane that shares an id with another one has no cell that is safe from it. */
  ghost function OwnedBy(logs: Logs, l: Lane): Home {
    if CleanLane(logs, l) then Owned(l) else Ignored
  }

  ghost function SharedIn(logs: Logs, charger: string): Home {
    if CleanCharger(logs, charger) then Shared else Ignored
  }

  ghost function HomeOf(logs: Logs, x: Cell): Home {
    match x
    case H(ChargerKey(c), f) =>
      if f == Online then SharedIn(logs, c) else if f == LastSeen then Ignored else OwnedBy(logs, Lane(BootTopic, c))
    case H(ConnKey(c, _), f) => OwnedBy(logs, Lane(ConnTopic(f), c))
    case H(TxKey(c), _) => OwnedBy(logs, Lane(TxTopic, c))
    case H(_, _) => OwnedBy(logs, Lane(HeartbeatTopic, ""))  // nobody writes a hash there
    case M(ConnectorsKey(c), _) => SharedIn(logs, c)
    case M(ChargersKey, c) => SharedIn(logs, c)
    case M(_, _) => Shared
    case L(m) => OwnedBy(logs, MessageLane(logs, m))
    case Hist(id) => OwnedBy(logs, EventLane(logs, id))
    case Sess(id) => OwnedBy(logs, EventLane(logs, id))
  }

  /** The one value a shared cell is ever given. */
  function OnValue(x: Cell): Content {
    if x.H? then V(Text("true")) else Unit
  }

  predicate On(s: Store, x: Cell) {
    Look(s, x) == Some(OnValue(x))
  }

  ghost predicate Agree(logs: Logs, a: Store, b: Store, l: Lane) {
    forall x :: HomeOf(logs, x) == Owned(l) ==> Look(a, x) == Look(b, x)
  }

  ghost predicate Grows(logs: Logs, a: Store, b: Store) {
    forall x :: HomeOf(logs, x) == Shared && On(a, x) ==> On(b, x)
  }

  // ---------------------------------------------------------------- what a lane's handler touches

  ghost predicate EventIn(logs: Logs, e: Event, l: Lane) {
    && LaneOf(e) == l
    && if CleanLane(logs, l) then MessageLane(logs, e.messageId) == l && EventLane(logs, e.eventId) == l
       else !CleanLane(logs, MessageLane(logs, e.messageId)) && !CleanLane(logs, EventLane(logs, e.eventId))
  }

  ghost predicate MayTouch(logs: Logs, l: Lane, x: Cell, after: Option<Content>) {
    var h := HomeOf(logs, x);
    h == Owned(l) || h == Ignored || (h == Shared && CleanLane(logs, l) && after == Some(OnValue(x)))
  }

  ghost predicate CmdIn(logs: Logs, l: Lane, c: Cmd) {
    match c
    case HSet(k, fields) => forall f :: f in fields ==> MayTouch(logs, l, H(k, f), Some(V(fields[f])))
    case SAdd(k, m) => MayTouch(logs, l, M(k, m), Some(Unit))
    case Expire(_, _) => true
    case Del(k) => forall f :: MayTouch(logs, l, H(k, f), None)
    case InsertSession(r) => MayTouch(logs, l, Sess(r.sessionId), Some(Row(r)))
  }

  ghost predicate AllIn(logs: Logs, l: Lane, cmds: seq<Cmd>) {
    forall i :: 0 <= i < |cmds| ==> CmdIn(logs, l, cmds[i])
  }

  ghost predicate PhaseIn(logs: Logs, l: Lane, ph: Phase) {
    Busy(ph) ==>
      && EventIn(logs, ph.event, l)
      && (ph.Writing? ==> AllIn(logs, l, ph.cmds))
  }

  lemma {:induction false} SamplesStayMeter(fields: map<Field, Val>, samples: seq<Sample>)
    requires forall f :: f in fields ==> ConnTopic(f) == MeterTopic
    ensures forall f :: f in AddSamples(fields, samples) ==> ConnTopic(f) == MeterTopic
    decreases |samples|
  {
    if samples != [] {
      SamplesStayMeter(fields[FieldOf(samples[0].measurand) := samples[0].value], samples[1..]);
    }
  }

  /** What every lane of a charger may do: set its seen and online fields and list it. */
  lemma ChargerCells(logs: Logs, l: Lane)
    ensures forall f, v :: f == LastSeen || (f == Online && v == Text("true")) ==>
              MayTouch(logs, l, H(ChargerKey(l.charger), f), Some(V(v)))
    ensures MayTouch(logs, l, M(ChargersKey, l.charger), Some(Unit))
    ensures forall m :: MayTouch(logs, l, M(ConnectorsKey(l.charger), m), Some(Unit))
  {
    assert l == Lane(l.topic, l.charger);
    assert CleanCharger(logs, l.charger) ==> CleanLane(logs, l);
    hide CleanLane, CleanCharger;
  }

  /** A lane's own cells. */
  lemma OwnCell(logs: Logs, l: Lane, x: Cell, after: Option<Content>)
    requires HomeOf(logs, x) == OwnedBy(logs, l)
    ensures MayTouch(logs, l, x, after)
  {
    hide CleanLane;
  }

  lemma ConnCmdsIn(logs: Logs, l: Lane, e: Event, n: int, fields: map<Field, Val>, seen: map<Field, Val>)
    requires l == Lane(StatusTopic, e.charger) || l == Lane(MeterTopic, e.charger)
    requires forall f :: f in fields ==> ConnTopic(f) == l.topic
    requires seen == LastSeenOf(e) || seen == SeenOnline(e)
    ensures AllIn(logs, l, ConnCmds(e, n, fields, seen))
  {
    var cmds := ConnCmds(e, n, fields, seen);
    ChargerCells(logs, l);
    hide MayTouch;
    forall f | f in fields ensures MayTouch(logs, l, H(ConnKey(e.charger, n), f), Some(V(fields[f]))) {
      OwnCell(logs, l, H(ConnKey(e.charger, n), f), Some(V(fields[f])));
    }
    assert CmdIn(logs, l, cmds[0]);
    assert CmdIn(logs, l, cmds[1]);
    assert CmdIn(logs, l, cmds[2]) && CmdIn(logs, l, cmds[3]);
  }

  lemma StartHashesIn(logs: Logs, l: Lane, e: Event)
    requires e.body.Start? && l == Lane(TxTopic, e.charger)
    ensures CmdIn(logs, l, HSet(TxKey(e.charger), TxFields(e)))
    ensures CmdIn(logs, l, HSet(ConnKey(e.charger, e.connector),
        map[ActiveTransaction := Text("true"), TxIdTag := Text(e.body.idTag)]))
  {
    hide MayTouch;
    forall f, v ensures MayTouch(logs, l, H(TxKey(e.charger), f), Some(V(v))) {
      OwnCell(logs, l, H(TxKey(e.charger), f), Some(V(v)));
    }
    forall f, v | f == ActiveTransaction || f == TxIdTag
      ensures MayTouch(logs, l, H(ConnKey(e.charger, e.connector), f), Some(V(v)))
    {
      OwnCell(logs, l, H(ConnKey(e.charger, e.connector), f), Some(V(v)));
    }
  }

  lemma StartCmdsIn(logs: Logs, l: Lane, e: Event)
    requires e.body.Start? && l == Lane(TxTopic, e.charger)
    ensures AllIn(logs, l, StartCmds(e))
  {
    var cmds := StartCmds(e);
    StartHashesIn(logs, l, e);
    ChargerCells(logs, l);
    hide MayTouch, TxFields;
    assert CmdIn(logs, l, cmds[1]) && CmdIn(logs, l, cmds[4]) && CmdIn(logs, l, cmds[5]);
  }

  lemma StopRowIn(logs: Logs, l: Lane, e: Event, tx: map<Field, Val>)
    requires e.body.Stop? && EventIn(logs, e, l)
    ensures CmdIn(logs, l, InsertSession(SessionOf(e, tx)))
  {
    assert SessionOf(e, tx).sessionId == e.eventId;
    hide SessionOf, CleanLane;
  }

  lemma StopWritesIn(logs: Logs, l: Lane, e: Event, n: int)
    requires e.body.Stop? && l == Lane(TxTopic, e.charger)
    ensures CmdIn(logs, l, HSet(ConnKey(e.charger, n), map[ActiveTransaction := Text("false")]))
    ensures CmdIn(logs, l, Del(TxKey(e.charger))) && CmdIn(logs, l, SAdd(ChargersKey, e.charger))
    ensures CmdIn(logs, l, HSet(ChargerKey(e.charger), LastSeenOf(e)))
  {
    ChargerCells(logs, l);
    hide MayTouch;
    OwnCell(logs, l, H(ConnKey(e.charger, n), ActiveTransaction), Some(V(Text("false"))));
    forall f ensures MayTouch(logs, l, H(TxKey(e.charger), f), None) {
      OwnCell(logs, l, H(TxKey(e.charger), f), None);
    }
  }

  lemma StopCmdsIn(logs: Logs, l: Lane, e: Event, tx: map<Field, Val>)
    requires e.body.Stop? && EventIn(logs, e, l)
    ensures AllIn(logs, l, StopCmds(e, tx))
  {
    var named := ScanInt(FieldOr(tx, ConnectorId, Text("")));
    StopRowIn(logs, l, e, tx);
    StopWritesIn(logs, l, e, if named > 0 then named else e.connector);
    hide SessionOf, CmdIn, LastSeenOf, EventIn;
  }

  lemma ChargerCmdIn(logs: Logs, l: Lane, e: Event, fields: map<Field, Val>)
    requires l.charger == e.charger
    requires fields == SeenOnline(e) || (e.body.Boot? && l.topic == BootTopic && fields == BootFields(e))
    ensures CmdIn(logs, l, HSet(ChargerKey(e.charger), fields))
  {
    ChargerCells(logs, l);
    hide MayTouch;
    forall f | f in fields ensures MayTouch(logs, l, H(ChargerKey(e.charger), f), Some(V(fields[f]))) {
      if f != Online && f != LastSeen {
        OwnCell(logs, l, H(ChargerKey(e.charger), f), Some(V(fields[f])));
      }
    }
  }

  lemma StatusCmdsIn(logs: Logs, l: Lane, e: Event, n: int)
    requires e.body.Status? && l == Lane(StatusTopic, e.charger)
    ensures AllIn(logs, l, ConnCmds(e, n, StatusFields(e), SeenOnline(e)))
  {
    ConnCmdsIn(logs, l, e, n, StatusFields(e), SeenOnline(e));
  }

  lemma MeterCmdsIn(logs: Logs, l: Lane, e: Event, n: int)
    requires e.body.Meter? && e.body.readings != [] && l == Lane(MeterTopic, e.charger)
    ensures AllIn(logs, l, ConnCmds(e, n, MeterFields(e), LastSeenOf(e)))
  {
    SamplesStayMeter(map[MeterTs := Stamp(FloorSec(e.timestamp))], e.body.readings[|e.body.readings| - 1]);
    hide AddSamples;
    ConnCmdsIn(logs, l, e, n, MeterFields(e), LastSeenOf(e));
  }

  /** Disjoint field ownership: whatever a handler decides to write stays in its lane. */
  lemma PlanIn(logs: Logs, l: Lane, e: Event, s: Store, readFails: bool)
    requires EventIn(logs, e, l)
    ensures var d := Plan(e, s, readFails); d.Write? ==> AllIn(logs, l, d.cmds)
  {
    hide StopCmds, StartCmds, ConnCmds, Stale, CmdIn, StatusFields, MeterFields;
    match e.body
    case Boot(_, _, _, _) => ChargerCmdIn(logs, l, e, BootFields(e));
    case Heartbeat => ChargerCmdIn(logs, l, e, SeenOnline(e));
    case Status(n, _, _, _) => StatusCmdsIn(logs, l, e, n);
    case Meter(n, readings) =>
      if readings != [] {
        MeterCmdsIn(logs, l, e, n);
      }
    case Start(_, _, _) => StartCmdsIn(logs, l, e);
    case Stop(_, _, _) => StopCmdsIn(logs, l, e, if readFails then map[] else Hash(s, TxKey(e.charger)));
    case _ =>
  }

  lemma StepStaysIn(logs: Logs, l: Lane, ph: Phase, s: Store, fault: Fault)
    requires PhaseIn(logs, l, ph)
    ensures PhaseIn(logs, l, Step(ph, s, fault).0)
  {
    hide CmdIn, EventIn, Plan;
    if ph.AtUpdate? {
      PlanIn(logs, l, ph.event, s, !fault.Works? && Reads(ph.event.body));
    }
  }

  // ---------------------------------------------------------------- the three facts about a step

  lemma ExecTouches(logs: Logs, l: Lane, c: Cmd, s: Store, x: Cell)
    requires CmdIn(logs, l, c)
    ensures Look(Exec(s, c), x) == Look(s, x) || MayTouch(logs, l, x, Look(Exec(s, c), x))
  {
    ExecLook(s, c, x);
    hide MayTouch, Look, Exec;
  }

  lemma KeysTouched(logs: Logs, l: Lane, e: Event, s: Store, x: Cell)
    requires EventIn(logs, e, l)
    ensures Look(Lock(s, e.messageId), x) == Look(s, x) || MayTouch(logs, l, x, Look(Lock(s, e.messageId), x))
    ensures Look(Remember(s, e), x) == Look(s, x) || MayTouch(logs, l, x, Look(Remember(s, e), x))
  {
    hide CleanLane;
  }

  /** A step changes no cell of another lane and switches no shared cell off. */
  lemma StepFrame(logs: Logs, l: Lane, ph: Phase, s: Store, fault: Fault)
    requires PhaseIn(logs, l, ph)
    ensures var s' := Step(ph, s, fault).1;
            forall x :: Look(s', x) == Look(s, x) || MayTouch(logs, l, x, Look(s', x))
  {
    var s' := Step(ph, s, fault).1;
    hide MayTouch, Look, Plan, EventIn, CmdIn, Exec, Lock, Remember;
    forall x ensures Look(s', x) == Look(s, x) || MayTouch(logs, l, x, Look(s', x)) {
      if ph.Writing? && ph.cmds != [] {
        ExecTouches(logs, l, ph.cmds[0], s, x);
      } else if Busy(ph) {
        KeysTouched(logs, l, ph.event, s, x);
      }
    }
  }

  lemma PlanReadsOwn(logs: Logs, l: Lane, e: Event, a: Store, b: Store)
    requires CleanLane(logs, l) && EventIn(logs, e, l) && Agree(logs, a, b, l)
    ensures Plan(e, a, false) == Plan(e, b, false)
  {
    match e.body
    case Status(n, _, _, _) =>
      assert HomeOf(logs, H(ConnKey(e.charger, n), StatusTs)) == Owned(l);
    case Meter(n, _) =>
      assert HomeOf(logs, H(ConnKey(e.charger, n), MeterTs)) == Owned(l);
    case Stop(_, _, _) =>
      var k := TxKey(e.charger);
      forall f ensures f in Hash(a, k) <==> f in Hash(b, k)
               ensures f in Hash(a, k) && f in Hash(b, k) ==> Hash(a, k)[f] == Hash(b, k)[f]
      {
        assert HomeOf(logs, H(k, f)) == Owned(l);
        assert Look(a, H(k, f)) == Look(b, H(k, f));
      }
      assert Hash(a, k) == Hash(b, k);
    case _ =>
  }

  lemma ExecCong(logs: Logs, l: Lane, c: Cmd, a: Store, b: Store)
    requires Agree(logs, a, b, l)
    ensures Agree(logs, Exec(a, c), Exec(b, c), l)
    ensures forall x :: HomeOf(logs, x) == Shared && On(Exec(a, c), x) ==> On(a, x) || On(Exec(b, c), x)
  {
    forall x ensures Look(Exec(a, c), x) == Effect(c, x, Look(a, x))
             ensures Look(Exec(b, c), x) == Effect(c, x, Look(b, x))
    {
      ExecLook(a, c, x);
      ExecLook(b, c, x);
    }
  }

  lemma LockCong(logs: Logs, l: Lane, e: Event, a: Store, b: Store)
    requires CleanLane(logs, l) && EventIn(logs, e, l) && Agree(logs, a, b, l)
    ensures e.messageId in a.locks <==> e.messageId in b.locks
    ensures Agree(logs, Lock(a, e.messageId), Lock(b, e.messageId), l)
  {
    assert HomeOf(logs, L(e.messageId)) == Owned(l);
    assert Look(a, L(e.messageId)) == Look(b, L(e.messageId));
    hide HomeOf, CleanLane, EventIn;
    forall x | HomeOf(logs, x) == Owned(l)
      ensures Look(Lock(a, e.messageId), x) == Look(Lock(b, e.messageId), x)
    {
      assert Look(a, x) == Look(b, x);
    }
  }

  lemma RememberCong(logs: Logs, l: Lane, e: Event, a: Store, b: Store)
    requires CleanLane(logs, l) && EventIn(logs, e, l) && Agree(logs, a, b, l)
    ensures Agree(logs, Remember(a, e), Remember(b, e), l)
  {
    assert HomeOf(logs, Hist(e.eventId)) == Owned(l);
    assert Look(a, Hist(e.eventId)) == Look(b, Hist(e.eventId));
    hide HomeOf, CleanLane, EventIn;
    forall x | HomeOf(logs, x) == Owned(l) ensures Look(Remember(a, e), x) == Look(Remember(b, e), x) {
      assert Look(a, x) == Look(b, x);
    }
  }

  /** On stores that agree on the lane's cells a step takes the same branch, leaves them agreeing,
      and switches on nothing in one that it does not switch on in the other. */
  lemma StepCong(logs: Logs, l: Lane, ph: Phase, a: Store, b: Store)
    requires CleanLane(logs, l) && PhaseIn(logs, l, ph) && Agree(logs, a, b, l)
    ensures Step(ph, a, Works).0 == Step(ph, b, Works).0
    ensures Agree(logs, Step(ph, a, Works).1, Step(ph, b, Works).1, l)
    ensures forall x :: HomeOf(logs, x) == Shared && On(Step(ph, a, Works).1, x)
                        ==> On(a, x) || On(Step(ph, b, Works).1, x)
  {
    match ph
    case AtDedup(e) => LockCong(logs, l, e, a, b);
    case AtHistory(e) => RememberCong(logs, l, e, a, b);
    case AtUpdate(e) => PlanReadsOwn(logs, l, e, a, b);
    case Writing(e, cmds) =>
      if cmds != [] {
        ExecCong(logs, l, cmds[0], a, b);
      }
    case _ =>
  }

  lemma {:induction false} FinishGrows(logs: Logs, l: Lane, ph: Phase, s: Store)
    requires PhaseIn(logs, l, ph)
    ensures Grows(logs, s, Finish(ph, s))
    ensures forall x :: Look(Finish(ph, s), x) == Look(s, x) || MayTouch(logs, l, x, Look(Finish(ph, s), x))
    decreases Stage(ph), Pending(ph)
  {
    if Busy(ph) {
      var (ph', s') := Step(ph, s, Works);
      StepStaysIn(logs, l, ph, s, Works);
      StepFrame(logs, l, ph, s, Works);
      FinishGrows(logs, l, ph', s');
      hide Step, Look, HomeOf, CleanLane, PhaseIn;
    }
  }

  lemma NothingOwned(logs: Logs, l: Lane, x: Cell)
    requires !CleanLane(logs, l)
    ensures HomeOf(logs, x) != Owned(l)
  {
  }

  /** The same for a whole handler, from wherever it stands; one of a lane that shares ids has no cell
      to agree on, and switches nothing on that matters. */
  lemma {:induction false} FinishCong(logs: Logs, l: Lane, ph: Phase, a: Store, b: Store)
    requires PhaseIn(logs, l, ph) && Agree(logs, a, b, l)
    ensures Agree(logs, Finish(ph, a), Finish(ph, b), l)
    ensures forall x :: HomeOf(logs, x) == Shared && On(Finish(ph, a), x) ==> On(a, x) || On(Finish(ph, b), x)
    decreases Stage(ph), Pending(ph)
  {
    if !CleanLane(logs, l) {
      FinishGrows(logs, l, ph, a);
      forall x ensures HomeOf(logs, x) != Owned(l) {
        NothingOwned(logs, l, x);
      }
    } else if Busy(ph) {
      StepCong(logs, l, ph, a, b);
      StepStaysIn(logs, l, ph, a, Works);
      var (ph', a') := Step(ph, a, Works);
      var b' := Step(ph, b, Works).1;
      FinishCong(logs, l, ph', a', b');
      FinishGrows(logs, l, ph', b');
    }
  }
}
