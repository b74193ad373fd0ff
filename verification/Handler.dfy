/** The state processor's message handler, one store command at a time. */
module Handler {
  import opened Domain
  import opened Store
  import Decimal

  // ---------------------------------------------------------------- what each handler writes

  function StatusFields(e: Event): map<Field, Val>
    requires e.body.Status?
  {
    map[StatusF := Text(e.body.status), ErrorCode := Text(e.body.errorCode),
        StatusTs := Stamp(FloorSec(e.timestamp)), Info := Text(e.body.info)]
  }

  function BootFields(e: Event): map<Field, Val>
    requires e.body.Boot?
  {
    map[Vendor := Text(e.body.vendor), Model := Text(e.body.model),
        Serial := Text(e.body.serial), Firmware := Text(e.body.firmware),
        Online := Text("true"), LastSeen := Stamp(FloorSec(e.timestamp)),
        LastBoot := Stamp(FloorSec(e.timestamp))]
  }

  /** The hash field of a measurand. "ts" is the one measurand whose default field name,
      "meter_" + measurand, is already taken. */
  function FieldOf(measurand: string): Field {
    if measurand == "Energy.Active.Import.Register" then EnergyWh
    else if measurand == "Power.Active.Import" then PowerW
    else if measurand == "SoC" then SocPercent
    else if measurand == "Voltage" then VoltageV
    else if measurand == "Current.Import" then CurrentA
    else if measurand == "ts" then MeterTs
    else MeterOther(measurand)
  }

  /** The samples of one reading laid over `fields`, later samples winning. */
  function AddSamples(fields: map<Field, Val>, samples: seq<Sample>): map<Field, Val>
    decreases |samples|
  {
    if samples == [] then fields
    else AddSamples(fields[FieldOf(samples[0].measurand) := samples[0].value], samples[1..])
  }

  /** Only the last reading of a MeterValues message is kept. */
  function MeterFields(e: Event): map<Field, Val>
    requires e.body.Meter? && e.body.readings != []
  {
    AddSamples(map[MeterTs := Stamp(FloorSec(e.timestamp))], e.body.readings[|e.body.readings| - 1])
  }

  /** The pairing record a Start leaves under tx:active:<charger>. */
  function TxFields(e: Event): map<Field, Val>
    requires e.body.Start?
  {
    map[StartTime := Stamp(FloorSec(e.timestamp)), MeterStart := Num(e.body.meterStart),
        IdTag := Text(e.body.idTag), ConnectorId := Num(e.body.connector)]
  }

  function LastSeenOf(e: Event): map<Field, Val> {
    map[LastSeen := Stamp(FloorSec(e.timestamp))]
  }

  function SeenOnline(e: Event): map<Field, Val> {
    map[LastSeen := Stamp(FloorSec(e.timestamp)), Online := Text("true")]
  }

  // ---------------------------------------------------------------- reads and decisions

  /** The timestamp guard: reject an event that is not after the stored second. A failed or empty
      read lets the event through. */
  predicate Stale(e: Event, stored: Option<Val>) {
    NonEmpty(stored) && e.timestamp <= ParseTime(stored.value)
  }

  function FieldOr(h: map<Field, Val>, f: Field, default: Val): Val {
    if f in h then h[f] else default
  }

  /** Go's conversion of a float64 number of seconds to int: truncation toward zero. */
  function TruncSec(d: Nanos): int {
    if d >= 0 then d / SECOND else -((-d) / SECOND)
  }

  /** The CDR of a Stop, given the pairing record it found. */
  function SessionOf(e: Event, tx: map<Field, Val>): Session
    requires e.body.Stop?
  {
    var start := ParseTime(FieldOr(tx, StartTime, Text("")));
    var meterStart := ScanInt(FieldOr(tx, MeterStart, Text("")));
    var energy := e.body.meterStop - meterStart;
    var storedTag := FieldOr(tx, IdTag, Text(""));
    Session(
      e.eventId, e.charger, ScanInt(FieldOr(tx, ConnectorId, Text(""))),
      if e.body.idTag != "" then e.body.idTag else if storedTag.Text? then storedTag.text else "",
      start, e.timestamp, TruncSec(e.timestamp - start), if energy < 0 then 0 else energy,
      meterStart, e.body.meterStop, e.body.reason)
  }

  function StopCmds(e: Event, tx: map<Field, Val>): seq<Cmd>
    requires e.body.Stop?
  {
    var named := ScanInt(FieldOr(tx, ConnectorId, Text("")));
    var flag := HSet(ConnKey(e.charger, if named > 0 then named else e.connector),
                     map[ActiveTransaction := Text("false")]);
    var tail := [HSet(ChargerKey(e.charger), LastSeenOf(e)), SAdd(ChargersKey, e.charger)];
    if NonEmpty(if StartTime in tx then Some(tx[StartTime]) else None) then
      [InsertSession(SessionOf(e, tx)), flag, Del(TxKey(e.charger))] + tail
    else
      [flag] + tail
  }

  function StartCmds(e: Event): seq<Cmd>
    requires e.body.Start?
  {
    [HSet(ConnKey(e.charger, e.connector),
          map[ActiveTransaction := Text("true"), TxIdTag := Text(e.body.idTag)]),
     SAdd(ConnectorsKey(e.charger), Decimal.Print(e.body.connector)),
     HSet(TxKey(e.charger), TxFields(e)),
     Expire(TxKey(e.charger), DAY),
     HSet(ChargerKey(e.charger), LastSeenOf(e)),
     SAdd(ChargersKey, e.charger)]
  }

  function ConnCmds(e: Event, n: int, fields: map<Field, Val>, seen: map<Field, Val>): seq<Cmd> {
    [HSet(ConnKey(e.charger, n), fields), HSet(ChargerKey(e.charger), seen),
     SAdd(ConnectorsKey(e.charger), Decimal.Print(n)), SAdd(ChargersKey, e.charger)]
  }

  datatype Decision = Reject | Skip | Write(cmds: seq<Cmd>)

  /** `updateLatestState` up to its first write: the one read it makes (which may fail: the code
      then carries on as if nothing were stored) and the commands it will issue. */
  function Plan(e: Event, s: Store, readFails: bool): Decision {
    match e.body
    case Boot(_, _, _, _) => Write([HSet(ChargerKey(e.charger), BootFields(e))])
    case Heartbeat => Write([HSet(ChargerKey(e.charger), SeenOnline(e))])
    case Status(n, _, _, _) =>
      if !readFails && Stale(e, Get(s, ConnKey(e.charger, n), StatusTs)) then Skip
      else Write(ConnCmds(e, n, StatusFields(e), SeenOnline(e)))
    case Meter(n, readings) =>
      if readings == [] then Skip
      else if !readFails && Stale(e, Get(s, ConnKey(e.charger, n), MeterTs)) then Skip
      else Write(ConnCmds(e, n, MeterFields(e), LastSeenOf(e)))
    case Start(_, _, _) => Write(StartCmds(e))
    case Stop(_, _, _) => Write(StopCmds(e, if readFails then map[] else Hash(s, TxKey(e.charger))))
    case Other => Skip
    case _ => Reject
  }

  /** Whether the update step of this event issues a read that could fail. */
  predicate Reads(b: Body) {
    b.Status? || (b.Meter? && b.readings != []) || b.Stop?
  }

  /** The payload decodes as its event type says; only the transaction handler does not mind. */
  predicate Readable(e: Event) {
    !e.body.BadBoot? && !e.body.BadStatus? && !e.body.BadMeter?
  }

  lemma PlanRejects(e: Event, s: Store, readFails: bool)
    ensures Plan(e, s, readFails).Reject? <==> !Readable(e)
  {
    hide StopCmds, StartCmds, ConnCmds, Stale, StatusFields, MeterFields, BootFields;
  }

  // ---------------------------------------------------------------- the handler as a step machine

  /** Where a reader stands: waiting for a message; about to SetNX, to INSERT, to read and decide,
      or to issue the next of its writes; or with its handler returned nil and the commit due. */
  datatype Phase =
    | Idle
    | AtDedup(event: Event)
    | AtHistory(event: Event)
    | AtUpdate(event: Event)
    | Writing(event: Event, cmds: seq<Cmd>)
    | Handled(event: Event)

  predicate Busy(ph: Phase) {
    ph.AtDedup? || ph.AtHistory? || ph.AtUpdate? || ph.Writing?
  }

  /** Past the dedup test and not finished: the stretch in which a failure loses the event. */
  predicate InFlight(ph: Phase) {
    ph.AtHistory? || ph.AtUpdate? || ph.Writing?
  }

  function Continue(e: Event, cmds: seq<Cmd>): Phase {
    if cmds == [] then Handled(e) else Writing(e, cmds)
  }

  /** How a command may go: it works; the server refuses it or never gets it; or the server executes
      it and the answer is lost. The last two are errors to the handler. */
  datatype Fault = Works | Refused | Unheard

  /** One command of the handler. The handler turns an error into an error of its own (Idle: the loop
      fetches the next message without committing), except for the guard read, the pairing read
      and the session insert, whose errors it ignores. */
  function Step(ph: Phase, s: Store, fault: Fault): (Phase, Store) {
    match ph
    case AtDedup(e) =>
      if fault.Refused? then (Idle, s)
      else if fault.Unheard? then (Idle, Lock(s, e.messageId))
      else if e.messageId in s.locks then (Handled(e), s)
      else (AtHistory(e), Lock(s, e.messageId))
    case AtHistory(e) =>
      (if fault.Works? then AtUpdate(e) else Idle, if fault.Refused? then s else Remember(s, e))
    case AtUpdate(e) =>
      (match Plan(e, s, !fault.Works? && Reads(e.body))
       case Reject => (Idle, s)
       case Skip => (Handled(e), s)
       case Write(cmds) => (Continue(e, cmds), s))
    case Writing(e, cmds) =>
      if cmds == [] then (Handled(e), s)
      else
        (if fault.Works? || cmds[0].InsertSession? then Continue(e, cmds[1..]) else Idle,
         if fault.Refused? then s else Exec(s, cmds[0]))
    case _ => (ph, s)
  }

  function Stage(ph: Phase): nat {
    match ph
    case AtDedup(_) => 4
    case AtHistory(_) => 3
    case AtUpdate(_) => 2
    case Writing(_, _) => 1
    case _ => 0
  }

  function Pending(ph: Phase): nat {
    if ph.Writing? then |ph.cmds| else 0
  }

  /** The store once this phase has run to its end with no fault and nobody else writing. */
  function Finish(ph: Phase, s: Store): Store
    decreases Stage(ph), Pending(ph)
  {
    if Busy(ph) then
      var (ph', s') := Step(ph, s, Works);
      Finish(ph', s')
    else s
  }

  /** The handler on one event, and on a sequence of events, run alone. */
  function Handle(s: Store, e: Event): Store {
    Finish(AtDedup(e), s)
  }

  function HandleSeq(s: Store, es: seq<Event>): Store {
    if es == [] then s else Handle(HandleSeq(s, es[..|es| - 1]), es[|es| - 1])
  }

  // ---------------------------------------------------------------- running alone, in one piece

  /** What an event that passes the dedup test does. */
  function Apply(s: Store, e: Event): Store {
    var s1 := Remember(Lock(s, e.messageId), e);
    var d := Plan(e, s1, false);
    if d.Write? then ExecAll(s1, d.cmds) else s1
  }

  lemma {:induction false} FinishWriting(e: Event, cmds: seq<Cmd>, s: Store)
    ensures Finish(Continue(e, cmds), s) == ExecAll(s, cmds)
    decreases |cmds|
  {
    if cmds != [] {
      FinishWriting(e, cmds[1..], Exec(s, cmds[0]));
    }
  }

  lemma FinishUpdate(e: Event, s: Store)
    ensures Finish(AtUpdate(e), s) ==
            var d := Plan(e, s, false); if d.Write? then ExecAll(s, d.cmds) else s
  {
    var d := Plan(e, s, false);
    var ph := Step(AtUpdate(e), s, Works).0;
    assert Finish(AtUpdate(e), s) == Finish(ph, s);
    if d.Write? {
      FinishWriting(e, d.cmds, s);
    }
  }

  /** Command by command or in one piece, an undisturbed handler does the same. */
  lemma HandleIsApply(s: Store, e: Event)
    ensures Handle(s, e) == if e.messageId in s.locks then s else Apply(s, e)
  {
    hide Plan, Remember, Lock;
    if e.messageId in s.locks {
      assert Step(AtDedup(e), s, Works) == (Handled(e), s);
      assert Finish(AtDedup(e), s) == Finish(Handled(e), s);
    } else {
      var s1 := Lock(s, e.messageId);
      var s2 := Remember(s1, e);
      assert Step(AtDedup(e), s, Works) == (AtHistory(e), s1) && Step(AtHistory(e), s1, Works) == (AtUpdate(e), s2);
      assert Finish(AtDedup(e), s) == Finish(AtHistory(e), s1);
      assert Finish(AtHistory(e), s1) == Finish(AtUpdate(e), s2);
      FinishUpdate(e, s2);
    }
  }
}
