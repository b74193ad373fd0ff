/** What handling one event leaves in every cell of the stores, said cell by cell and without the commands
    that do it: an independent account of the update of each event type. */
module Effects {
  import opened Domain
  import opened Store
  import opened Handler
  import opened Ownership
  import Decimal

  // ---------------------------------------------------------------- reading a cell

  function SecondsIn(v: Option<Content>): Nanos {
    match v
    case Some(V(Stamp(sec))) => sec * 1_000_000_000
    case _ => 0
  }

  function NumberIn(v: Option<Content>): int {
    match v
    case Some(V(Num(n))) => n
    case _ => 0
  }

  function TextIn(v: Option<Content>): string {
    match v
    case Some(V(Text(t))) => t
    case _ => ""
  }

  predicate Filled(v: Option<Content>) {
    v.Some? && v.value != V(Text(""))
  }

  // ---------------------------------------------------------------- the reference

  /** The whole second of the event. */
  function Second(e: Event): Option<Content> {
    Some(V(Stamp(e.timestamp / 1_000_000_000)))
  }

  function Says(text: string): Option<Content> {
    Some(V(Text(text)))
  }

  function Counts(n: int): Option<Content> {
    Some(V(Num(n)))
  }

  /** The event is later than what the connector's hash has under the timestamp field. */
  predicate Newer(s: Store, e: Event, n: int, ts: Field) {
    var stored := Look(s, H(ConnKey(e.charger, n), ts));
    !Filled(stored) || e.timestamp > SecondsIn(stored)
  }

  /** The event changes the latest state. */
  predicate Takes(s: Store, e: Event) {
    match e.body
    case Boot(_, _, _, _) => true
    case Heartbeat => true
    case Start(_, _, _) => true
    case Stop(_, _, _) => true
    case Status(n, _, _, _) => Newer(s, e, n, StatusTs)
    case Meter(n, readings) => readings != [] && Newer(s, e, n, MeterTs)
    case _ => false
  }

  /** The measurand goes to this field. */
  predicate Measures(measurand: string, f: Field) {
    match f
    case EnergyWh => measurand == "Energy.Active.Import.Register"
    case PowerW => measurand == "Power.Active.Import"
    case SocPercent => measurand == "SoC"
    case VoltageV => measurand == "Voltage"
    case CurrentA => measurand == "Current.Import"
    case MeterTs => measurand == "ts"
    case MeterOther(m) =>
      measurand == m
      && m !in {"Energy.Active.Import.Register", "Power.Active.Import", "SoC", "Voltage", "Current.Import", "ts"}
    case _ => false
  }

  /** The value of the last sample for the field. */
  function LastSample(samples: seq<Sample>, f: Field): Option<Val> {
    if samples == [] then None
    else if Measures(samples[|samples| - 1].measurand, f) then Some(samples[|samples| - 1].value)
    else LastSample(samples[..|samples| - 1], f)
  }

  /** A field of the hash of a charger. */
  function InCharger(e: Event, f: Field, before: Option<Content>): Option<Content> {
    match f
    case LastSeen => Second(e)
    case Online => if e.body.Boot? || e.body.Status? || e.body.Heartbeat? then Says("true") else before
    case Vendor => if e.body.Boot? then Says(e.body.vendor) else before
    case Model => if e.body.Boot? then Says(e.body.model) else before
    case Serial => if e.body.Boot? then Says(e.body.serial) else before
    case Firmware => if e.body.Boot? then Says(e.body.firmware) else before
    case LastBoot => if e.body.Boot? then Second(e) else before
    case _ => before
  }

  /** The connector a Stop clears: the one the pairing record names, or else its own. */
  function Cleared(s: Store, e: Event): int {
    var named := NumberIn(Look(s, H(TxKey(e.charger), ConnectorId)));
    if named > 0 then named else e.connector
  }

  /** A field of the hash of a connector. */
  function InConnector(s: Store, e: Event, n: int, f: Field, before: Option<Content>): Option<Content> {
    match e.body
    case Status(m, status, errorCode, info) =>
      if n != m then before
      else if f == StatusF then Says(status)
      else if f == ErrorCode then Says(errorCode)
      else if f == Info then Says(info)
      else if f == StatusTs then Second(e)
      else before
    case Meter(m, readings) =>
      if n != m || readings == [] then before
      else
        var sample := LastSample(readings[|readings| - 1], f);
        if sample.Some? then Some(V(sample.value)) else if f == MeterTs then Second(e) else before
    case Start(_, idTag, _) =>
      if n != e.connector then before
      else if f == ActiveTransaction then Says("true")
      else if f == TxIdTag then Says(idTag)
      else before
    case Stop(_, _, _) => if n == Cleared(s, e) && f == ActiveTransaction then Says("false") else before
    case _ => before
  }

  /** The Stop finds a start time in the pairing record. */
  predicate Paired(s: Store, e: Event) {
    e.body.Stop? && Filled(Look(s, H(TxKey(e.charger), StartTime)))
  }

  /** A field of the pairing record: a Start sets all four, a Stop that finds a start time ends it. */
  function InRecord(s: Store, e: Event, f: Field, before: Option<Content>): Option<Content> {
    match e.body
    case Start(n, idTag, meterStart) =>
      if f == StartTime then Second(e)
      else if f == MeterStart then Counts(meterStart)
      else if f == IdTag then Says(idTag)
      else if f == ConnectorId then Counts(n)
      else before
    case Stop(_, _, _) => if Paired(s, e) then None else before
    case _ => before
  }

  /** The number of the connector that the event adds to the charger's set. */
  function Named(e: Event): Option<int> {
    match e.body
    case Status(n, _, _, _) => Some(n)
    case Meter(n, _) => Some(n)
    case Start(n, _, _) => Some(n)
    case _ => None
  }

  /** Nanoseconds as seconds, toward zero. */
  function WholeSeconds(d: Nanos): int {
    if d < 0 then -(-d / 1_000_000_000) else d / 1_000_000_000
  }

  /** The CDR of a Stop and the pairing record in the store. */
  function Cdr(s: Store, e: Event): Session
    requires e.body.Stop?
  {
    var k := TxKey(e.charger);
    var start := SecondsIn(Look(s, H(k, StartTime)));
    var low := NumberIn(Look(s, H(k, MeterStart)));
    Session(
      e.eventId, e.charger, NumberIn(Look(s, H(k, ConnectorId))),
      if e.body.idTag == "" then TextIn(Look(s, H(k, IdTag))) else e.body.idTag,
      start, e.timestamp, WholeSeconds(e.timestamp - start),
      if e.body.meterStop < low then 0 else e.body.meterStop - low,
      low, e.body.meterStop, e.body.reason)
  }

  /** What the update of the event makes of a cell. */
  function Updated(s: Store, e: Event, x: Cell): Option<Content> {
    var before := Look(s, x);
    match x
    case H(ChargerKey(c), f) => if c == e.charger then InCharger(e, f, before) else before
    case H(ConnKey(c, n), f) => if c == e.charger then InConnector(s, e, n, f, before) else before
    case H(TxKey(c), f) => if c == e.charger then InRecord(s, e, f, before) else before
    case M(ConnectorsKey(c), m) =>
      if c == e.charger && Named(e).Some? && m == Decimal.Print(Named(e).value) then Some(Unit) else before
    case M(ChargersKey, c) =>
      if c == e.charger && (e.body.Status? || e.body.Meter? || e.body.Start? || e.body.Stop?) then Some(Unit)
      else before
    case Sess(id) => if id == e.eventId && Paired(s, e) && before.None? then Some(Row(Cdr(s, e))) else before
    case _ => before
  }

  /** And what handling it does, the dedup key and the history row included. */
  function Expected(s: Store, e: Event, x: Cell): Option<Content> {
    if x == L(e.messageId) then Some(Unit)
    else if x == Hist(e.eventId) && Look(s, x).None? then Some(Ev(e))
    else if Takes(s, e) then Updated(s, e, x)
    else Look(s, x)
  }

  // ---------------------------------------------------------------- what a list of commands does to a cell

  function EffectAll(cs: seq<Cmd>, x: Cell, before: Option<Content>): Option<Content>
    decreases |cs|
  {
    if cs == [] then before else EffectAll(cs[1..], x, Effect(cs[0], x, before))
  }

  lemma {:induction false} ExecAllLook(s: Store, cs: seq<Cmd>, x: Cell)
    ensures Look(ExecAll(s, cs), x) == EffectAll(cs, x, Look(s, x))
    decreases |cs|
  {
    if cs != [] {
      ExecLook(s, cs[0], x);
      ExecAllLook(Exec(s, cs[0]), cs[1..], x);
    }
  }

  lemma One(a: Cmd, x: Cell, v: Option<Content>)
    ensures EffectAll([a], x, v) == Effect(a, x, v)
  {
    hide Effect;
    assert [a][1..] == [];
  }

  lemma More(a: Cmd, cs: seq<Cmd>, x: Cell, v: Option<Content>)
    ensures EffectAll([a] + cs, x, v) == EffectAll(cs, x, Effect(a, x, v))
  {
    hide Effect;
    assert ([a] + cs)[1..] == cs;
  }

  lemma Three(a: Cmd, b: Cmd, c: Cmd, x: Cell, v: Option<Content>)
    ensures EffectAll([a, b, c], x, v) == Effect(c, x, Effect(b, x, Effect(a, x, v)))
  {
    hide Effect, EffectAll;
    assert [a, b, c] == [a] + ([b] + [c]);
    More(a, [b] + [c], x, v);
    More(b, [c], x, Effect(a, x, v));
    One(c, x, Effect(b, x, Effect(a, x, v)));
  }

  lemma Four(a: Cmd, b: Cmd, c: Cmd, d: Cmd, x: Cell, v: Option<Content>)
    ensures EffectAll([a, b, c, d], x, v) == Effect(d, x, Effect(c, x, Effect(b, x, Effect(a, x, v))))
  {
    hide Effect, EffectAll;
    assert [a, b, c, d] == [a] + [b, c, d];
    More(a, [b, c, d], x, v);
    Three(b, c, d, x, Effect(a, x, v));
  }

  lemma Six(a: Cmd, b: Cmd, c: Cmd, d: Cmd, f: Cmd, g: Cmd, x: Cell, v: Option<Content>)
    ensures EffectAll([a, b, c, d, f, g], x, v)
         == Effect(g, x, Effect(f, x, Effect(d, x, Effect(c, x, Effect(b, x, Effect(a, x, v))))))
  {
    hide Effect, EffectAll;
    assert [a, b, c, d, f, g] == [a] + ([b] + [c, d, f, g]);
    More(a, [b] + [c, d, f, g], x, v);
    More(b, [c, d, f, g], x, Effect(a, x, v));
    Four(c, d, f, g, x, Effect(b, x, Effect(a, x, v)));
  }

  // ---------------------------------------------------------------- one event type at a time

  lemma BootDoes(s: Store, e: Event, x: Cell)
    requires e.body.Boot?
    ensures EffectAll([HSet(ChargerKey(e.charger), BootFields(e))], x, Look(s, x)) == Updated(s, e, x)
  {
    One(HSet(ChargerKey(e.charger), BootFields(e)), x, Look(s, x));
    hide Look, EffectAll;
  }

  lemma HeartbeatDoes(s: Store, e: Event, x: Cell)
    requires e.body.Heartbeat?
    ensures EffectAll([HSet(ChargerKey(e.charger), SeenOnline(e))], x, Look(s, x)) == Updated(s, e, x)
  {
    One(HSet(ChargerKey(e.charger), SeenOnline(e)), x, Look(s, x));
    hide Look, EffectAll;
  }

  lemma StatusDoes(s: Store, e: Event, x: Cell)
    requires e.body.Status?
    ensures EffectAll(ConnCmds(e, e.body.connector, StatusFields(e), SeenOnline(e)), x, Look(s, x)) == Updated(s, e, x)
  {
    var cs := ConnCmds(e, e.body.connector, StatusFields(e), SeenOnline(e));
    Four(cs[0], cs[1], cs[2], cs[3], x, Look(s, x));
    hide Look, EffectAll;
  }

  lemma MeasuresFieldOf(measurand: string, f: Field)
    ensures Measures(measurand, f) <==> FieldOf(measurand) == f
  {
  }

  lemma {:induction false} FirstSample(samples: seq<Sample>, f: Field)
    requires samples != []
    ensures LastSample(samples, f)
            == if LastSample(samples[1..], f).Some? then LastSample(samples[1..], f)
               else if Measures(samples[0].measurand, f) then Some(samples[0].value) else None
    decreases |samples|
  {
    hide Measures;
    if |samples| > 1 {
      var n := |samples| - 1;
      assert samples[1..][|samples[1..]| - 1] == samples[n];
      assert samples[1..][..n - 1] == samples[..n][1..];
      if !Measures(samples[n].measurand, f) {
        FirstSample(samples[..n], f);
      }
    } else {
      assert samples[..0] == [] && samples[1..] == [];
      assert LastSample(samples[..0], f) == None;
    }
  }

  lemma {:induction false} SamplesAdd(fields: map<Field, Val>, samples: seq<Sample>, f: Field)
    ensures var v, m := LastSample(samples, f), AddSamples(fields, samples);
            && (f in m <==> v.Some? || f in fields)
            && (f in m ==> m[f] == if v.Some? then v.value else fields[f])
    decreases |samples|
  {
    if samples != [] {
      var first := samples[0];
      MeasuresFieldOf(first.measurand, f);
      hide Measures, FieldOf;
      SamplesAdd(fields[FieldOf(first.measurand) := first.value], samples[1..], f);
      FirstSample(samples, f);
    }
  }

  lemma MeterDoes(s: Store, e: Event, x: Cell)
    requires e.body.Meter? && e.body.readings != []
    ensures EffectAll(ConnCmds(e, e.body.connector, MeterFields(e), LastSeenOf(e)), x, Look(s, x)) == Updated(s, e, x)
  {
    var cs := ConnCmds(e, e.body.connector, MeterFields(e), LastSeenOf(e));
    Four(cs[0], cs[1], cs[2], cs[3], x, Look(s, x));
    if x.H? {
      SamplesAdd(map[MeterTs := Stamp(FloorSec(e.timestamp))], e.body.readings[|e.body.readings| - 1], x.field);
    }
    hide Look, EffectAll, LastSample, AddSamples;
  }

  lemma StartDoesHash(s: Store, e: Event, x: Cell)
    requires e.body.Start? && x.H? && !x.key.ChargerKey?
    ensures EffectAll(StartCmds(e), x, Look(s, x)) == Updated(s, e, x)
  {
    var cs := StartCmds(e);
    Six(cs[0], cs[1], cs[2], cs[3], cs[4], cs[5], x, Look(s, x));
    hide Look, EffectAll, LastSeenOf, Named, InCharger;
  }

  lemma StartDoesOther(s: Store, e: Event, x: Cell)
    requires e.body.Start? && (x.H? ==> x.key.ChargerKey?)
    ensures EffectAll(StartCmds(e), x, Look(s, x)) == Updated(s, e, x)
  {
    var cs := StartCmds(e);
    Six(cs[0], cs[1], cs[2], cs[3], cs[4], cs[5], x, Look(s, x));
    hide Look, EffectAll, TxFields, InRecord, InConnector;
  }

  lemma StartDoes(s: Store, e: Event, x: Cell)
    requires e.body.Start?
    ensures EffectAll(StartCmds(e), x, Look(s, x)) == Updated(s, e, x)
  {
    if x.H? && !x.key.ChargerKey? {
      StartDoesHash(s, e, x);
    } else {
      StartDoesOther(s, e, x);
    }
    hide StartCmds, EffectAll, Updated, Look;
  }

  lemma TruncatesAlike(d: Nanos)
    ensures TruncSec(d) == WholeSeconds(d)
  {
  }

  lemma CdrIs(s: Store, e: Event)
    requires e.body.Stop?
    ensures var tx := Hash(s, TxKey(e.charger));
            && SessionOf(e, tx) == Cdr(s, e)
            && ScanInt(FieldOr(tx, ConnectorId, Text(""))) == NumberIn(Look(s, H(TxKey(e.charger), ConnectorId)))
            && (NonEmpty(if StartTime in tx then Some(tx[StartTime]) else None) <==> Paired(s, e))
  {
    var tx := Hash(s, TxKey(e.charger));
    TruncatesAlike(e.timestamp - ParseTime(FieldOr(tx, StartTime, Text(""))));
    hide TruncSec, WholeSeconds, Hash;
  }

  lemma UnpairedDoes(s: Store, e: Event, x: Cell)
    requires e.body.Stop? && !Paired(s, e)
    ensures EffectAll(StopCmds(e, Hash(s, TxKey(e.charger))), x, Look(s, x)) == Updated(s, e, x)
  {
    CdrIs(s, e);
    var cs := StopCmds(e, Hash(s, TxKey(e.charger)));
    Three(cs[0], cs[1], cs[2], x, Look(s, x));
    hide Look, EffectAll, SessionOf, Cdr, Paired, Hash, ScanInt, FieldOr, NonEmpty;
  }

  lemma PairedDoes(s: Store, e: Event, x: Cell)
    requires e.body.Stop? && Paired(s, e)
    ensures EffectAll(StopCmds(e, Hash(s, TxKey(e.charger))), x, Look(s, x)) == Updated(s, e, x)
  {
    CdrIs(s, e);
    var cs := StopCmds(e, Hash(s, TxKey(e.charger)));
    More(cs[0], cs[1..], x, Look(s, x));
    Four(cs[1], cs[2], cs[3], cs[4], x, Effect(cs[0], x, Look(s, x)));
    assert cs == [cs[0]] + cs[1..] && cs[1..] == [cs[1], cs[2], cs[3], cs[4]];
    hide Look, EffectAll, SessionOf, Cdr, Paired, Hash, ScanInt, FieldOr, NonEmpty;
  }

  lemma NewerIffNotStale(s: Store, e: Event, n: int, ts: Field)
    ensures Newer(s, e, n, ts) <==> !Stale(e, Get(s, ConnKey(e.charger, n), ts))
  {
  }

  lemma PlanDoes(s: Store, e: Event, x: Cell)
    ensures var d := Plan(e, s, false);
            && (d.Write? <==> Takes(s, e))
            && (d.Write? ==> EffectAll(d.cmds, x, Look(s, x)) == Updated(s, e, x))
  {
    hide StopCmds, StartCmds, ConnCmds, BootFields, StatusFields, MeterFields, SeenOnline, LastSeenOf, Stale, Updated,
        EffectAll, Newer, Look;
    match e.body
    case Boot(_, _, _, _) => BootDoes(s, e, x);
    case Heartbeat => HeartbeatDoes(s, e, x);
    case Status(n, _, _, _) =>
      NewerIffNotStale(s, e, n, StatusTs);
      StatusDoes(s, e, x);
    case Meter(n, readings) =>
      NewerIffNotStale(s, e, n, MeterTs);
      if readings != [] {
        MeterDoes(s, e, x);
      }
    case Start(_, _, _) => StartDoes(s, e, x);
    case Stop(_, _, _) =>
      if Paired(s, e) {
        PairedDoes(s, e, x);
      } else {
        UnpairedDoes(s, e, x);
      }
    case _ =>
  }

  // ---------------------------------------------------------------- the whole handler

  /** Stores that differ in dedup keys and history rows only are updated alike. */
  lemma UpdatedAlike(s: Store, s1: Store, e: Event, x: Cell)
    requires forall y: Cell :: y.H? || y.M? || y.Sess? ==> Look(s1, y) == Look(s, y)
    ensures Takes(s1, e) == Takes(s, e)
    ensures x.H? || x.M? || x.Sess? ==> Updated(s1, e, x) == Updated(s, e, x)
    ensures x.L? || x.Hist? ==> Updated(s1, e, x) == Look(s1, x)
  {
    hide Look, LastSample, Filled, SecondsIn, NumberIn, TextIn;
  }

  /** The dedup key and the history row are of no consequence to the update. */
  lemma SameUpdate(s: Store, e: Event, x: Cell)
    ensures var s1 := Remember(Lock(s, e.messageId), e);
            && Takes(s1, e) == Takes(s, e)
            && (x.H? || x.M? || x.Sess? ==> Updated(s1, e, x) == Updated(s, e, x))
            && (x.L? || x.Hist? ==> Updated(s1, e, x) == Look(s1, x))
            && (x.H? || x.M? || x.Sess? ==> Look(s1, x) == Look(s, x))
            && (x == L(e.messageId) ==> Look(s1, x) == Some(Unit))
            && (x == Hist(e.eventId) ==> Look(s1, x) == if Look(s, x).None? then Some(Ev(e)) else Look(s, x))
            && ((x.L? && x != L(e.messageId)) || (x.Hist? && x != Hist(e.eventId)) ==> Look(s1, x) == Look(s, x))
  {
    var s1 := Remember(Lock(s, e.messageId), e);
    assert forall y: Cell :: y.H? || y.M? || y.Sess? ==> Look(s1, y) == Look(s, y);
    UpdatedAlike(s, s1, e, x);
    hide Updated, Takes;
  }

  /** One event, every cell: an undisturbed handler of an event whose message id is not locked leaves in
      each cell what the reference says, and of a locked one changes nothing. */
  lemma HandleLeaves(s: Store, e: Event, x: Cell)
    ensures Look(Handle(s, e), x) == if e.messageId in s.locks then Look(s, x) else Expected(s, e, x)
  {
    HandleIsApply(s, e);
    var s1 := Remember(Lock(s, e.messageId), e);
    PlanDoes(s1, e, x);
    SameUpdate(s, e, x);
    var d := Plan(e, s1, false);
    if d.Write? {
      ExecAllLook(s1, d.cmds, x);
    }
    hide Handle, Plan, Look, Updated, Takes, EffectAll, Lock, Remember;
  }

  // ---------------------------------------------------------------- a read that fails

  /** The connector whose hash the update reads. */
  function ReadConnector(e: Event): int {
    match e.body
    case Status(n, _, _, _) => n
    case Meter(n, _) => n
    case _ => 0
  }

  /** The store without what the update of the event reads. */
  function Blind(s: Store, e: Event): Store {
    s.(hashes := s.hashes - {ConnKey(e.charger, ReadConnector(e)), TxKey(e.charger)})
  }

  /** A failed read counts as one that found nothing: the update of an event whose read fails is the one
      it would make if there were nothing to read. With HandleLeaves this says what it writes. */
  lemma FailedReadIsBlank(s: Store, e: Event)
    ensures Plan(e, s, true) == Plan(e, Blind(s, e), false)
  {
    var k, tx := ConnKey(e.charger, ReadConnector(e)), TxKey(e.charger);
    assert Hash(Blind(s, e), k) == map[] && Hash(Blind(s, e), tx) == map[];
    hide StopCmds, StartCmds, ConnCmds, BootFields, StatusFields, MeterFields, SeenOnline, LastSeenOf;
  }
}
