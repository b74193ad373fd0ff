/** What the read API shows of a charger after a run, as a fold over that charger's own events, in
    terms of the events' contents alone. */
module ReadFold {
  import opened Domain
  import opened Store
  import opened Handler
  import opened Machine
  import opened Ownership
  import opened Interleaving
  import opened Confluence
  import opened Sequential
  import opened LastWriter
  import opened Connectors
  import opened Cdr
  import opened Coupling
  import opened Ordering
  import opened ReadView
  import opened Settled
  import Decimal

  /** The first deliveries on one of a charger's lanes. */
  ghost function Came(logs: Logs, c: string, t: Topic): seq<Event> {
    Fresh({}, LaneEvents(logs, Lane(t, c)))
  }

  ghost predicate OnLane(es: seq<Event>, c: string, t: Topic) {
    forall e :: e in es ==> e.charger == c && TopicOf(e.body) == t
  }

  lemma CameOnLane(logs: Logs, c: string, t: Topic)
    requires Routed(logs)
    ensures OnLane(Came(logs, c, t), c, t)
  {
    var l := Lane(t, c);
    FreshSubset({}, LaneEvents(logs, l));
    forall e | e in Came(logs, c, t) ensures e.charger == c && TopicOf(e.body) == t {
      LaneEventLogged(logs, l, e);
    }
  }

  /** An owned cell at the end is what its lane's first deliveries, run alone, leave there. */
  lemma CellAtEnd(logs: Logs, now: Nanos, ls: seq<Label>, x: Cell, c: string, t: Topic)
    requires Processed(logs, now, ls) && HomeOf(logs, x) == Owned(Lane(t, c)) && !x.L?
    ensures Look(EndOf(logs, now, ls), x) == Look(ApplySeq(EMPTY, Came(logs, c, t)), x)
  {
    hide Orderly, Gentle, Drained, Run;
    RunsAreMerges(logs, EMPTY, now, ls);
    HandleSeqIsApplySeq(EMPTY, LaneEvents(logs, Lane(t, c)));
  }

  // ---------------------------------------------------------------- one cell under a list of commands

  predicate Sets(cmd: Cmd, k: Key, f: Field) {
    cmd.HSet? && cmd.key == k && f in cmd.fields
  }

  predicate NeverDeletes(cs: seq<Cmd>, k: Key) {
    forall i :: 0 <= i < |cs| && cs[i].Del? ==> cs[i].key != k
  }

  lemma {:induction false} Unset(s: Store, cs: seq<Cmd>, k: Key, f: Field)
    requires NeverDeletes(cs, k) && forall i :: 0 <= i < |cs| ==> !Sets(cs[i], k, f)
    ensures Get(ExecAll(s, cs), k, f) == Get(s, k, f)
    decreases |cs|
  {
    if cs != [] {
      assert Get(Exec(s, cs[0]), k, f) == Get(s, k, f);
      hide Exec, Get;
      Unset(Exec(s, cs[0]), cs[1..], k, f);
    }
  }

  lemma {:induction false} SetOnce(s: Store, cs: seq<Cmd>, k: Key, f: Field, i: nat)
    requires i < |cs| && NeverDeletes(cs, k) && Sets(cs[i], k, f)
    requires forall j :: i < j < |cs| ==> !Sets(cs[j], k, f)
    ensures Get(ExecAll(s, cs), k, f) == Some(cs[i].fields[f])
    decreases |cs|
  {
    if i == 0 {
      assert Get(Exec(s, cs[0]), k, f) == Some(cs[0].fields[f]);
      hide Exec, Get;
      Unset(Exec(s, cs[0]), cs[1..], k, f);
    } else {
      hide Exec, Get;
      SetOnce(Exec(s, cs[0]), cs[1..], k, f, i - 1);
    }
  }

  // ---------------------------------------------------------------- boot fields

  function LastBootOf(es: seq<Event>): Option<Event> {
    if es == [] then None
    else if es[|es| - 1].body.Boot? then Some(es[|es| - 1])
    else LastBootOf(es[..|es| - 1])
  }

  predicate IsBootField(f: Field) {
    f == Vendor || f == Model || f == Serial || f == Firmware || f == LastBoot
  }

  /** What a BootNotification says about a boot field. */
  function BootValue(e: Event, f: Field): Val
    requires e.body.Boot?
  {
    if f == Vendor then Text(e.body.vendor)
    else if f == Model then Text(e.body.model)
    else if f == Serial then Text(e.body.serial)
    else if f == Firmware then Text(e.body.firmware)
    else Stamp(FloorSec(e.timestamp))
  }

  lemma PlanBoot(s: Store, e: Event)
    requires TopicOf(e.body) == BootTopic
    ensures Plan(e, s, false) == if e.body.Boot? then Write([HSet(ChargerKey(e.charger), BootFields(e))]) else Reject
  {
    hide BootFields;
  }

  lemma BootFieldValue(e: Event, f: Field)
    requires e.body.Boot? && IsBootField(f)
    ensures f in BootFields(e) && BootFields(e)[f] == BootValue(e, f)
  {
  }

  lemma BootApplied(s: Store, e: Event, c: string, f: Field)
    requires e.charger == c && TopicOf(e.body) == BootTopic && IsBootField(f)
    ensures Get(Apply(s, e), ChargerKey(c), f)
         == if e.body.Boot? then Some(BootValue(e, f)) else Get(s, ChargerKey(c), f)
  {
    var b := Remember(Lock(s, e.messageId), e);
    assert Get(b, ChargerKey(c), f) == Get(s, ChargerKey(c), f);
    PlanBoot(b, e);
    hide Plan, Get, ExecAll, BootFields, BootValue, IsBootField, Remember, Lock;
    if e.body.Boot? {
      BootFieldValue(e, f);
      SetOnce(b, [HSet(ChargerKey(c), BootFields(e))], ChargerKey(c), f, 0);
    }
  }

  lemma {:induction false} BootAlone(es: seq<Event>, c: string, f: Field)
    requires OnLane(es, c, BootTopic) && IsBootField(f)
    ensures Get(ApplySeq(EMPTY, es), ChargerKey(c), f)
         == if LastBootOf(es).Some? && LastBootOf(es).value.body.Boot? then Some(BootValue(LastBootOf(es).value, f))
            else None
    ensures LastBootOf(es).Some? ==> LastBootOf(es).value.body.Boot?
  {
    if es != [] {
      var front, e := es[..|es| - 1], es[|es| - 1];
      assert e in es && forall x :: x in front ==> x in es;
      BootAlone(front, c, f);
      BootApplied(ApplySeq(EMPTY, front), e, c, f);
    }
  }

  // ---------------------------------------------------------------- online

  predicate ShowsOnline(e: Event) {
    e.body.Boot? || e.body.Status? || e.body.Heartbeat?
  }

  predicate IsOnline(s: Store, c: string) {
    Get(s, ChargerKey(c), Online) == Some(Text("true"))
  }

  /** A connector with a stored status second belongs to a charger that is online. */
  ghost predicate StatusMeansOnline(s: Store) {
    forall c, n :: Get(s, ConnKey(c, n), StatusTs).Some? ==> IsOnline(s, c)
  }

  lemma ConnCmdsOnline(s: Store, e: Event, n: int, fields: map<Field, Val>, seen: map<Field, Val>, c: string)
    requires Online in seen ==> seen[Online] == Text("true")
    ensures IsOnline(ExecAll(s, ConnCmds(e, n, fields, seen)), c) <==>
              IsOnline(s, c) || (c == e.charger && Online in seen)
  {
    var cs := ConnCmds(e, n, fields, seen);
    if c == e.charger && Online in seen {
      SetOnce(s, cs, ChargerKey(c), Online, 1);
    } else {
      Unset(s, cs, ChargerKey(c), Online);
    }
  }

  lemma OneCommand(s: Store, charger: string, fields: map<Field, Val>, c: string)
    requires Online in fields && fields[Online] == Text("true")
    ensures IsOnline(ExecAll(s, [HSet(ChargerKey(charger), fields)]), c) <==> IsOnline(s, c) || c == charger
  {
    var cs := [HSet(ChargerKey(charger), fields)];
    if c == charger {
      SetOnce(s, cs, ChargerKey(c), Online, 0);
    } else {
      Unset(s, cs, ChargerKey(c), Online);
    }
  }

  lemma PlanOnline(s: Store, e: Event, c: string)
    requires e.body.Status? && Plan(e, s, false).Skip? ==> IsOnline(s, e.charger)
    ensures var d := Plan(e, s, false);
            IsOnline(if d.Write? then ExecAll(s, d.cmds) else s, c) <==>
              IsOnline(s, c) || (c == e.charger && ShowsOnline(e))
  {
    var d := Plan(e, s, false);
    hide Get, Stale, SessionOf, StatusFields, MeterFields, TxFields;
    match e.body
    case Status(n, _, _, _) =>
      if d.Write? {
        ConnCmdsOnline(s, e, n, StatusFields(e), SeenOnline(e), c);
      }
    case Meter(n, readings) =>
      if d.Write? {
        ConnCmdsOnline(s, e, n, MeterFields(e), LastSeenOf(e), c);
      }
    case Boot(_, _, _, _) => OneCommand(s, e.charger, BootFields(e), c);
    case Heartbeat => OneCommand(s, e.charger, SeenOnline(e), c);
    case Start(_, _, _) => Unset(s, d.cmds, ChargerKey(c), Online);
    case Stop(_, _, _) => Unset(s, d.cmds, ChargerKey(c), Online);
    case _ =>
  }

  lemma ApplyOnline(s: Store, e: Event, c: string)
    requires StatusMeansOnline(s)
    ensures IsOnline(Apply(s, e), c) <==> IsOnline(s, c) || (c == e.charger && ShowsOnline(e))
  {
    var b := Remember(Lock(s, e.messageId), e);
    assert forall k, f :: Get(b, k, f) == Get(s, k, f);
    if e.body.Status? && Plan(e, b, false).Skip? {
      assert Get(b, ConnKey(e.charger, e.body.connector), StatusTs).Some?;
    }
    PlanOnline(b, e, c);
  }

  lemma NoStatusTs(s: Store, e: Event, k: Key)
    requires k.ConnKey? && !(e.body.Status? && e.charger == k.charger) && Plan(e, s, false).Write?
    ensures var cs := Plan(e, s, false).cmds;
            NeverDeletes(cs, k) && forall i :: 0 <= i < |cs| ==> !Sets(cs[i], k, StatusTs)
  {
    if e.body.Meter? {
      SamplesStayMeter(map[MeterTs := Stamp(FloorSec(e.timestamp))], e.body.readings[|e.body.readings| - 1]);
    }
    hide Stale, SessionOf, StatusFields, TxFields, BootFields, AddSamples;
    match e.body
    case Meter(_, _) => hide StopCmds, StartCmds;
    case Status(_, _, _, _) => hide StopCmds, StartCmds;
    case Stop(_, _, _) => hide StartCmds, ConnCmds;
    case Start(_, _, _) => hide StopCmds, ConnCmds;
    case _ => hide StartCmds, StopCmds, ConnCmds;
  }

  lemma StatusTsFrom(s: Store, e: Event, c: string, n: int)
    requires Get(Apply(s, e), ConnKey(c, n), StatusTs).Some?
    ensures Get(s, ConnKey(c, n), StatusTs).Some? || (e.body.Status? && e.charger == c)
  {
    var b := Remember(Lock(s, e.messageId), e);
    assert Get(b, ConnKey(c, n), StatusTs) == Get(s, ConnKey(c, n), StatusTs);
    var d := Plan(e, b, false);
    if d.Write? && !(e.body.Status? && e.charger == c) {
      NoStatusTs(b, e, ConnKey(c, n));
      Unset(b, d.cmds, ConnKey(c, n), StatusTs);
    }
  }

  lemma StillMeansOnline(a: Store, e: Event)
    requires StatusMeansOnline(a)
    ensures StatusMeansOnline(Apply(a, e))
  {
    hide Apply;
    forall d, n | Get(Apply(a, e), ConnKey(d, n), StatusTs).Some? ensures IsOnline(Apply(a, e), d) {
      StatusTsFrom(a, e, d, n);
      ApplyOnline(a, e, d);
    }
  }

  lemma {:induction false} OnlineAlone(es: seq<Event>, c: string)
    ensures IsOnline(ApplySeq(EMPTY, es), c) <==> exists e :: e in es && e.charger == c && ShowsOnline(e)
    ensures StatusMeansOnline(ApplySeq(EMPTY, es))
  {
    if es != [] {
      var front, e := es[..|es| - 1], es[|es| - 1];
      OnlineAlone(front, c);
      var a := ApplySeq(EMPTY, front);
      ApplyOnline(a, e, c);
      StillMeansOnline(a, e);
      assert forall x :: x in es <==> x in front || x == e;
    }
  }

  ghost predicate CameOnline(logs: Logs, c: string, e: Event) {
    ShowsOnline(e) && e.charger == c && exists l :: e in Fresh({}, LaneEvents(logs, l))
  }

  lemma OnlineAtEnd(logs: Logs, now: Nanos, ls: seq<Label>, c: string)
    requires Processed(logs, now, ls) && CleanCharger(logs, c)
    ensures IsOnline(EndOf(logs, now, ls), c) <==> exists e :: CameOnline(logs, c, e)
  {
    hide Orderly, Gentle, Drained, Run, Fresh, LaneEvents;
    var end := EndOf(logs, now, ls);
    var x := H(ChargerKey(c), Online);
    RunsAreMerges(logs, EMPTY, now, ls);
    assert HomeOf(logs, x) == Shared && (On(end, x) <==> IsOnline(end, c));
    forall l ensures On(HandleSeq(EMPTY, LaneEvents(logs, l)), x) <==>
                       exists e :: e in Fresh({}, LaneEvents(logs, l)) && e.charger == c && ShowsOnline(e)
    {
      HandleSeqIsApplySeq(EMPTY, LaneEvents(logs, l));
      OnlineAlone(Fresh({}, LaneEvents(logs, l)), c);
    }
    if On(end, x) {
      var l :| On(HandleSeq(EMPTY, LaneEvents(logs, l)), x);
      var e :| e in Fresh({}, LaneEvents(logs, l)) && e.charger == c && ShowsOnline(e);
      assert CameOnline(logs, c, e);
    }
    if e :| CameOnline(logs, c, e) {
      var l :| e in Fresh({}, LaneEvents(logs, l));
      assert On(HandleSeq(EMPTY, LaneEvents(logs, l)), x);
    }
  }

  // ---------------------------------------------------------------- active flags

  /** Whether connector n is active after a charger's transaction events: a Start sets the flag of its
      event's connector; a Stop clears the one the preceding Start names, or else its own. */
  function ActiveAfter(es: seq<Event>, n: int): bool {
    if es == [] then false
    else
      var front, e := es[..|es| - 1], es[|es| - 1];
      if e.body.Start? then n == e.connector || ActiveAfter(front, n)
      else
        var named := if front != [] && front[|front| - 1].body.Start? then front[|front| - 1].body.connector else 0;
        n != (if named > 0 then named else e.connector) && ActiveAfter(front, n)
  }

  lemma {:induction false} FlagsAlone(es: seq<Event>, c: string, n: int)
    requires TxEvents(es, c) && DistinctIds(es)
    ensures Active(ApplySeq(EMPTY, es), c, n) <==> ActiveAfter(es, n)
  {
    if es != [] {
      var front, e := es[..|es| - 1], es[|es| - 1];
      FlagsAlone(front, c, n);
      PairedAlone(EMPTY, front, c);
      var a := ApplySeq(EMPTY, front);
      if e.body.Start? {
        StartActivates(a, e, c, n);
      } else {
        TxNames(front, n);
        StopDeactivates(a, e, c, n);
      }
    }
  }

  // ---------------------------------------------------------------- status and meter

  /** The events among es that update connector n. */
  function Carriers(es: seq<Event>, n: int): seq<Event> {
    if es == [] then []
    else Carriers(es[..|es| - 1], n) + if Updates(es[|es| - 1], n) then [es[|es| - 1]] else []
  }

  lemma {:induction false} CarriersUpdate(es: seq<Event>, n: int)
    ensures |Carriers(es, n)| == |UpdatesOf(es, n)|
    ensures forall i :: 0 <= i < |Carriers(es, n)| ==>
            Updates(Carriers(es, n)[i], n) && UpdatesOf(es, n)[i] == UpdateOf(Carriers(es, n)[i])
    ensures forall e :: e in Carriers(es, n) ==> e in es
  {
    hide UpdateOf, Updates;
    if es != [] {
      CarriersUpdate(es[..|es| - 1], n);
    }
  }

  /** The last of the updates that was strictly later than the greatest whole second before it. */
  function LastWinner(us: seq<Update>): (k: int)
    ensures -1 <= k < |us|
  {
    if us == [] then -1 else if Wins(us, |us| - 1) then |us| - 1 else LastWinner(us[..|us| - 1])
  }

  lemma {:induction false} LastWinnerWins(us: seq<Update>)
    ensures us != [] ==> 0 <= LastWinner(us) && Wins(us, LastWinner(us))
    ensures forall j :: LastWinner(us) < j < |us| ==> !Wins(us, j)
  {
    assert us != [] ==> us[..0] == [] && Wins(us, 0);
    if us != [] && !Wins(us, |us| - 1) {
      var front := us[..|us| - 1];
      LastWinnerWins(front);
      WinsInPrefix(us, |us| - 1, LastWinner(us));
      forall j | LastWinner(us) < j < |us| ensures !Wins(us, j) {
        if j < |us| - 1 {
          WinsInPrefix(us, |us| - 1, j);
        }
      }
    }
  }

  /** The value a connector field shows: of the last update carrying it that was strictly later than
      the running maximum; empty if there is none. */
  ghost predicate ShowsField(us: seq<Update>, f: Field, shown: Val) {
    && (forall k: nat :: LastCarrying(us, f, k) ==> shown == us[k].fields[f])
    && ((forall k: nat :: !LastCarrying(us, f, k)) ==> shown == Text(""))
  }

  lemma FieldAtEnd(logs: Logs, now: Nanos, ls: seq<Label>, c: string, n: int, t: Topic, f: Field)
    requires Processed(logs, now, ls) && CleanCharger(logs, c)
    requires (t == StatusTopic || t == MeterTopic) && ConnTopic(f) == t
    ensures var us := UpdatesOf(Came(logs, c, t), n); var h := Hash(EndOf(logs, now, ls), ConnKey(c, n));
            ShowsField(us, f, Read(h, f))
            && (us != [] ==> Read(h, TsField(t)) == Stamp(MaxSec(us).value))
  {
    hide Orderly, Gentle, Drained, Run, PlainLogs, UniqueEventIds, MaxSec, UpdatesOf, Fresh, LaneEvents;
    LastWriterWins(logs, EMPTY, now, ls, c, n, t, f);
  }

  lemma StatusCarried(es: seq<Event>, n: int, f: Field)
    requires forall e :: e in es ==> TopicOf(e.body) == StatusTopic
    requires f == StatusF || f == ErrorCode || f == Info
    ensures var us := UpdatesOf(es, n); us != [] ==> LastWinner(us) >= 0 && LastCarrying(us, f, LastWinner(us))
  {
    var us := UpdatesOf(es, n);
    CarriersUpdate(es, n);
    LastWinnerWins(us);
    assert forall i :: 0 <= i < |us| ==> Carriers(es, n)[i] in es && f in us[i].fields;
  }

  // ---------------------------------------------------------------- the view of a charger

  /** The status part: that of the last winning StatusNotification for the connector. */
  ghost predicate StatusFold(es: seq<Event>, n: int, v: ConnectorState) {
    var us, ev := UpdatesOf(es, n), Carriers(es, n);
    if |ev| == 0 || |us| != |ev| then v.status == v.errorCode == v.statusTimestamp == Text("")
    else
      var k := LastWinner(us);
      && 0 <= k && ev[k].body.Status?
      && v.status == Text(ev[k].body.status) && v.errorCode == Text(ev[k].body.errorCode)
      && v.statusTimestamp == Stamp(MaxSec(us).value)
  }

  /** The last sample for a field in the last reading of a MeterValues message. */
  predicate SampleAt(e: Event, f: Field, i: int) {
    e.body.Meter? && e.body.readings != [] && LastSampleFor(e.body.readings[|e.body.readings| - 1], f, i)
  }

  function SampleValue(e: Event, f: Field, i: int): Val
    requires SampleAt(e, f, i)
  {
    e.body.readings[|e.body.readings| - 1][i].value
  }

  ghost predicate ShowsSample(e: Event, f: Field, shown: Val) {
    exists i :: SampleAt(e, f, i) && shown == SampleValue(e, f, i)
  }

  /** A meter value: the last sample for the field in the last winning reading that has one. */
  ghost predicate MeterFold(es: seq<Event>, n: int, f: Field, shown: Val) {
    var us, ev := UpdatesOf(es, n), Carriers(es, n);
    && |us| == |ev|
    && (forall k: nat :: LastCarrying(us, f, k) ==> ShowsSample(ev[k], f, shown))
    && ((forall k: nat :: !LastCarrying(us, f, k)) ==> shown == Text(""))
  }

  lemma StatusFromFields(es: seq<Event>, n: int, v: ConnectorState)
    requires forall e :: e in es ==> TopicOf(e.body) == StatusTopic
    requires var us := UpdatesOf(es, n);
             && ShowsField(us, StatusF, v.status) && ShowsField(us, ErrorCode, v.errorCode)
                 && ShowsField(us, StatusTs, v.statusTimestamp)
             && (us != [] ==> v.statusTimestamp == Stamp(MaxSec(us).value))
    ensures StatusFold(es, n, v)
  {
    var us, ev := UpdatesOf(es, n), Carriers(es, n);
    CarriersUpdate(es, n);
    if us != [] {
      StatusCarried(es, n, StatusF);
      StatusCarried(es, n, ErrorCode);
      assert ev[LastWinner(us)] in es;
      hide UpdatesOf, Carriers, MaxSec, LastWinner, LastCarrying;
    } else {
      assert forall f, k: nat :: !LastCarrying(us, f, k);
    }
  }

  lemma StatusShown(logs: Logs, now: Nanos, ls: seq<Label>, c: string, n: int)
    requires Processed(logs, now, ls) && CleanCharger(logs, c)
    ensures StatusFold(Came(logs, c, StatusTopic), n, ConnectorView(EndOf(logs, now, ls), c, Decimal.Print(n)))
  {
    Decimal.ScanPrint(n);
    CameOnLane(logs, c, StatusTopic);
    FieldAtEnd(logs, now, ls, c, n, StatusTopic, StatusF);
    FieldAtEnd(logs, now, ls, c, n, StatusTopic, ErrorCode);
    FieldAtEnd(logs, now, ls, c, n, StatusTopic, StatusTs);
    hide Processed, EndOf, Came, Decimal.Print, Decimal.Scan, UpdatesOf, MaxSec, ShowsField, StatusFold;
    StatusFromFields(Came(logs, c, StatusTopic), n, ConnectorView(EndOf(logs, now, ls), c, Decimal.Print(n)));
  }

  lemma CarriedBy(us: seq<Update>, ev: seq<Event>, n: int, f: Field, k: nat)
    requires LastCarrying(us, f, k) && |us| == |ev| && Updates(ev[k], n) && us[k] == UpdateOf(ev[k])
    requires ConnTopic(f) == MeterTopic && f != MeterTs
    ensures ShowsSample(ev[k], f, us[k].fields[f])
  {
    var e := ev[k];
    assert e.body.Meter?;
    var fields, samples := map[MeterTs := Stamp(FloorSec(e.timestamp))], e.body.readings[|e.body.readings| - 1];
    HasLastSample(fields, samples, f);
    var i :| LastSampleFor(samples, f, i);
    LastSampleWins(fields, samples, f, i);
    assert SampleAt(e, f, i) && us[k].fields[f] == SampleValue(e, f, i);
  }

  lemma MeterShown(logs: Logs, now: Nanos, ls: seq<Label>, c: string, n: int, f: Field)
    requires Processed(logs, now, ls) && CleanCharger(logs, c) && ConnTopic(f) == MeterTopic && f != MeterTs
    ensures MeterFold(Came(logs, c, MeterTopic), n, f, Read(Hash(EndOf(logs, now, ls), ConnKey(c, n)), f))
  {
    var es := Came(logs, c, MeterTopic);
    var us, ev := UpdatesOf(es, n), Carriers(es, n);
    CarriersUpdate(es, n);
    FieldAtEnd(logs, now, ls, c, n, MeterTopic, f);
    hide Processed, EndOf, Came, UpdatesOf, Carriers;
    hide LastCarrying, ShowsSample;
    forall k: nat | LastCarrying(us, f, k)
      ensures ShowsSample(ev[k], f, Read(Hash(EndOf(logs, now, ls), ConnKey(c, n)), f))
    {
      CarriedBy(us, ev, n, f, k);
    }
  }

  /** A boot field shows what the last BootNotification says of it; empty before the first. */
  ghost predicate ShowsBoot(boot: Option<Event>, f: Field, shown: Val) {
    if boot.None? then shown == Text("") else boot.value.body.Boot? && shown == BootValue(boot.value, f)
  }

  ghost predicate IsBootFold(boot: Option<Event>, v: ChargerState) {
    && ShowsBoot(boot, Vendor, v.vendor) && ShowsBoot(boot, Model, v.model) && ShowsBoot(boot, Serial, v.serial)
    && ShowsBoot(boot, Firmware, v.firmware) && ShowsBoot(boot, LastBoot, v.lastBoot)
  }

  /** A first delivery on one of the charger's lanes names the connector. */
  ghost predicate Names(logs: Logs, c: string, n: int) {
    exists e, t :: e in Came(logs, c, t) && Lists(e, n)
  }

  ghost predicate Shown(v: ChargerState, n: int) {
    exists i :: 0 <= i < |v.connectors| && v.connectors[i].connectorId == n
  }

  function Numerals(cs: seq<ConnectorState>): seq<string> {
    seq(|cs|, i requires 0 <= i < |cs| => Decimal.Print(cs[i].connectorId))
  }

  /** The connectors shown are those named, once each, in the order of their numerals. */
  ghost predicate IsConnectorList(logs: Logs, c: string, v: ChargerState) {
    && (forall n :: Shown(v, n) <==> Names(logs, c, n))
    && Ascending(Numerals(v.connectors))
  }

  /** The greatest whole second among the updates of a connector. */
  ghost predicate TimeFold(es: seq<Event>, n: int, shown: Val) {
    var us := UpdatesOf(es, n);
    shown == if us == [] then Text("") else Stamp(MaxSec(us).value)
  }

  ghost predicate IsConnectorFold(logs: Logs, c: string, v: ConnectorState) {
    && (v.activeTransaction <==> ActiveAfter(Came(logs, c, TxTopic), v.connectorId))
    && StatusFold(Came(logs, c, StatusTopic), v.connectorId, v)
    && MeterFold(Came(logs, c, MeterTopic), v.connectorId, EnergyWh, v.energyWh)
    && MeterFold(Came(logs, c, MeterTopic), v.connectorId, PowerW, v.powerW)
    && MeterFold(Came(logs, c, MeterTopic), v.connectorId, SocPercent, v.socPercent)
    && TimeFold(Came(logs, c, MeterTopic), v.connectorId, v.meterTimestamp)
  }

  /** The view of one charger, told from its own events. `last_seen` is left aside. */
  ghost predicate IsFold(logs: Logs, c: string, v: ChargerState) {
    && v.chargerId == c
    && IsBootFold(LastBootOf(Came(logs, c, BootTopic)), v)
    && (v.online <==> exists e :: CameOnline(logs, c, e))
    && IsConnectorList(logs, c, v)
    && forall i :: 0 <= i < |v.connectors| ==> IsConnectorFold(logs, c, v.connectors[i])
  }

  lemma TimeShown(logs: Logs, now: Nanos, ls: seq<Label>, c: string, n: int)
    requires Processed(logs, now, ls) && CleanCharger(logs, c)
    ensures TimeFold(Came(logs, c, MeterTopic), n, Read(Hash(EndOf(logs, now, ls), ConnKey(c, n)), MeterTs))
  {
    FieldAtEnd(logs, now, ls, c, n, MeterTopic, MeterTs);
    var us := UpdatesOf(Came(logs, c, MeterTopic), n);
    hide Processed, EndOf, Came, UpdatesOf;
    assert us == [] ==> forall k: nat :: !LastCarrying(us, MeterTs, k);
  }

  lemma FlagShown(logs: Logs, now: Nanos, ls: seq<Label>, c: string, n: int)
    requires Processed(logs, now, ls) && CleanCharger(logs, c)
    ensures Active(EndOf(logs, now, ls), c, n) <==> ActiveAfter(Came(logs, c, TxTopic), n)
  {
    CellAtEnd(logs, now, ls, H(ConnKey(c, n), ActiveTransaction), c, TxTopic);
    TransactionsFit(logs, EMPTY, c);
    assert Came(logs, c, TxTopic) == Transactions(logs, EMPTY, c);
    hide Processed, EndOf, Came, Transactions;
    FlagsAlone(Came(logs, c, TxTopic), c, n);
  }

  lemma ConnectorIsFold(logs: Logs, now: Nanos, ls: seq<Label>, c: string, n: int)
    requires Processed(logs, now, ls) && CleanCharger(logs, c)
    ensures IsConnectorFold(logs, c, ConnectorView(EndOf(logs, now, ls), c, Decimal.Print(n)))
    ensures ConnectorView(EndOf(logs, now, ls), c, Decimal.Print(n)).connectorId == n
  {
    StatusShown(logs, now, ls, c, n);
    MeterShown(logs, now, ls, c, n, EnergyWh);
    MeterShown(logs, now, ls, c, n, PowerW);
    MeterShown(logs, now, ls, c, n, SocPercent);
    Decimal.ScanPrint(n);
    FlagShown(logs, now, ls, c, n);
    TimeShown(logs, now, ls, c, n);
    hide TimeFold, Processed, EndOf, Came, StatusFold, MeterFold, ActiveAfter, Decimal.Print, Decimal.Scan;
  }

  lemma BootShown(logs: Logs, now: Nanos, ls: seq<Label>, c: string, f: Field)
    requires Processed(logs, now, ls) && CleanCharger(logs, c) && IsBootField(f)
    ensures ShowsBoot(LastBootOf(Came(logs, c, BootTopic)), f, Read(Hash(EndOf(logs, now, ls), ChargerKey(c)), f))
  {
    CellAtEnd(logs, now, ls, H(ChargerKey(c), f), c, BootTopic);
    CameOnLane(logs, c, BootTopic);
    hide Processed, EndOf, Came, LastBootOf, BootValue;
    BootAlone(Came(logs, c, BootTopic), c, f);
  }

  lemma BroughtIsNamed(logs: Logs, c: string, m: string, e: Event) returns (n: int)
    requires Routed(logs) && Brought(logs, ConnectorsKey(c), m, e)
    ensures Names(logs, c, n) && m == Decimal.Print(n)
  {
    hide Fresh, LaneEvents, Lists, Decimal.Print;
    n :| Lists(e, n) && m == Decimal.Print(n);
    var l :| e in Fresh({}, LaneEvents(logs, l));
    FreshSubset({}, LaneEvents(logs, l));
    LaneEventLogged(logs, l, e);
    assert l == Lane(l.topic, c);
    assert e in Came(logs, c, l.topic);
  }

  lemma NamedIsBrought(logs: Logs, c: string, n: int) returns (e: Event)
    requires Routed(logs) && Names(logs, c, n)
    ensures Brought(logs, ConnectorsKey(c), Decimal.Print(n), e)
  {
    hide Fresh, LaneEvents, Lists, Decimal.Print;
    var t;
    e, t :| e in Came(logs, c, t) && Lists(e, n);
    CameOnLane(logs, c, t);
    assert e in Fresh({}, LaneEvents(logs, Lane(t, c)));
  }

  /** The members of the connector set are the numerals of the connectors named. */
  lemma MembersNamed(logs: Logs, now: Nanos, ls: seq<Label>, c: string, m: string)
    requires Processed(logs, now, ls) && CleanCharger(logs, c)
    ensures m in Members(EndOf(logs, now, ls), ConnectorsKey(c))
            <==> exists n :: Names(logs, c, n) && m == Decimal.Print(n)
  {
    hide Run, Gentle, Drained, Names, Brought, Decimal.Print;
    ListedIff(logs, now, ls, ConnectorsKey(c), m);
    if e :| Brought(logs, ConnectorsKey(c), m, e) {
      var n := BroughtIsNamed(logs, c, m, e);
    }
    if n :| Names(logs, c, n) && m == Decimal.Print(n) {
      var e := NamedIsBrought(logs, c, n);
    }
  }

  lemma ConnectorsFold(logs: Logs, now: Nanos, ls: seq<Label>, c: string, m: string) returns (n: int)
    requires Processed(logs, now, ls) && CleanCharger(logs, c) && m in Members(EndOf(logs, now, ls), ConnectorsKey(c))
    ensures var v := ConnectorView(EndOf(logs, now, ls), c, m);
            IsConnectorFold(logs, c, v) && v.connectorId == n && m == Decimal.Print(n) && Names(logs, c, n)
  {
    MembersNamed(logs, now, ls, c, m);
    n :| Names(logs, c, n) && m == Decimal.Print(n);
    ConnectorIsFold(logs, now, ls, c, n);
  }

  lemma ViewFields(s: Store, c: string, v: ChargerState)
    requires IsView(s, c, v)
    ensures var h := Hash(s, ChargerKey(c));
            && v.vendor == Read(h, Vendor) && v.model == Read(h, Model) && v.serial == Read(h, Serial)
            && v.firmware == Read(h, Firmware) && v.lastBoot == Read(h, LastBoot)
  {
    hide Listing, Views, Read, Hash;
  }

  lemma ViewBoot(logs: Logs, now: Nanos, ls: seq<Label>, c: string, v: ChargerState)
    requires Processed(logs, now, ls) && CleanCharger(logs, c) && IsView(EndOf(logs, now, ls), c, v)
    ensures IsBootFold(LastBootOf(Came(logs, c, BootTopic)), v)
  {
    ViewFields(EndOf(logs, now, ls), c, v);
    BootShown(logs, now, ls, c, Vendor);
    BootShown(logs, now, ls, c, Model);
    BootShown(logs, now, ls, c, Serial);
    BootShown(logs, now, ls, c, Firmware);
    BootShown(logs, now, ls, c, LastBoot);
    hide Processed, EndOf, Came, LastBootOf, IsView, Read, Hash, ShowsBoot;
  }

  lemma ViewConnectors(logs: Logs, now: Nanos, ls: seq<Label>, c: string, v: ChargerState)
    requires Processed(logs, now, ls) && CleanCharger(logs, c) && IsView(EndOf(logs, now, ls), c, v)
    ensures forall i :: 0 <= i < |v.connectors| ==> IsConnectorFold(logs, c, v.connectors[i])
    ensures IsConnectorList(logs, c, v)
  {
    hide Processed, EndOf, IsConnectorFold, ConnectorView, Names, Decimal.Print;
    var end := EndOf(logs, now, ls);
    var ms :| Listing(end, c, ms) && v.connectors == Views(end, c, ms);
    forall i | 0 <= i < |v.connectors|
      ensures IsConnectorFold(logs, c, v.connectors[i]) && Names(logs, c, v.connectors[i].connectorId)
      ensures ms[i] == Decimal.Print(v.connectors[i].connectorId)
    {
      assert ms[i] in ms;
      var n := ConnectorsFold(logs, now, ls, c, ms[i]);
    }
    assert Numerals(v.connectors) == ms;
    forall n ensures Shown(v, n) <==> Names(logs, c, n) {
      if Names(logs, c, n) {
        MembersNamed(logs, now, ls, c, Decimal.Print(n));
        var i :| 0 <= i < |ms| && ms[i] == Decimal.Print(n);
        Decimal.PrintInjective(v.connectors[i].connectorId, n);
        assert v.connectors[i].connectorId == n;
      }
    }
  }

  /** The read view refines the fold: after any gentle drained run from empty stores, what the API
      shows of a charger is what its own events say, whatever the schedule: boot data of the last
      BootNotification; online if a boot, status or heartbeat came; the connectors that were named;
      and for each the status of the last winning notification, the last winning meter samples, and
      the flag its Starts and Stops leave. */
  lemma ViewIsFold(logs: Logs, now: Nanos, ls: seq<Label>, c: string, v: ChargerState)
    requires Processed(logs, now, ls) && CleanCharger(logs, c) && IsView(EndOf(logs, now, ls), c, v)
    ensures IsFold(logs, c, v)
  {
    ViewBoot(logs, now, ls, c, v);
    OnlineAtEnd(logs, now, ls, c);
    ViewConnectors(logs, now, ls, c, v);
    hide Processed, EndOf, Came, LastBootOf, CameOnline, IsConnectorFold, IsBootFold, Views, Listing, IsConnectorList;
  }

  // ---------------------------------------------------------------- the fold says it all

  lemma SameField(es: seq<Event>, n: int, f: Field, a: Val, b: Val)
    requires MeterFold(es, n, f, a) && MeterFold(es, n, f, b)
    ensures a == b
  {
    var us, ev := UpdatesOf(es, n), Carriers(es, n);
    if k: nat :| LastCarrying(us, f, k) {
      assert ShowsSample(ev[k], f, a) && ShowsSample(ev[k], f, b);
      hide LastCarrying, UpdatesOf, Carriers;
      var i :| SampleAt(ev[k], f, i) && a == SampleValue(ev[k], f, i);
      var j :| SampleAt(ev[k], f, j) && b == SampleValue(ev[k], f, j);
      assert i == j;
    }
  }

  lemma SameConnector(logs: Logs, c: string, a: ConnectorState, b: ConnectorState)
    requires IsConnectorFold(logs, c, a) && IsConnectorFold(logs, c, b) && a.connectorId == b.connectorId
    ensures a == b
  {
    var n, es := a.connectorId, Came(logs, c, MeterTopic);
    assert a.status == b.status && a.errorCode == b.errorCode && a.statusTimestamp == b.statusTimestamp by {
      hide Came, MeterFold, TimeFold, ActiveAfter;
    }
    hide Came, MeterFold, StatusFold, ActiveAfter;
    SameField(es, n, EnergyWh, a.energyWh, b.energyWh);
    SameField(es, n, PowerW, a.powerW, b.powerW);
    SameField(es, n, SocPercent, a.socPercent, b.socPercent);
  }

  lemma NumeralsShown(v: ChargerState, x: string)
    ensures x in Numerals(v.connectors) <==> exists n :: Shown(v, n) && x == Decimal.Print(n)
  {
    hide Decimal.Print;
    var xs := Numerals(v.connectors);
    if x in xs {
      var i :| 0 <= i < |xs| && xs[i] == x;
      assert Shown(v, v.connectors[i].connectorId);
    }
    if n :| Shown(v, n) && x == Decimal.Print(n) {
      var i :| 0 <= i < |v.connectors| && v.connectors[i].connectorId == n;
      assert xs[i] == x;
    }
  }

  /** Nothing in the view but `last_seen` is left open by the fold. */
  lemma FoldUnique(logs: Logs, c: string, v: ChargerState, w: ChargerState)
    requires IsFold(logs, c, v) && IsFold(logs, c, w)
    ensures v == w.(lastSeen := v.lastSeen)
  {
    hide IsConnectorFold, Names, CameOnline, Came, LastBootOf, BootValue, Decimal.Print;
    var xs, ys := Numerals(v.connectors), Numerals(w.connectors);
    forall x ensures x in xs <==> x in ys {
      NumeralsShown(v, x);
      NumeralsShown(w, x);
      assert forall n :: Shown(v, n) <==> Shown(w, n);
    }
    AscendingUnique(xs, ys);
    forall i | 0 <= i < |v.connectors| ensures v.connectors[i] == w.connectors[i] {
      assert xs[i] == ys[i];
      Decimal.PrintInjective(v.connectors[i].connectorId, w.connectors[i].connectorId);
      SameConnector(logs, c, v.connectors[i], w.connectors[i]);
    }
    assert v.connectors == w.connectors;
  }
}
