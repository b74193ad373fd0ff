/** Where stored values come from, in every state any run can reach: faults, crashes, expiries and
    half-executed pipelines included. */
module Provenance {
  import opened Domain
  import opened Store
  import opened Handler
  import opened Machine
  import opened Ownership

  type History = map<string, Event>

  /** The event is in event_history, under its own id. */
  predicate In(h: History, e: Event) {
    e.eventId in h && h[e.eventId] == e
  }

  predicate Carries(m: map<Field, Val>, fields: map<Field, Val>) {
    forall f :: f in fields ==> f in m && m[f] == fields[f]
  }

  ghost predicate StatusOf(h: History, c: string, n: int, m: map<Field, Val>, e: Event) {
    In(h, e) && e.charger == c && e.body.Status? && e.body.connector == n && Carries(m, StatusFields(e))
  }

  ghost predicate MeterOf(h: History, c: string, n: int, f: Field, v: Val, e: Event) {
    && In(h, e) && e.charger == c && e.body.Meter? && e.body.connector == n && e.body.readings != []
    && f in MeterFields(e) && MeterFields(e)[f] == v
  }

  ghost predicate TagOf(h: History, c: string, n: int, v: Val, e: Event) {
    In(h, e) && e.charger == c && e.body.Start? && e.connector == n && v == Text(e.body.idTag)
  }

  /** The flag of a connector: on from a Start of it, off from a Stop of its charger. */
  ghost predicate FlagOf(h: History, c: string, n: int, v: Val, e: Event) {
    && In(h, e) && e.charger == c
    && ((v == Text("true") && e.body.Start? && e.connector == n) || (v == Text("false") && e.body.Stop?))
  }

  function BootOnly(e: Event): map<Field, Val>
    requires e.body.Boot?
  {
    BootFields(e) - {Online, LastSeen}
  }

  ghost predicate BootOf(h: History, c: string, m: map<Field, Val>, e: Event) {
    In(h, e) && e.charger == c && e.body.Boot? && Carries(m, BootOnly(e))
  }

  ghost predicate StartOf(h: History, c: string, m: map<Field, Val>, e: Event) {
    In(h, e) && e.charger == c && e.body.Start? && m == TxFields(e)
  }

  /** The four status fields come from one status event of this connector. */
  ghost predicate StatusPart(h: History, c: string, n: int, m: map<Field, Val>) {
    (exists f :: f in m && ConnTopic(f) == StatusTopic) ==> exists e :: StatusOf(h, c, n, m, e)
  }

  /** Each meter field comes from a reading of this connector. */
  ghost predicate MeterPart(h: History, c: string, n: int, m: map<Field, Val>) {
    forall f :: f in m && ConnTopic(f) == MeterTopic ==> exists e :: MeterOf(h, c, n, f, m[f], e)
  }

  /** The id tag shown on a connector comes from a Start of it. */
  ghost predicate TagPart(h: History, c: string, n: int, m: map<Field, Val>) {
    TxIdTag in m ==> exists e :: TagOf(h, c, n, m[TxIdTag], e)
  }

  /** Its flag comes from a Start or a Stop, as it is on or off. */
  ghost predicate FlagPart(h: History, c: string, n: int, m: map<Field, Val>) {
    ActiveTransaction in m ==> exists e :: FlagOf(h, c, n, m[ActiveTransaction], e)
  }

  /** The boot fields come from one boot event. */
  ghost predicate BootPart(h: History, c: string, m: map<Field, Val>) {
    (exists f :: f in m && f != Online && f != LastSeen) ==> exists e :: BootOf(h, c, m, e)
  }

  ghost predicate SeenOf(h: History, c: string, v: Val, e: Event) {
    In(h, e) && e.charger == c && v == Stamp(e.timestamp / 1_000_000_000)
  }

  /** `last_seen` is the whole second of an event of this charger, and `online` is only ever true. */
  ghost predicate SeenPart(h: History, c: string, m: map<Field, Val>) {
    && (LastSeen in m ==> exists e :: SeenOf(h, c, m[LastSeen], e))
    && (Online in m ==> m[Online] == Text("true"))
  }

  ghost predicate HashFrom(h: History, k: Key, m: map<Field, Val>) {
    match k
    case ConnKey(c, n) => StatusPart(h, c, n, m) && MeterPart(h, c, n, m) && TagPart(h, c, n, m) && FlagPart(h, c, n, m)
    case ChargerKey(c) => BootPart(h, c, m) && SeenPart(h, c, m)
    case TxKey(c) => m != map[] ==> exists e :: StartOf(h, c, m, e)
    case _ => true
  }

  ghost predicate RowOf(h: History, r: Session, stop: Event, start: Event) {
    && In(h, stop) && stop.eventId == r.sessionId && stop.body.Stop?
    && In(h, start) && start.charger == stop.charger && start.body.Start?
    && r == SessionOf(stop, TxFields(start))
  }

  /** A CDR's id is that of a Stop in the history, and its start data are those of a Start of the
      same charger in the history. */
  ghost predicate RowFrom(h: History, r: Session) {
    exists stop, start :: RowOf(h, r, stop, start)
  }

  ghost predicate Sourced(s: Store) {
    && (forall k :: k in s.hashes ==> HashFrom(s.history, k, s.hashes[k]))
    && (forall id :: id in s.sessions ==> s.sessions[id].sessionId == id && RowFrom(s.history, s.sessions[id]))
  }

  // ---------------------------------------------------------------- growth of the history

  predicate Extends(h: History, h': History) {
    forall id :: id in h ==> id in h' && h'[id] == h[id]
  }

  lemma ConnPartsGrow(h: History, h': History, c: string, n: int, m: map<Field, Val>)
    requires Extends(h, h') && HashFrom(h, ConnKey(c, n), m)
    ensures HashFrom(h', ConnKey(c, n), m)
  {
    if exists f :: f in m && ConnTopic(f) == StatusTopic {
      var e :| StatusOf(h, c, n, m, e);
      assert StatusOf(h', c, n, m, e);
    }
    forall f | f in m && ConnTopic(f) == MeterTopic ensures exists e :: MeterOf(h', c, n, f, m[f], e) {
      var e :| MeterOf(h, c, n, f, m[f], e);
      assert MeterOf(h', c, n, f, m[f], e);
    }
    if TxIdTag in m {
      var e :| TagOf(h, c, n, m[TxIdTag], e);
      assert TagOf(h', c, n, m[TxIdTag], e);
    }
    if ActiveTransaction in m {
      var e :| FlagOf(h, c, n, m[ActiveTransaction], e);
      assert FlagOf(h', c, n, m[ActiveTransaction], e);
    }
  }

  lemma HashFromGrows(h: History, h': History, k: Key, m: map<Field, Val>)
    requires Extends(h, h') && HashFrom(h, k, m)
    ensures HashFrom(h', k, m)
  {
    match k
    case ConnKey(c, n) => ConnPartsGrow(h, h', c, n, m);
    case ChargerKey(c) =>
      if exists f :: f in m && f != Online && f != LastSeen {
        var e :| BootOf(h, c, m, e);
        assert BootOf(h', c, m, e);
      }
      if LastSeen in m {
        var e :| SeenOf(h, c, m[LastSeen], e);
        assert SeenOf(h', c, m[LastSeen], e);
      }
    case TxKey(c) =>
      if m != map[] {
        var e :| StartOf(h, c, m, e);
        assert StartOf(h', c, m, e);
      }
    case _ =>
  }

  lemma RowFromGrows(h: History, h': History, r: Session)
    requires Extends(h, h') && RowFrom(h, r)
    ensures RowFrom(h', r)
  {
    var stop, start :| RowOf(h, r, stop, start);
    assert RowOf(h', r, stop, start);
  }

  // ---------------------------------------------------------------- commands with a source

  predicate WritesConn(e: Event, n: int, fields: map<Field, Val>) {
    || (e.body.Status? && e.body.connector == n && fields == StatusFields(e))
    || (e.body.Meter? && e.body.connector == n && e.body.readings != [] && fields == MeterFields(e))
    || (e.body.Start? && e.connector == n
        && fields == map[ActiveTransaction := Text("true"), TxIdTag := Text(e.body.idTag)])
    || (e.body.Stop? && fields == map[ActiveTransaction := Text("false")])
  }

  predicate WritesCharger(e: Event, fields: map<Field, Val>) {
    fields == LastSeenOf(e) || fields == SeenOnline(e) || (e.body.Boot? && fields == BootFields(e))
  }

  /** A command that some event of the history asks for. */
  ghost predicate CmdFrom(h: History, cmd: Cmd) {
    match cmd
    case HSet(ConnKey(c, n), fields) =>
      exists e :: In(h, e) && e.charger == c && WritesConn(e, n, fields)
    case HSet(ChargerKey(c), fields) =>
      exists e :: In(h, e) && e.charger == c && WritesCharger(e, fields)
    case HSet(TxKey(c), fields) => exists e :: StartOf(h, c, fields, e)
    case InsertSession(r) => RowFrom(h, r)
    case Del(k) => k.TxKey?
    case _ => true
  }

  lemma CmdFromGrows(h: History, h': History, cmd: Cmd)
    requires Extends(h, h') && CmdFrom(h, cmd)
    ensures CmdFrom(h', cmd)
  {
    match cmd
    case HSet(ConnKey(c, n), fields) =>
      var e :| In(h, e) && e.charger == c && WritesConn(e, n, fields);
      assert In(h', e);
    case HSet(ChargerKey(c), fields) =>
      var e :| In(h, e) && e.charger == c && WritesCharger(e, fields);
      assert In(h', e);
    case HSet(TxKey(c), fields) =>
      var e :| StartOf(h, c, fields, e);
      assert StartOf(h', c, fields, e);
    case InsertSession(r) => RowFromGrows(h, h', r);
    case _ =>
  }

  /** Which event a field of a connector write identifies. */
  lemma WriterOf(e: Event, n: int, fields: map<Field, Val>, f: Field)
    requires WritesConn(e, n, fields) && f in fields
    ensures ConnTopic(f) == StatusTopic ==> e.body.Status? && e.body.connector == n && fields == StatusFields(e)
    ensures ConnTopic(f) == MeterTopic ==>
              e.body.Meter? && e.body.connector == n && e.body.readings != [] && fields == MeterFields(e)
    ensures f == TxIdTag ==> e.body.Start? && e.connector == n && fields[f] == Text(e.body.idTag)
    ensures f == ActiveTransaction ==> (fields[f] == Text("true") && e.body.Start? && e.connector == n)
                                       || (fields[f] == Text("false") && e.body.Stop?)
  {
    if e.body.Meter? && e.body.readings != [] {
      SamplesStayMeter(map[MeterTs := Stamp(FloorSec(e.timestamp))], e.body.readings[|e.body.readings| - 1]);
    }
  }

  lemma StillCarries(m: map<Field, Val>, fields: map<Field, Val>, e: Event)
    requires e.body.Status? && Carries(m, StatusFields(e))
    requires forall f :: f in fields ==> ConnTopic(f) != StatusTopic
    ensures Carries(m + fields, StatusFields(e))
  {
    assert forall f :: f in StatusFields(e) ==> ConnTopic(f) == StatusTopic;
  }

  lemma StatusPartSet(h: History, c: string, n: int, m: map<Field, Val>, fields: map<Field, Val>, e: Event)
    requires StatusPart(h, c, n, m) && In(h, e) && e.charger == c && WritesConn(e, n, fields)
    ensures StatusPart(h, c, n, m + fields)
  {
    var m' := m + fields;
    if f :| f in fields && ConnTopic(f) == StatusTopic {
      WriterOf(e, n, fields, f);
      assert StatusOf(h, c, n, m', e);
    } else if f :| f in m && ConnTopic(f) == StatusTopic {
      var e0 :| StatusOf(h, c, n, m, e0);
      StillCarries(m, fields, e0);
      assert StatusOf(h, c, n, m', e0);
    }
  }

  lemma MeterPartSet(h: History, c: string, n: int, m: map<Field, Val>, fields: map<Field, Val>, e: Event)
    requires MeterPart(h, c, n, m) && In(h, e) && e.charger == c && WritesConn(e, n, fields)
    ensures MeterPart(h, c, n, m + fields)
  {
    var m' := m + fields;
    forall f | f in m' && ConnTopic(f) == MeterTopic ensures exists e :: MeterOf(h, c, n, f, m'[f], e) {
      if f in fields {
        WriterOf(e, n, fields, f);
        assert MeterOf(h, c, n, f, m'[f], e);
      } else {
        var e0 :| MeterOf(h, c, n, f, m[f], e0);
        assert MeterOf(h, c, n, f, m'[f], e0);
      }
    }
  }

  lemma TagPartSet(h: History, c: string, n: int, m: map<Field, Val>, fields: map<Field, Val>, e: Event)
    requires TagPart(h, c, n, m) && In(h, e) && e.charger == c && WritesConn(e, n, fields)
    ensures TagPart(h, c, n, m + fields)
  {
    if TxIdTag in fields {
      WriterOf(e, n, fields, TxIdTag);
      assert TagOf(h, c, n, (m + fields)[TxIdTag], e);
    } else if TxIdTag in m {
      var e0 :| TagOf(h, c, n, m[TxIdTag], e0);
      assert TagOf(h, c, n, (m + fields)[TxIdTag], e0);
    }
  }

  lemma FlagPartSet(h: History, c: string, n: int, m: map<Field, Val>, fields: map<Field, Val>, e: Event)
    requires FlagPart(h, c, n, m) && In(h, e) && e.charger == c && WritesConn(e, n, fields)
    ensures FlagPart(h, c, n, m + fields)
  {
    if ActiveTransaction in fields {
      WriterOf(e, n, fields, ActiveTransaction);
      assert FlagOf(h, c, n, (m + fields)[ActiveTransaction], e);
    } else if ActiveTransaction in m {
      var e0 :| FlagOf(h, c, n, m[ActiveTransaction], e0);
      assert FlagOf(h, c, n, (m + fields)[ActiveTransaction], e0);
    }
  }

  lemma ConnFrom(h: History, c: string, n: int, m: map<Field, Val>, fields: map<Field, Val>)
    requires HashFrom(h, ConnKey(c, n), m) && CmdFrom(h, HSet(ConnKey(c, n), fields))
    ensures HashFrom(h, ConnKey(c, n), m + fields)
  {
    var e :| In(h, e) && e.charger == c && WritesConn(e, n, fields);
    StatusPartSet(h, c, n, m, fields, e);
    MeterPartSet(h, c, n, m, fields, e);
    TagPartSet(h, c, n, m, fields, e);
    FlagPartSet(h, c, n, m, fields, e);
  }

  lemma BootPartSet(h: History, c: string, m: map<Field, Val>, fields: map<Field, Val>, e: Event)
    requires BootPart(h, c, m) && In(h, e) && e.charger == c && WritesCharger(e, fields)
    ensures BootPart(h, c, m + fields)
  {
    var m' := m + fields;
    if e.body.Boot? && fields == BootFields(e) {
      assert BootOf(h, c, m', e);
    } else if f :| f in m' && f != Online && f != LastSeen {
      assert f in m;
      var e0 :| BootOf(h, c, m, e0);
      assert BootOf(h, c, m', e0);
    }
  }

  lemma SeenPartSet(h: History, c: string, m: map<Field, Val>, fields: map<Field, Val>, e: Event)
    requires SeenPart(h, c, m) && In(h, e) && e.charger == c && WritesCharger(e, fields)
    ensures SeenPart(h, c, m + fields)
  {
    assert SeenOf(h, c, (m + fields)[LastSeen], e);
  }

  lemma ChargerFrom(h: History, c: string, m: map<Field, Val>, fields: map<Field, Val>)
    requires HashFrom(h, ChargerKey(c), m) && CmdFrom(h, HSet(ChargerKey(c), fields))
    ensures HashFrom(h, ChargerKey(c), m + fields)
  {
    var e :| In(h, e) && e.charger == c && WritesCharger(e, fields);
    BootPartSet(h, c, m, fields, e);
    SeenPartSet(h, c, m, fields, e);
  }

  lemma TxFrom(h: History, c: string, m: map<Field, Val>, fields: map<Field, Val>)
    requires HashFrom(h, TxKey(c), m) && CmdFrom(h, HSet(TxKey(c), fields))
    ensures HashFrom(h, TxKey(c), m + fields)
  {
    var e :| StartOf(h, c, fields, e);
    if m != map[] {
      var e0 :| StartOf(h, c, m, e0);
    }
    assert m + fields == fields;
  }

  lemma SetFrom(h: History, k: Key, m: map<Field, Val>, fields: map<Field, Val>)
    requires HashFrom(h, k, m) && CmdFrom(h, HSet(k, fields))
    ensures HashFrom(h, k, m + fields)
  {
    match k
    case ConnKey(c, n) => ConnFrom(h, c, n, m, fields);
    case ChargerKey(c) => ChargerFrom(h, c, m, fields);
    case TxKey(c) => TxFrom(h, c, m, fields);
    case _ =>
  }

  lemma ExecSourced(s: Store, cmd: Cmd)
    requires Sourced(s) && CmdFrom(s.history, cmd)
    ensures Sourced(Exec(s, cmd))
  {
    var s' := Exec(s, cmd);
    if cmd.HSet? {
      assert HashFrom(s.history, cmd.key, map[]);
      SetFrom(s.history, cmd.key, Hash(s, cmd.key), cmd.fields);
    }
    forall k | k in s'.hashes ensures HashFrom(s'.history, k, s'.hashes[k]) {
      if k in s.hashes {
        assert HashFrom(s.history, k, s.hashes[k]);
      }
    }
  }

  // ---------------------------------------------------------------- the handler

  lemma StartFrom(s: Store, e: Event)
    requires In(s.history, e) && e.body.Start?
    ensures forall i :: 0 <= i < |StartCmds(e)| ==> CmdFrom(s.history, StartCmds(e)[i])
  {
    var cmds := StartCmds(e);
    assert WritesCharger(e, LastSeenOf(e));
    assert WritesConn(e, e.connector, cmds[0].fields);
    assert StartOf(s.history, e.charger, TxFields(e), e);
    assert CmdFrom(s.history, cmds[0]) && CmdFrom(s.history, cmds[2]);
  }

  lemma StopFlagFrom(h: History, e: Event, n: int)
    requires In(h, e) && e.body.Stop?
    ensures CmdFrom(h, HSet(ConnKey(e.charger, n), map[ActiveTransaction := Text("false")]))
  {
    assert WritesConn(e, n, map[ActiveTransaction := Text("false")]);
  }

  lemma StopRowFrom(s: Store, e: Event, tx: map<Field, Val>)
    requires Sourced(s) && In(s.history, e) && e.body.Stop?
    requires StartTime in tx && tx == Hash(s, TxKey(e.charger))
    ensures CmdFrom(s.history, InsertSession(SessionOf(e, tx)))
  {
    var k := TxKey(e.charger);
    assert HashFrom(s.history, k, s.hashes[k]);
    var start :| StartOf(s.history, e.charger, tx, start);
    assert RowOf(s.history, SessionOf(e, tx), e, start);
  }

  lemma StopTailFrom(h: History, e: Event)
    requires In(h, e) && e.body.Stop?
    ensures CmdFrom(h, HSet(ChargerKey(e.charger), LastSeenOf(e)))
    ensures CmdFrom(h, SAdd(ChargersKey, e.charger)) && CmdFrom(h, Del(TxKey(e.charger)))
  {
    assert WritesCharger(e, LastSeenOf(e));
  }

  lemma StopFrom(s: Store, e: Event, tx: map<Field, Val>)
    requires Sourced(s) && In(s.history, e) && e.body.Stop?
    requires tx == map[] || tx == Hash(s, TxKey(e.charger))
    ensures forall i :: 0 <= i < |StopCmds(e, tx)| ==> CmdFrom(s.history, StopCmds(e, tx)[i])
  {
    StopTailFrom(s.history, e);
    hide SessionOf, Sourced, LastSeenOf, CmdFrom;
    var named := ScanInt(FieldOr(tx, ConnectorId, Text("")));
    StopFlagFrom(s.history, e, if named > 0 then named else e.connector);
    if StartTime in tx {
      StopRowFrom(s, e, tx);
    }
  }

  lemma PlanFrom(s: Store, e: Event, readFails: bool)
    requires Sourced(s) && In(s.history, e)
    ensures var d := Plan(e, s, readFails); d.Write? ==> forall i :: 0 <= i < |d.cmds| ==> CmdFrom(s.history, d.cmds[i])
  {
    assert WritesCharger(e, LastSeenOf(e)) && WritesCharger(e, SeenOnline(e));
    assert e.body.Boot? ==> WritesCharger(e, BootFields(e));
    match e.body
    case Status(n, _, _, _) => assert WritesConn(e, n, StatusFields(e));
    case Meter(n, readings) => if readings != [] { assert WritesConn(e, n, MeterFields(e)); }
    case Start(_, _, _) => StartFrom(s, e);
    case Stop(_, _, _) => StopFrom(s, e, if readFails then map[] else Hash(s, TxKey(e.charger)));
    case _ =>
  }

  ghost predicate Logged(logs: Logs, e: Event) {
    exists p, i :: Holds(logs, p, i, e)
  }

  ghost predicate PhaseFrom(logs: Logs, h: History, ph: Phase) {
    && (Busy(ph) ==> Logged(logs, ph.event))
    && (ph.AtUpdate? || ph.Writing? ==> In(h, ph.event))
    && (ph.Writing? ==> forall i :: 0 <= i < |ph.cmds| ==> CmdFrom(h, ph.cmds[i]))
  }

  ghost predicate HistoryLogged(logs: Logs, h: History) {
    forall id :: id in h ==> h[id].eventId == id && Logged(logs, h[id])
  }

  lemma PhaseFromGrows(logs: Logs, h: History, h': History, ph: Phase)
    requires Extends(h, h') && PhaseFrom(logs, h, ph)
    ensures PhaseFrom(logs, h', ph)
  {
    if ph.Writing? {
      forall i | 0 <= i < |ph.cmds| ensures CmdFrom(h', ph.cmds[i]) {
        CmdFromGrows(h, h', ph.cmds[i]);
      }
    }
  }

  lemma SameEvent(logs: Logs, e: Event, f: Event)
    requires UniqueEventIds(logs) && Logged(logs, e) && Logged(logs, f) && e.eventId == f.eventId
    ensures e == f
  {
    var p, i :| Holds(logs, p, i, e);
    var q, j :| Holds(logs, q, j, f);
  }

  lemma RememberFrom(s: Store, e: Event)
    requires Sourced(s) && e.eventId !in s.history
    ensures Sourced(Remember(s, e))
  {
    var s' := Remember(s, e);
    forall k | k in s'.hashes ensures HashFrom(s'.history, k, s'.hashes[k]) {
      HashFromGrows(s.history, s'.history, k, s.hashes[k]);
    }
    forall id | id in s'.sessions ensures s'.sessions[id].sessionId == id && RowFrom(s'.history, s'.sessions[id]) {
      RowFromGrows(s.history, s'.history, s.sessions[id]);
    }
  }

  lemma RememberSourced(logs: Logs, s: Store, e: Event)
    requires UniqueEventIds(logs) && Sourced(s) && HistoryLogged(logs, s.history) && Logged(logs, e)
    ensures var s' := Remember(s, e);
            Sourced(s') && HistoryLogged(logs, s'.history) && Extends(s.history, s'.history) && In(s'.history, e)
  {
    if e.eventId in s.history {
      SameEvent(logs, e, s.history[e.eventId]);
    } else {
      RememberFrom(s, e);
    }
  }

  lemma WritingSourced(logs: Logs, e: Event, cmds: seq<Cmd>, s: Store)
    requires Sourced(s) && cmds != [] && PhaseFrom(logs, s.history, Writing(e, cmds))
    ensures var s' := Exec(s, cmds[0]);
            Sourced(s') && s'.history == s.history && PhaseFrom(logs, s'.history, Continue(e, cmds[1..]))
  {
    assert CmdFrom(s.history, cmds[0]);
    ExecSourced(s, cmds[0]);
  }

  lemma StepSourced(logs: Logs, ph: Phase, s: Store, fault: Fault)
    requires UniqueEventIds(logs) && Sourced(s) && HistoryLogged(logs, s.history) && PhaseFrom(logs, s.history, ph)
    ensures var (ph', s') := Step(ph, s, fault);
            && Sourced(s') && HistoryLogged(logs, s'.history) && Extends(s.history, s'.history)
            && PhaseFrom(logs, s'.history, ph')
  {
    if ph.AtHistory? {
      RememberSourced(logs, s, ph.event);
    } else if ph.AtUpdate? {
      PlanFrom(s, ph.event, !fault.Works? && Reads(ph.event.body));
    } else if ph.Writing? && ph.cmds != [] && !fault.Refused? {
      WritingSourced(logs, ph.event, ph.cmds, s);
    }
  }

  // ---------------------------------------------------------------- all runs

  ghost predicate ReaderFrom(logs: Logs, s: State, t: Topic) {
    PhaseFrom(logs, s.store.history, PhaseOf(s, t))
  }

  ghost predicate Traced(logs: Logs, s: State) {
    Sourced(s.store) && HistoryLogged(logs, s.store.history) && forall t :: ReaderFrom(logs, s, t)
  }

  lemma DoTraced(logs: Logs, s: State, t: Topic, fault: Fault)
    requires UniqueEventIds(logs) && Traced(logs, s) && Busy(PhaseOf(s, t))
    ensures Traced(logs, DoStep(s, t, fault))
  {
    var (ph, store) := Step(PhaseOf(s, t), s.store, fault);
    var s' := Advance(s, t, ph, store, !fault.Refused?);
    assert ReaderFrom(logs, s, t);
    StepSourced(logs, PhaseOf(s, t), s.store, fault);
    forall u ensures ReaderFrom(logs, s', u) {
      assert ReaderFrom(logs, s, u);
      if u != t {
        PhaseFromGrows(logs, s.store.history, store.history, PhaseOf(s, u));
      }
    }
  }

  lemma {:induction false} NextTraced(logs: Logs, s: State, lb: Label)
    requires UniqueEventIds(logs) && Traced(logs, s)
    ensures Traced(logs, Next(logs, s, lb))
  {
    var s' := Next(logs, s, lb);
    if lb.Do? {
      if Enabled(logs, s, lb) {
        DoTraced(logs, s, lb.topic, lb.fault);
      }
    } else {
      forall t ensures ReaderFrom(logs, s', t) {
        NextPhase(logs, s, lb, t);
        assert ReaderFrom(logs, s, t);
        if lb.Fetch? && Available(logs, s, lb.part) && logs[lb.part][Position(s, lb.part)].Rec? {
          assert Holds(logs, lb.part, Position(s, lb.part), logs[lb.part][Position(s, lb.part)].event);
        }
      }
      if lb.Tick? {
        var now := s.clock + lb.elapsed;
        assert s'.store == Purge(s.store, s.ttl, now);
      }
    }
  }

  /** Provenance: from empty stores, in every state of every run, each stored status, meter, boot,
      flag, last_seen and pairing value comes from an event already in event_history, and each CDR from
      a Stop and a Start of the same charger that are both there. */
  lemma {:induction false} EveryValueHasASource(logs: Logs, now: Nanos, ls: seq<Label>)
    requires UniqueEventIds(logs)
    ensures Traced(logs, Run(logs, Init(EMPTY, now), ls))
    decreases |ls|
  {
    if ls != [] {
      EveryValueHasASource(logs, now, ls[..|ls| - 1]);
      NextTraced(logs, Run(logs, Init(EMPTY, now), ls[..|ls| - 1]), ls[|ls| - 1]);
    }
  }

  // ---------------------------------------------------------------- the Start comes first

  /** At label k the handler of a Stop read the pairing record of a Start that was in event_history by
      then, and r is the CDR of the two. */
  ghost predicate PairedAt(logs: Logs, s: State, ls: seq<Label>, k: nat, r: Session, stop: Event, start: Event) {
    && k < |ls| && ls[k].Do? && ls[k].fault.Works?
    && (var b := Run(logs, s, ls[..k]);
        && PhaseOf(b, ls[k].topic) == AtUpdate(stop) && stop.body.Stop? && In(b.store.history, stop)
        && StartOf(b.store.history, stop.charger, Hash(b.store, TxKey(stop.charger)), start)
        && r == SessionOf(stop, TxFields(start)))
  }

  ghost predicate Paired(logs: Logs, s: State, ls: seq<Label>, r: Session) {
    exists k, stop, start :: PairedAt(logs, s, ls, k, r, stop, start)
  }

  ghost predicate ReaderPaired(logs: Logs, s: State, ls: seq<Label>, b: State, t: Topic) {
    var ph := PhaseOf(b, t);
    ph.Writing? ==> forall i :: 0 <= i < |ph.cmds| && ph.cmds[i].InsertSession? ==> Paired(logs, s, ls, ph.cmds[i].row)
  }

  ghost predicate AllPaired(logs: Logs, s: State, ls: seq<Label>) {
    var b := Run(logs, s, ls);
    && (forall t :: ReaderPaired(logs, s, ls, b, t))
    && (forall id :: id in b.store.sessions ==> Paired(logs, s, ls, b.store.sessions[id]))
  }

  lemma PairedLater(logs: Logs, s: State, ls: seq<Label>, l: Label, r: Session)
    requires Paired(logs, s, ls, r)
    ensures Paired(logs, s, ls + [l], r)
  {
    var k: nat, stop, start :| PairedAt(logs, s, ls, k, r, stop, start);
    assert (ls + [l])[..k] == ls[..k];
    assert PairedAt(logs, s, ls + [l], k, r, stop, start);
  }

  /** The only rows a handler decides to insert are those of the pairing record it has just read. */
  lemma PlanRows(e: Event, s: Store, readFails: bool)
    ensures var d := Plan(e, s, readFails);
            d.Write? ==>
              forall i :: 0 <= i < |d.cmds| && d.cmds[i].InsertSession? ==>
                && e.body.Stop? && !readFails && StartTime in Hash(s, TxKey(e.charger))
                && d.cmds[i].row == SessionOf(e, Hash(s, TxKey(e.charger)))
  {
    hide SessionOf, StatusFields, MeterFields, BootFields, TxFields, SeenOnline, LastSeenOf, Stale;
  }

  lemma StepRows(ph: Phase, s: Store, fault: Fault)
    requires Busy(ph)
    ensures var ph', s' := Step(ph, s, fault).0, Step(ph, s, fault).1;
            && (s'.sessions == s.sessions
                || (ph.Writing? && ph.cmds != [] && ph.cmds[0].InsertSession?
                    && s'.sessions == s.sessions[ph.cmds[0].row.sessionId := ph.cmds[0].row]))
            && (ph'.Writing? ==> ph.AtUpdate? || (ph.Writing? && ph.cmds != [] && ph'.cmds == ph.cmds[1..]))
  {
    hide Plan;
  }

  lemma ReadsItsStart(logs: Logs, s: State, ls: seq<Label>, t: Topic, fault: Fault, i: nat)
    requires var b := Run(logs, s, ls); Traced(logs, b) && PhaseOf(b, t).AtUpdate?
    requires var ph' := Step(PhaseOf(Run(logs, s, ls), t), Run(logs, s, ls).store, fault).0;
             ph'.Writing? && i < |ph'.cmds| && ph'.cmds[i].InsertSession?
    ensures var ph' := Step(PhaseOf(Run(logs, s, ls), t), Run(logs, s, ls).store, fault).0;
            Paired(logs, s, ls + [Do(t, fault)], ph'.cmds[i].row)
  {
    var b := Run(logs, s, ls);
    var stop := PhaseOf(b, t).event;
    var k := TxKey(stop.charger);
    var ph' := Step(PhaseOf(b, t), b.store, fault).0;
    hide SessionOf;
    PlanRows(stop, b.store, !fault.Works? && Reads(stop.body));
    hide Plan;
    assert ReaderFrom(logs, b, t) && HashFrom(b.store.history, k, b.store.hashes[k]);
    var start :| StartOf(b.store.history, stop.charger, Hash(b.store, k), start);
    assert (ls + [Do(t, fault)])[..|ls|] == ls;
    assert PairedAt(logs, s, ls + [Do(t, fault)], |ls|, ph'.cmds[i].row, stop, start);
  }

  lemma DoPhases(s: State, t: Topic, fault: Fault, u: Topic)
    requires Busy(PhaseOf(s, t))
    ensures PhaseOf(DoStep(s, t, fault), u)
         == if u == t then Step(PhaseOf(s, t), s.store, fault).0 else PhaseOf(s, u)
  {
    hide Step, TallyAfter, TtlAfter;
  }

  lemma DoReaderPaired(logs: Logs, s: State, ls: seq<Label>, t: Topic, fault: Fault, u: Topic)
    requires AllPaired(logs, s, ls) && Traced(logs, Run(logs, s, ls)) && Busy(PhaseOf(Run(logs, s, ls), t))
    ensures ReaderPaired(logs, s, ls + [Do(t, fault)], DoStep(Run(logs, s, ls), t, fault), u)
  {
    var b, more := Run(logs, s, ls), ls + [Do(t, fault)];
    var ph, b' := PhaseOf(b, t), DoStep(b, t, fault);
    assert ReaderPaired(logs, s, ls, b, u);
    StepRows(ph, b.store, fault);
    DoPhases(b, t, fault, u);
    hide Step, DoStep, Run, Paired, Traced, AllPaired;
    var was, now := PhaseOf(b, u), PhaseOf(b', u);
    if now.Writing? {
      forall i | 0 <= i < |now.cmds| && now.cmds[i].InsertSession? ensures Paired(logs, s, more, now.cmds[i].row) {
        if u == t && ph.AtUpdate? {
          ReadsItsStart(logs, s, ls, t, fault, i);
        } else {
          var j := if u == t then i + 1 else i;
          assert was.Writing? && j < |was.cmds| && was.cmds[j] == now.cmds[i];
          assert Paired(logs, s, ls, was.cmds[j].row);
          PairedLater(logs, s, ls, Do(t, fault), now.cmds[i].row);
        }
      }
    }
  }

  lemma DoRowsPaired(logs: Logs, s: State, ls: seq<Label>, t: Topic, fault: Fault, id: string)
    requires AllPaired(logs, s, ls) && Busy(PhaseOf(Run(logs, s, ls), t))
    requires id in DoStep(Run(logs, s, ls), t, fault).store.sessions
    ensures Paired(logs, s, ls + [Do(t, fault)], DoStep(Run(logs, s, ls), t, fault).store.sessions[id])
  {
    var b := Run(logs, s, ls);
    var ph, row := PhaseOf(b, t), DoStep(b, t, fault).store.sessions[id];
    StepRows(ph, b.store, fault);
    hide Step, Run, Paired;
    assert ReaderPaired(logs, s, ls, b, t);
    if ph.Writing? && ph.cmds != [] && ph.cmds[0].InsertSession? && row == ph.cmds[0].row {
      assert Paired(logs, s, ls, ph.cmds[0].row);
    } else {
      assert row == b.store.sessions[id];
    }
    PairedLater(logs, s, ls, Do(t, fault), row);
  }

  lemma {:induction false} DoPaired(logs: Logs, s: State, ls: seq<Label>, t: Topic, fault: Fault)
    requires AllPaired(logs, s, ls) && Traced(logs, Run(logs, s, ls)) && Busy(PhaseOf(Run(logs, s, ls), t))
    ensures AllPaired(logs, s, ls + [Do(t, fault)])
  {
    var b, more := Run(logs, s, ls), ls + [Do(t, fault)];
    var b' := DoStep(b, t, fault);
    assert more[..|ls|] == ls && Run(logs, s, more) == b';
    hide DoStep, Paired, Traced, ReaderPaired, Next, Run;
    forall u ensures ReaderPaired(logs, s, more, b', u) {
      DoReaderPaired(logs, s, ls, t, fault, u);
    }
    forall id | id in b'.store.sessions ensures Paired(logs, s, more, b'.store.sessions[id]) {
      DoRowsPaired(logs, s, ls, t, fault, id);
    }
  }

  lemma {:induction false} OthersPaired(logs: Logs, s: State, ls: seq<Label>, l: Label)
    requires AllPaired(logs, s, ls) && !(l.Do? && Busy(PhaseOf(Run(logs, s, ls), l.topic)))
    ensures AllPaired(logs, s, ls + [l])
  {
    var b, more := Run(logs, s, ls), ls + [l];
    var b' := Next(logs, b, l);
    assert more[..|ls|] == ls && Run(logs, s, more) == b';
    assert b'.store.sessions == b.store.sessions;
    forall t ensures !PhaseOf(b', t).Writing? || PhaseOf(b', t) == PhaseOf(b, t) {
      NextPhase(logs, b, l, t);
    }
    hide Run, Next, Paired;
    forall t ensures ReaderPaired(logs, s, more, b', t) {
      assert ReaderPaired(logs, s, ls, b, t);
      var ph := PhaseOf(b', t);
      if ph.Writing? {
        forall i | 0 <= i < |ph.cmds| && ph.cmds[i].InsertSession? ensures Paired(logs, s, more, ph.cmds[i].row) {
          PairedLater(logs, s, ls, l, ph.cmds[i].row);
        }
      }
    }
    forall id | id in b'.store.sessions ensures Paired(logs, s, more, b'.store.sessions[id]) {
      PairedLater(logs, s, ls, l, b.store.sessions[id]);
    }
  }

  /** Every CDR of every run is that of a Stop and of the Start whose pairing record the Stop's handler
      read; that Start was in event_history before. */
  lemma {:induction false} StartBeforeStop(logs: Logs, now: Nanos, ls: seq<Label>)
    requires UniqueEventIds(logs)
    ensures AllPaired(logs, Init(EMPTY, now), ls)
    decreases |ls|
  {
    var s := Init(EMPTY, now);
    if ls == [] {
      forall t ensures ReaderPaired(logs, s, ls, s, t) {
      }
    } else {
      var before, l := ls[..|ls| - 1], ls[|ls| - 1];
      StartBeforeStop(logs, now, before);
      EveryValueHasASource(logs, now, before);
      assert ls == before + [l];
      hide Run, AllPaired, Traced, Init;
      if l.Do? && Busy(PhaseOf(Run(logs, s, before), l.topic)) {
        DoPaired(logs, s, before, l.topic, l.fault);
      } else {
        OthersPaired(logs, s, before, l);
      }
    }
  }
}
