/** Charge detail records: which Start and Stop are paired, in every concurrent run, and what the
    rows of one charger add up to. */
module Cdr {
  import opened Domain
  import opened Store
  import opened Handler
  import opened Machine
  import opened Ownership
  import opened Interleaving
  import opened Confluence
  import opened Sequential
  import opened Connectors

  // ---------------------------------------------------------------- the declarative pairing

  /** A Start immediately followed, on its charger, by a Stop. */
  predicate PairAt(es: seq<Event>, i: nat) {
    i + 1 < |es| && es[i].body.Start? && es[i + 1].body.Stop?
  }

  /** The record a Start and a Stop should give: floored start second, clamped energy, the Stop's
      own id tag when it has one. */
  function CdrOf(start: Event, stop: Event): Session
    requires start.body.Start? && stop.body.Stop?
  {
    var startTime := FloorSec(start.timestamp) * SECOND;
    var energy := stop.body.meterStop - start.body.meterStart;
    Session(stop.eventId, stop.charger, start.body.connector,
            if stop.body.idTag != "" then stop.body.idTag else start.body.idTag,
            startTime, stop.timestamp, TruncSec(stop.timestamp - startTime),
            if energy < 0 then 0 else energy, start.body.meterStart, stop.body.meterStop, stop.body.reason)
  }

  /** The CDRs of a charger's transaction events, in order. */
  function Cdrs(es: seq<Event>): seq<Session> {
    if |es| < 2 then []
    else
      var n := |es| - 1;
      Cdrs(es[..n]) + if PairAt(es, n - 1) then [CdrOf(es[n - 1], es[n])] else []
  }

  lemma SessionIsCdr(start: Event, stop: Event)
    requires start.body.Start? && stop.body.Stop?
    ensures SessionOf(stop, TxFields(start)) == CdrOf(start, stop)
  {
  }

  // ---------------------------------------------------------------- one transaction event

  /** The pairing record, as the last event of a charger leaves it. */
  function TxAfter(es: seq<Event>): map<Field, Val> {
    if es != [] && es[|es| - 1].body.Start? then TxFields(es[|es| - 1]) else map[]
  }

  predicate TxEvents(es: seq<Event>, c: string) {
    forall i :: 0 <= i < |es| ==> es[i].charger == c && (es[i].body.Start? || es[i].body.Stop?)
  }

  predicate DistinctIds(es: seq<Event>) {
    forall i, j :: 0 <= i < j < |es| ==> es[i].eventId != es[j].eventId
  }

  lemma StartEffect(s: Store, e: Event)
    requires e.body.Start?
    ensures var s' := ExecAll(s, StartCmds(e));
            s'.sessions == s.sessions && Hash(s', TxKey(e.charger)) == Hash(s, TxKey(e.charger)) + TxFields(e)
  {
    var cmds := StartCmds(e);
    ExecAllSessions(s, cmds);
    NoRows(s.sessions, cmds);
    ExecAllHash(s, TxKey(e.charger), cmds);
    OneTouch(Hash(s, TxKey(e.charger)), TxKey(e.charger), cmds, 2);
  }

  lemma StartFlags(s: Store, e: Event, n: int)
    requires e.body.Start?
    ensures Hash(ExecAll(s, StartCmds(e)), ConnKey(e.charger, n))
         == if n == e.connector then Hash(s, ConnKey(e.charger, n)) + StartCmds(e)[0].fields
            else Hash(s, ConnKey(e.charger, n))
  {
    ExecAllHash(s, ConnKey(e.charger, n), StartCmds(e));
    OneTouch(Hash(s, ConnKey(e.charger, n)), ConnKey(e.charger, n), StartCmds(e), 0);
  }

  /** The connector whose flag a Stop clears. */
  function Cleared(e: Event, tx: map<Field, Val>): int {
    var named := ScanInt(FieldOr(tx, ConnectorId, Text("")));
    if named > 0 then named else e.connector
  }

  const OFF: map<Field, Val> := map[ActiveTransaction := Text("false")]

  predicate ProperTx(tx: map<Field, Val>) {
    tx == map[] || (StartTime in tx && tx[StartTime].Stamp?)
  }

  lemma StopEffect(s: Store, e: Event, tx: map<Field, Val>)
    requires e.body.Stop? && tx == Hash(s, TxKey(e.charger)) && ProperTx(tx)
    ensures var s' := ExecAll(s, StopCmds(e, tx));
            && s'.sessions == (if tx == map[] || e.eventId in s.sessions then s.sessions
                               else s.sessions[e.eventId := SessionOf(e, tx)])
            && Hash(s', TxKey(e.charger)) == map[]
  {
    var cmds := StopCmds(e, tx);
    ExecAllSessions(s, cmds);
    ExecAllHash(s, TxKey(e.charger), cmds);
    if tx == map[] {
      NoRows(s.sessions, cmds);
      SparedHash(tx, TxKey(e.charger), cmds);
    } else {
      assert cmds[0] == InsertSession(SessionOf(e, tx));
      NoRows(if e.eventId in s.sessions then s.sessions else s.sessions[e.eventId := SessionOf(e, tx)], cmds[1..]);
      OneTouch(tx, TxKey(e.charger), cmds, 2);
    }
  }

  lemma StopFlags(s: Store, e: Event, tx: map<Field, Val>, n: int)
    requires e.body.Stop? && ProperTx(tx)
    ensures Hash(ExecAll(s, StopCmds(e, tx)), ConnKey(e.charger, n))
         == if n == Cleared(e, tx) then Hash(s, ConnKey(e.charger, n)) + OFF else Hash(s, ConnKey(e.charger, n))
  {
    var cmds := StopCmds(e, tx);
    var flag := if tx == map[] then 0 else 1;
    assert cmds[flag] == HSet(ConnKey(e.charger, Cleared(e, tx)), OFF);
    ExecAllHash(s, ConnKey(e.charger, n), cmds);
    OneTouch(Hash(s, ConnKey(e.charger, n)), ConnKey(e.charger, n), cmds, flag);
  }

  lemma ApplyTx(s: Store, e: Event, c: string)
    requires e.charger == c && (e.body.Start? || e.body.Stop?)
    ensures var tx := Hash(s, TxKey(c));
            Apply(s, e) == ExecAll(Remember(Lock(s, e.messageId), e),
                                   if e.body.Start? then StartCmds(e) else StopCmds(e, tx))
  {
    assert Hash(Remember(Lock(s, e.messageId), e), TxKey(c)) == Hash(s, TxKey(c));
  }

  // ---------------------------------------------------------------- one charger, run alone

  /** s with these rows added, none replaced. */
  ghost predicate RowsAdded(before: map<string, Session>, after: map<string, Session>, rows: seq<Session>) {
    && (forall id :: id in before ==> id in after && after[id] == before[id])
    && (forall i :: 0 <= i < |rows| ==> rows[i].sessionId in after && after[rows[i].sessionId] == rows[i])
    && (forall id :: id in after && id !in before ==> exists i :: 0 <= i < |rows| && rows[i].sessionId == id)
  }

  ghost predicate IsCdrOfPair(es: seq<Event>, r: Session, j: nat) {
    PairAt(es, j) && r == CdrOf(es[j], es[j + 1])
  }

  lemma {:induction false} CdrIds(es: seq<Event>, i: nat) returns (j: nat)
    requires i < |Cdrs(es)|
    ensures IsCdrOfPair(es, Cdrs(es)[i], j)
  {
    var n := |es| - 1;
    if i < |Cdrs(es[..n])| {
      j := CdrIds(es[..n], i);
    } else {
      j := n - 1;
    }
  }

  /** Every adjacent Start, Stop gives its row, so that Cdrs holds exactly those, in order. */
  lemma {:induction false} PairsHaveCdrs(es: seq<Event>, i: nat)
    requires PairAt(es, i)
    ensures CdrOf(es[i], es[i + 1]) in Cdrs(es)
  {
    var n := |es| - 1;
    if i + 1 < n {
      PairsHaveCdrs(es[..n], i);
    }
  }

  lemma NewId(before: map<string, Session>, es: seq<Event>, after: map<string, Session>)
    requires es != [] && DistinctIds(es) && es[|es| - 1].eventId !in before
    requires RowsAdded(before, after, Cdrs(es[..|es| - 1]))
    ensures es[|es| - 1].eventId !in after
  {
    var n := |es| - 1;
    var rows := Cdrs(es[..n]);
    forall i | 0 <= i < |rows| ensures rows[i].sessionId != es[n].eventId {
      var j := CdrIds(es[..n], i);
      assert es[j + 1].eventId != es[n].eventId;
    }
  }

  lemma TxOverwritten(front: seq<Event>, e: Event)
    requires e.body.Start?
    ensures TxAfter(front) + TxFields(e) == TxFields(e)
  {
  }

  lemma {:induction false} StartAlone(a: Store, front: seq<Event>, e: Event, c: string)
    requires e.charger == c && e.body.Start? && Hash(a, TxKey(c)) == TxAfter(front)
    ensures Hash(Apply(a, e), TxKey(c)) == TxFields(e) && Apply(a, e).sessions == a.sessions
  {
    var b := Remember(Lock(a, e.messageId), e);
    ApplyTx(a, e, c);
    StartEffect(b, e);
    TxOverwritten(front, e);
    assert Hash(b, TxKey(c)) == TxAfter(front);
  }

  lemma StopAlone(a: Store, front: seq<Event>, e: Event, c: string)
    requires e.charger == c && e.body.Stop? && Hash(a, TxKey(c)) == TxAfter(front)
    ensures Hash(Apply(a, e), TxKey(c)) == map[]
    ensures Apply(a, e).sessions ==
            if front == [] || !front[|front| - 1].body.Start? || e.eventId in a.sessions then a.sessions
            else a.sessions[e.eventId := CdrOf(front[|front| - 1], e)]
  {
    var b := Remember(Lock(a, e.messageId), e);
    ApplyTx(a, e, c);
    StopEffect(b, e, TxAfter(front));
    if front != [] && front[|front| - 1].body.Start? {
      SessionIsCdr(front[|front| - 1], e);
    }
  }

  lemma RowsGrow(before: map<string, Session>, mid: map<string, Session>, rows: seq<Session>, r: Session)
    requires RowsAdded(before, mid, rows) && r.sessionId !in mid
    ensures RowsAdded(before, mid[r.sessionId := r], rows + [r])
  {
    var after := mid[r.sessionId := r];
    forall id | id in after && id !in before
      ensures exists i :: 0 <= i < |rows + [r]| && (rows + [r])[i].sessionId == id
    {
      if id == r.sessionId {
        assert (rows + [r])[|rows|].sessionId == id;
      } else {
        var i :| 0 <= i < |rows| && rows[i].sessionId == id;
        assert (rows + [r])[i].sessionId == id;
      }
    }
  }

  /** Run alone from a clean pairing record, a charger's Starts and Stops leave exactly the CDRs of
      its adjacent Start, Stop pairs: each event is used at most once, and an overwritten Start or
      an unmatched Stop leaves none. */
  lemma {:induction false} PairedAlone(s: Store, es: seq<Event>, c: string)
    requires TxEvents(es, c) && DistinctIds(es) && Hash(s, TxKey(c)) == map[]
    requires forall i :: 0 <= i < |es| ==> es[i].eventId !in s.sessions
    ensures Hash(ApplySeq(s, es), TxKey(c)) == TxAfter(es)
    ensures RowsAdded(s.sessions, ApplySeq(s, es).sessions, Cdrs(es))
  {
    if es != [] {
      var n := |es| - 1;
      var front, e := es[..n], es[n];
      PairedAlone(s, front, c);
      var a := ApplySeq(s, front);
      if e.body.Start? {
        StartAlone(a, front, e, c);
        assert Cdrs(es) == Cdrs(front);
      } else {
        StopAlone(a, front, e, c);
        NewId(s.sessions, es, a.sessions);
        if n > 0 && PairAt(es, n - 1) {
          RowsGrow(s.sessions, a.sessions, Cdrs(front), CdrOf(front[n - 1], e));
        } else {
          assert Cdrs(es) == Cdrs(front);
        }
      }
    }
  }

  // ---------------------------------------------------------------- every charger, in any gentle run

  /** A charger's Starts and Stops, each message once, in order. */
  ghost function Transactions(logs: Logs, s0: Store, c: string): seq<Event> {
    Fresh(s0.locks, LaneEvents(logs, Lane(TxTopic, c)))
  }

  /** No pairing record is left over and no CDR uses an event id of these logs. */
  ghost predicate CleanSlate(logs: Logs, s0: Store) {
    && (forall c :: TxKey(c) !in s0.hashes)
    && (forall p, i, e :: Holds(logs, p, i, e) ==> e.eventId !in s0.sessions)
  }

  lemma {:induction false} FreshDistinct(locks: set<string>, es: seq<Event>)
    ensures forall i, j :: 0 <= i < j < |Fresh(locks, es)| ==>
            Fresh(locks, es)[i].messageId != Fresh(locks, es)[j].messageId
    ensures forall e :: e in Fresh(locks, es) ==> e in es
  {
    if es != [] {
      FreshDistinct(locks, es[..|es| - 1]);
    }
  }

  lemma LaneEventLogged(logs: Logs, l: Lane, e: Event)
    requires Routed(logs) && e in LaneEvents(logs, l)
    ensures e.charger == l.charger && TopicOf(e.body) == l.topic && exists p, i :: Holds(logs, p, i, e)
  {
    var p := HomePart(logs, l);
    HomeTopic(logs, l);
    LaneLogMembers(logs[p], l.charger, e);
    var i :| 0 <= i < |logs[p]| && logs[p][i] == Rec(e);
    assert Holds(logs, p, i, e);
  }

  lemma TransactionsFit(logs: Logs, s0: Store, c: string)
    requires Routed(logs) && UniqueEventIds(logs) && CleanSlate(logs, s0)
    ensures var es := Transactions(logs, s0, c);
            TxEvents(es, c) && DistinctIds(es) && forall i :: 0 <= i < |es| ==> es[i].eventId !in s0.sessions
  {
    var l := Lane(TxTopic, c);
    var es := Transactions(logs, s0, c);
    FreshDistinct(s0.locks, LaneEvents(logs, l));
    forall i | 0 <= i < |es|
      ensures es[i].charger == c && (es[i].body.Start? || es[i].body.Stop?) && es[i].eventId !in s0.sessions
    {
      assert es[i] in es;
      LaneEventLogged(logs, l, es[i]);
    }
    forall i, j | 0 <= i < j < |es| ensures es[i].eventId != es[j].eventId {
      assert es[i] in es && es[j] in es;
      LaneEventLogged(logs, l, es[i]);
      LaneEventLogged(logs, l, es[j]);
    }
  }

  lemma NoSession(s: Store, e: Event)
    requires TopicOf(e.body) != TxTopic
    ensures Apply(s, e).sessions == s.sessions
  {
    var b := Remember(Lock(s, e.messageId), e);
    var d := Plan(e, b, false);
    if d.Write? {
      ExecAllSessions(b, d.cmds);
      NoRows(b.sessions, d.cmds);
    }
  }

  lemma {:induction false} NoSessions(s: Store, es: seq<Event>)
    requires forall e :: e in es ==> TopicOf(e.body) != TxTopic
    ensures ApplySeq(s, es).sessions == s.sessions
  {
    if es != [] {
      hide Apply;
      var front, e := es[..|es| - 1], es[|es| - 1];
      NoSessions(s, front);
      assert e in es;
      NoSession(ApplySeq(s, front), e);
    }
  }

  lemma SoloSessions(logs: Logs, s0: Store, l: Lane, id: string)
    requires Routed(logs) && UniqueEventIds(logs) && CleanSlate(logs, s0)
    ensures var after := HandleSeq(s0, LaneEvents(logs, l)).sessions;
            if l.topic == TxTopic then RowsAdded(s0.sessions, after, Cdrs(Transactions(logs, s0, l.charger)))
            else after == s0.sessions
  {
    var es := LaneEvents(logs, l);
    HandleSeqIsApplySeq(s0, es);
    FreshSubset(s0.locks, es);
    if l.topic == TxTopic {
      TransactionsFit(logs, s0, l.charger);
      PairedAlone(s0, Transactions(logs, s0, l.charger), l.charger);
    } else {
      forall e | e in Fresh(s0.locks, es) ensures TopicOf(e.body) != TxTopic {
        LaneEventLogged(logs, l, e);
      }
      NoSessions(s0, Fresh(s0.locks, es));
    }
  }

  ghost predicate IsCdr(logs: Logs, s0: Store, c: string, r: Session) {
    r in Cdrs(Transactions(logs, s0, c))
  }

  lemma CdrHome(logs: Logs, s0: Store, c: string, i: nat)
    requires Orderly(logs) && CleanLane(logs, Lane(TxTopic, c)) && i < |Cdrs(Transactions(logs, s0, c))|
    ensures EventLane(logs, Cdrs(Transactions(logs, s0, c))[i].sessionId) == Lane(TxTopic, c)
  {
    var l := Lane(TxTopic, c);
    var es := Transactions(logs, s0, c);
    var j := CdrIds(es, i);
    FreshSubset(s0.locks, LaneEvents(logs, l));
    assert es[j + 1] in es;
    LaneEventLogged(logs, l, es[j + 1]);
    var p, k :| Holds(logs, p, k, es[j + 1]);
    EventHome(logs, p, k, es[j + 1]);
  }

  /** CDR pairing, end to end over concurrency: after any gentle run the charge_sessions table holds
      its old rows and, for each charger whose transactions share no id with another lane, exactly the
      CDRs of the adjacent Start, Stop pairs of its transaction events. */
  lemma SessionsAreAdjacentPairs(logs: Logs, s0: Store, now: Nanos, ls: seq<Label>)
    requires Orderly(logs) && UniqueEventIds(logs) && CleanSlate(logs, s0)
    requires Gentle(logs, Init(s0, now), ls) && Drained(logs, Run(logs, Init(s0, now), ls))
    ensures var after := Run(logs, Init(s0, now), ls).store.sessions;
            && (forall id :: id in s0.sessions ==> id in after && after[id] == s0.sessions[id])
            && (forall c, r :: IsCdr(logs, s0, c, r) && CleanLane(logs, Lane(TxTopic, c)) ==>
                  r.sessionId in after && after[r.sessionId] == r)
            && (forall id :: id in after && id !in s0.sessions && CleanLane(logs, EventLane(logs, id)) ==>
                  exists c :: IsCdr(logs, s0, c, after[id]) && after[id].sessionId == id)
  {
    RunRetains(logs, Init(s0, now), ls);
    var end := Run(logs, Init(s0, now), ls).store;
    RunsAreMerges(logs, s0, now, ls);
    hide CleanLane, Run, Gentle, Drained;
    forall id | CleanLane(logs, EventLane(logs, id))
      ensures Look(end, Sess(id)) == Look(HandleSeq(s0, LaneEvents(logs, EventLane(logs, id))), Sess(id))
    {
      assert HomeOf(logs, Sess(id)) == Owned(EventLane(logs, id));
    }
    forall c, r | IsCdr(logs, s0, c, r) && CleanLane(logs, Lane(TxTopic, c))
      ensures r.sessionId in end.sessions && end.sessions[r.sessionId] == r
    {
      var rows := Cdrs(Transactions(logs, s0, c));
      var i :| 0 <= i < |rows| && rows[i] == r;
      CdrHome(logs, s0, c, i);
      SoloSessions(logs, s0, Lane(TxTopic, c), r.sessionId);
      assert Look(end, Sess(r.sessionId)) == Look(HandleSeq(s0, LaneEvents(logs, Lane(TxTopic, c))), Sess(r.sessionId));
    }
    forall id | id in end.sessions && id !in s0.sessions && CleanLane(logs, EventLane(logs, id))
      ensures exists c :: IsCdr(logs, s0, c, end.sessions[id]) && end.sessions[id].sessionId == id
    {
      var l := EventLane(logs, id);
      SoloSessions(logs, s0, l, id);
      assert Look(end, Sess(id)) == Look(HandleSeq(s0, LaneEvents(logs, l)), Sess(id));
      assert IsCdr(logs, s0, l.charger, end.sessions[id]);
    }
  }

  // ---------------------------------------------------------------- conservation

  function EnergySum(rows: seq<Session>): int {
    if rows == [] then 0 else EnergySum(rows[..|rows| - 1]) + rows[|rows| - 1].energyWh
  }

  function DurationSum(rows: seq<Session>): int {
    if rows == [] then 0 else DurationSum(rows[..|rows| - 1]) + rows[|rows| - 1].durationSec
  }

  function Reading(e: Event): int
    requires e.body.Start? || e.body.Stop?
  {
    if e.body.Start? then e.body.meterStart else e.body.meterStop
  }

  predicate Advancing(es: seq<Event>, c: string) {
    TxEvents(es, c)
    && forall i, j :: 0 <= i <= j < |es| ==> es[i].timestamp <= es[j].timestamp && Reading(es[i]) <= Reading(es[j])
  }

  lemma DurationIs(a: Nanos, b: Nanos)
    requires a <= b
    ensures TruncSec(b - FloorSec(a) * SECOND) == FloorSec(b) - FloorSec(a)
    ensures FloorSec(FloorSec(a) * SECOND) == FloorSec(a) <= FloorSec(b)
  {
  }

  /** Meter readings and clock advancing, no energy is counted twice and no time either: the clamp
      at zero never fires, the CDRs of a charger add up to at most what its meter and its clock
      moved, and each duration is the difference of the floored seconds. */
  lemma {:induction false} Conserved(es: seq<Event>, c: string)
    requires Advancing(es, c) && es != []
    ensures forall i :: 0 <= i < |Cdrs(es)| ==> Cdrs(es)[i].energyWh == Cdrs(es)[i].meterStop - Cdrs(es)[i].meterStart
    ensures forall i :: 0 <= i < |Cdrs(es)| ==>
              Cdrs(es)[i].durationSec == FloorSec(Cdrs(es)[i].endTime) - FloorSec(Cdrs(es)[i].startTime)
    ensures 0 <= EnergySum(Cdrs(es)) <= Reading(es[|es| - 1]) - Reading(es[0])
    ensures 0 <= DurationSum(Cdrs(es)) <= FloorSec(es[|es| - 1].timestamp) - FloorSec(es[0].timestamp)
  {
    var n := |es| - 1;
    if n > 0 {
      var front := es[..n];
      Conserved(front, c);
      assert Advancing(front, c) && front[n - 1] == es[n - 1] && front[0] == es[0];
      assert Reading(es[n - 1]) <= Reading(es[n]) && es[n - 1].timestamp <= es[n].timestamp;
      if PairAt(es, n - 1) {
        var r := CdrOf(es[n - 1], es[n]);
        assert Cdrs(es)[..|Cdrs(es)| - 1] == Cdrs(front);
        DurationIs(es[n - 1].timestamp, es[n].timestamp);
      } else {
        assert Cdrs(es) == Cdrs(front);
      }
    }
  }
}
