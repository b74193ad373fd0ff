/** The pairing record of a charger and the "active transaction" flags of its connectors. */
module Coupling {
  import opened Domain
  import opened Store
  import opened Handler
  import opened Machine
  import opened Ownership
  import opened Interleaving
  import opened Confluence
  import opened Sequential
  import opened Cdr
  import opened Dedup
  import opened Delivery

  predicate Active(s: Store, c: string, n: int) {
    Get(s, ConnKey(c, n), ActiveTransaction) == Some(Text("true"))
  }

  /** The connector a pairing record names. */
  function Named(tx: map<Field, Val>): int {
    ScanInt(FieldOr(tx, ConnectorId, Text("")))
  }

  /** The gateway reads the event's connector id from the same payload field as the processor. */
  predicate SameConnector(e: Event) {
    e.body.Start? ==> e.connector == e.body.connector
  }

  // ---------------------------------------------------------------- between messages: an equivalence

  /** No Start overlaps another: each is followed by a Stop before the next. */
  predicate NoOverlap(es: seq<Event>) {
    forall i :: 0 <= i && i + 1 < |es| ==> !(es[i].body.Start? && es[i + 1].body.Start?)
  }

  predicate RealConnectors(es: seq<Event>) {
    forall i :: 0 <= i < |es| ==> SameConnector(es[i]) && (es[i].body.Start? ==> es[i].body.connector > 0)
  }

  lemma StartActivates(a: Store, e: Event, c: string, n: int)
    requires e.charger == c && e.body.Start?
    ensures Active(Apply(a, e), c, n) <==> n == e.connector || Active(a, c, n)
  {
    var b := Remember(Lock(a, e.messageId), e);
    ApplyTx(a, e, c);
    StartFlags(b, e, n);
    assert Hash(b, ConnKey(c, n)) == Hash(a, ConnKey(c, n));
  }

  lemma StopDeactivates(a: Store, e: Event, c: string, n: int)
    requires e.charger == c && e.body.Stop? && ProperTx(Hash(a, TxKey(c)))
    ensures Active(Apply(a, e), c, n) <==> n != Cleared(e, Hash(a, TxKey(c))) && Active(a, c, n)
  {
    var b := Remember(Lock(a, e.messageId), e);
    ApplyTx(a, e, c);
    StopFlags(b, e, Hash(a, TxKey(c)), n);
    assert Hash(b, ConnKey(c, n)) == Hash(a, ConnKey(c, n));
  }

  /** The charger's last event is a Start of connector n. */
  predicate EndsInStartOf(es: seq<Event>, n: int) {
    es != [] && es[|es| - 1].body.Start? && es[|es| - 1].body.connector == n
  }

  lemma TxNames(es: seq<Event>, n: int)
    ensures ProperTx(TxAfter(es))
    ensures TxAfter(es) != map[] && Named(TxAfter(es)) == n <==> EndsInStartOf(es, n)
  {
    if es != [] && es[|es| - 1].body.Start? {
      assert StartTime in TxAfter(es);
    }
  }

  lemma {:induction false} ActiveIffStarted(s: Store, es: seq<Event>, c: string, n: int)
    requires TxEvents(es, c) && NoOverlap(es) && RealConnectors(es) && DistinctIds(es)
    requires Hash(s, TxKey(c)) == map[] && forall i :: 0 <= i < |es| ==> es[i].eventId !in s.sessions
    requires forall k :: !Active(s, c, k)
    ensures Active(ApplySeq(s, es), c, n) <==> EndsInStartOf(es, n)
  {
    if es != [] {
      var k := |es| - 1;
      var front, e := es[..k], es[k];
      ActiveIffStarted(s, front, c, n);
      PairedAlone(s, front, c);
      TxNames(front, n);
      if e.body.Start? {
        StartActivates(ApplySeq(s, front), e, c, n);
        assert SameConnector(e);
        assert k > 0 ==> !es[k - 1].body.Start?;
      } else {
        StopDeactivates(ApplySeq(s, front), e, c, n);
        if EndsInStartOf(front, n) {
          assert es[k - 1].body.connector > 0;
          assert Cleared(e, TxAfter(front)) == n;
        }
      }
    }
  }

  /** On a sequence without overlapping Starts a connector is active exactly when the pairing
      record exists and names it; so at most one connector of a charger is active. */
  lemma ActiveIffNamed(s: Store, es: seq<Event>, c: string, n: int)
    requires TxEvents(es, c) && NoOverlap(es) && RealConnectors(es) && DistinctIds(es)
    requires Hash(s, TxKey(c)) == map[] && forall i :: 0 <= i < |es| ==> es[i].eventId !in s.sessions
    requires forall k :: !Active(s, c, k)
    ensures var tx := Hash(ApplySeq(s, es), TxKey(c));
            Active(ApplySeq(s, es), c, n) <==> tx != map[] && Named(tx) == n
  {
    PairedAlone(s, es, c);
    ActiveIffStarted(s, es, c, n);
    TxNames(es, n);
  }

  lemma TxAgrees(logs: Logs, a: Store, b: Store, c: string, n: int)
    requires SameData(logs, a, b, Lane(TxTopic, c)) && CleanLane(logs, Lane(TxTopic, c))
    ensures Hash(a, TxKey(c)) == Hash(b, TxKey(c)) && (Active(a, c, n) <==> Active(b, c, n))
  {
    forall f ensures f in Hash(a, TxKey(c)) <==> f in Hash(b, TxKey(c))
             ensures f in Hash(a, TxKey(c)) && f in Hash(b, TxKey(c)) ==> Hash(a, TxKey(c))[f] == Hash(b, TxKey(c))[f]
    {
      assert HomeOf(logs, H(TxKey(c), f)) == Owned(Lane(TxTopic, c));
      assert Look(a, H(TxKey(c), f)) == Look(b, H(TxKey(c), f));
    }
    var x := H(ConnKey(c, n), ActiveTransaction);
    assert HomeOf(logs, x) == Owned(Lane(TxTopic, c));
    assert Look(a, x) == Look(b, x);
  }

  /** The same after any gentle concurrent run, for a charger whose transactions share no id with another
      lane. */
  lemma OneActiveConnector(logs: Logs, s0: Store, now: Nanos, ls: seq<Label>, c: string, n: int)
    requires Orderly(logs) && CleanLane(logs, Lane(TxTopic, c)) && UniqueEventIds(logs) && CleanSlate(logs, s0)
    requires Gentle(logs, Init(s0, now), ls) && Drained(logs, Run(logs, Init(s0, now), ls))
    requires NoOverlap(Transactions(logs, s0, c)) && RealConnectors(Transactions(logs, s0, c))
    requires forall k :: !Active(s0, c, k)
    ensures var end := Run(logs, Init(s0, now), ls).store; var tx := Hash(end, TxKey(c));
            Active(end, c, n) <==> tx != map[] && Named(tx) == n
  {
    var l := Lane(TxTopic, c);
    var end := Run(logs, Init(s0, now), ls).store;
    var solo := HandleSeq(s0, LaneEvents(logs, l));
    RunsAreMerges(logs, s0, now, ls);
    HandleSeqIsApplySeq(s0, LaneEvents(logs, l));
    TransactionsFit(logs, s0, c);
    ActiveIffNamed(s0, Transactions(logs, s0, c), c, n);
    TxAgrees(logs, end, solo, c, n);
  }

  // ---------------------------------------------------------------- every reachable state

  /** A pairing record that names a connector whose flag is on, or no record. */
  predicate Coupled(s: Store, c: string) {
    Hash(s, TxKey(c)) == map[] || Active(s, c, Named(Hash(s, TxKey(c))))
  }

  /** The transactions reader has cleared the flag of a Stop and is about to delete the record. */
  predicate AboutToDelete(ph: Phase, c: string) {
    ph.Writing? && ph.cmds != [] && ph.cmds[0] == Del(TxKey(c))
  }

  /** A whole pairing record, or none. */
  predicate Whole(tx: map<Field, Val>) {
    tx == map[] || (tx.Keys == {StartTime, MeterStart, IdTag, ConnectorId} && tx[StartTime].Stamp?)
  }

  predicate StartFrom(s: Store, e: Event, cmds: seq<Cmd>, k: nat) {
    && e.body.Start? && k < |StartCmds(e)| && cmds == StartCmds(e)[k..]
    && (k >= 1 ==> Active(s, e.charger, e.connector))
  }

  predicate StopFrom(s: Store, e: Event, tx: map<Field, Val>, cmds: seq<Cmd>, k: nat) {
    var now := Hash(s, TxKey(e.charger));
    && e.body.Stop? && Whole(tx) && k < |StopCmds(e, tx)| && cmds == StopCmds(e, tx)[k..]
    && (now == map[] || (now == tx && k <= 2))
    && (k == 2 && tx != map[] ==> !Active(s, e.charger, Cleared(e, tx)))
  }

  /** Where the transactions reader stands, and what it has done so far. */
  ghost predicate TxPhase(s: Store, ph: Phase) {
    && (Busy(ph) ==> (ph.event.body.Start? || ph.event.body.Stop?) && SameConnector(ph.event))
    && (ph.Writing? ==>
          || (exists k: nat :: StartFrom(s, ph.event, ph.cmds, k))
          || (exists tx, k: nat :: StopFrom(s, ph.event, tx, ph.cmds, k)))
  }

  ghost predicate ChargerOk(s: Store, ph: Phase, c: string) {
    && Whole(Hash(s, TxKey(c)))
    && (Coupled(s, c) || AboutToDelete(ph, c))
    && (AboutToDelete(ph, c) && Named(Hash(s, TxKey(c))) > 0 ==> !Coupled(s, c))
  }

  ghost predicate TxOk(s: Store, ph: Phase) {
    TxPhase(s, ph) && forall c :: ChargerOk(s, ph, c)
  }

  /** What a command does to the hashes. */
  ghost predicate HashStep(s: Store, s': Store, cmd: Cmd) {
    forall k :: Hash(s', k) == if cmd.HSet? && cmd.key == k then Hash(s, k) + cmd.fields
                               else if cmd.Del? && cmd.key == k then map[]
                               else Hash(s, k)
  }

  lemma ExecHashStep(s: Store, cmd: Cmd)
    ensures HashStep(s, Exec(s, cmd), cmd)
  {
  }

  /** A command that touches neither pairing records nor active flags. */
  predicate Neutral(cmd: Cmd) {
    && (cmd.HSet? ==> !cmd.key.TxKey? && (cmd.key.ConnKey? ==> ActiveTransaction !in cmd.fields))
    && !cmd.Del?
  }

  lemma NeutralMoves(s: Store, s': Store, cmd: Cmd, ph: Phase, ph': Phase, c: string)
    requires HashStep(s, s', cmd) && Neutral(cmd) && ChargerOk(s, ph, c)
    requires !AboutToDelete(ph, c) && !AboutToDelete(ph', c)
    ensures ChargerOk(s', ph', c) && Hash(s', TxKey(c)) == Hash(s, TxKey(c))
    ensures forall n :: Active(s', c, n) <==> Active(s, c, n)
  {
    forall n ensures Active(s', c, n) <==> Active(s, c, n) {
      assert Hash(s', ConnKey(c, n)) == if cmd.HSet?
          && cmd.key == ConnKey(c, n) then Hash(s, ConnKey(c, n)) + cmd.fields
                                        else Hash(s, ConnKey(c, n));
    }
  }

  lemma FlagMoves(s: Store, s': Store, d: string, m: int, fields: map<Field, Val>, c: string, n: int)
    requires HashStep(s, s', HSet(ConnKey(d, m), fields)) && ActiveTransaction in fields
    ensures Hash(s', TxKey(c)) == Hash(s, TxKey(c))
    ensures Active(s', c, n) <==>
              if c == d && n == m then fields[ActiveTransaction] == Text("true") else Active(s, c, n)
  {
    assert Hash(s', ConnKey(c, n)) == if c == d
        && n == m then Hash(s, ConnKey(c, n)) + fields else Hash(s, ConnKey(c, n));
  }

  lemma TxKeyMoves(s: Store, s': Store, cmd: Cmd, c: string)
    requires HashStep(s, s', cmd) && (cmd.HSet? || cmd.Del?) && cmd.key.TxKey?
    ensures Hash(s', TxKey(c)) == if cmd.key != TxKey(c) then Hash(s, TxKey(c))
                                  else if cmd.HSet? then Hash(s, TxKey(c)) + cmd.fields else map[]
    ensures forall n :: Active(s', c, n) <==> Active(s, c, n)
  {
    forall n ensures Active(s', c, n) <==> Active(s, c, n) {
      assert Hash(s', ConnKey(c, n)) == Hash(s, ConnKey(c, n));
    }
  }

  lemma WholeOverwritten(tx: map<Field, Val>, e: Event)
    requires Whole(tx) && e.body.Start?
    ensures tx + TxFields(e) == TxFields(e) && Whole(TxFields(e)) && Named(TxFields(e)) == e.body.connector
  {
  }

  lemma ExecActive(s: Store, s': Store, cmd: Cmd, c: string, n: int)
    requires HashStep(s, s', cmd) && Neutral(cmd)
    ensures Active(s', c, n) <==> Active(s, c, n)
    ensures Hash(s', TxKey(c)) == Hash(s, TxKey(c))
  {
    assert Hash(s', ConnKey(c, n)) == if cmd.HSet? && cmd.key == ConnKey(c, n) then Hash(s, ConnKey(c, n)) + cmd.fields
                                      else Hash(s, ConnKey(c, n));
  }

  lemma StartMoves(s: Store, s': Store, e: Event, k: nat, c: string)
    requires e.body.Start? && k < 6 && SameConnector(e) && HashStep(s, s', StartCmds(e)[k])
    requires StartFrom(s, e, StartCmds(e)[k..], k) && ChargerOk(s, Writing(e, StartCmds(e)[k..]), c)
    ensures ChargerOk(s', Continue(e, StartCmds(e)[k + 1..]), c) && Active(s', e.charger, e.connector)
  {
    var cmds := StartCmds(e);
    var ph, ph' := Writing(e, cmds[k..]), Continue(e, cmds[k + 1..]);
    assert !AboutToDelete(ph, c) && !AboutToDelete(ph', c);
    if k == 0 {
      FlagMoves(s, s', e.charger, e.connector, cmds[0].fields, c, Named(Hash(s, TxKey(c))));
      FlagMoves(s, s', e.charger, e.connector, cmds[0].fields, e.charger, e.connector);
    } else if k == 2 {
      TxKeyMoves(s, s', cmds[2], c);
      TxKeyMoves(s, s', cmds[2], e.charger);
      WholeOverwritten(Hash(s, TxKey(c)), e);
    } else {
      assert Neutral(cmds[k]);
      NeutralMoves(s, s', cmds[k], ph, ph', c);
      ExecActive(s, s', cmds[k], e.charger, e.connector);
    }
  }

  lemma StopShape(e: Event, tx: map<Field, Val>)
    requires e.body.Stop? && Whole(tx)
    ensures var cmds := StopCmds(e, tx); var flag := HSet(ConnKey(e.charger, Cleared(e, tx)), OFF);
            if tx == map[] then |cmds| == 3 && cmds[0] == flag && Neutral(cmds[1]) && Neutral(cmds[2])
            else |cmds| == 5 && Neutral(cmds[0]) && cmds[1] == flag && cmds[2] == Del(TxKey(e.charger))
                 && Neutral(cmds[3]) && Neutral(cmds[4])
  {
    if tx != map[] {
      assert StartTime in tx;
    }
  }

  lemma StopMoves(s: Store, s': Store, e: Event, tx: map<Field, Val>, k: nat, c: string)
    requires e.body.Stop? && k < |StopCmds(e, tx)| && HashStep(s, s', StopCmds(e, tx)[k])
    requires StopFrom(s, e, tx, StopCmds(e, tx)[k..], k) && ChargerOk(s, Writing(e, StopCmds(e, tx)[k..]), c)
    ensures ChargerOk(s', Continue(e, StopCmds(e, tx)[k + 1..]), c)
  {
    var cmds := StopCmds(e, tx);
    var ph, ph' := Writing(e, cmds[k..]), Continue(e, cmds[k + 1..]);
    StopShape(e, tx);
    if cmds[k] == HSet(ConnKey(e.charger, Cleared(e, tx)), OFF) {
      assert k == if tx == map[] then 0 else 1;
      FlagMoves(s, s', e.charger, Cleared(e, tx), OFF, c, Named(Hash(s, TxKey(c))));
    } else if cmds[k].Del? {
      TxKeyMoves(s, s', cmds[k], c);
    } else {
      NeutralMoves(s, s', cmds[k], ph, ph', c);
    }
  }

  /** How far a Stop has got, after one more of its commands. */
  lemma StopAdvances(s: Store, s': Store, e: Event, tx: map<Field, Val>, k: nat)
    requires e.body.Stop? && k + 1 < |StopCmds(e, tx)| && HashStep(s, s', StopCmds(e, tx)[k])
    requires StopFrom(s, e, tx, StopCmds(e, tx)[k..], k)
    ensures StopFrom(s', e, tx, StopCmds(e, tx)[k + 1..], k + 1)
  {
    var cmds := StopCmds(e, tx);
    StopShape(e, tx);
    if cmds[k] == HSet(ConnKey(e.charger, Cleared(e, tx)), OFF) {
      FlagMoves(s, s', e.charger, Cleared(e, tx), OFF, e.charger, Cleared(e, tx));
    } else if cmds[k].Del? {
      TxKeyMoves(s, s', cmds[k], e.charger);
    } else {
      ExecActive(s, s', cmds[k], e.charger, Cleared(e, tx));
    }
  }

  lemma TxPlan(s: Store, e: Event)
    requires TxOk(s, AtUpdate(e))
    ensures TxOk(s, Step(AtUpdate(e), s, Works).0)
  {
    var ph := Step(AtUpdate(e), s, Works).0;
    if e.body.Start? {
      assert ph == Writing(e, StartCmds(e)) && StartCmds(e)[0..] == StartCmds(e);
      assert StartFrom(s, e, StartCmds(e), 0);
    } else {
      var tx := Hash(s, TxKey(e.charger));
      assert ChargerOk(s, AtUpdate(e), e.charger);
      assert ph == Writing(e, StopCmds(e, tx)) && StopCmds(e, tx)[0..] == StopCmds(e, tx);
      assert StopFrom(s, e, tx, StopCmds(e, tx), 0);
    }
    forall c ensures ChargerOk(s, ph, c) {
      assert ChargerOk(s, AtUpdate(e), c);
      assert !ph.cmds[0].Del?;
    }
  }

  lemma StartWrite(s: Store, e: Event, cmds: seq<Cmd>, k: nat)
    requires TxOk(s, Writing(e, cmds)) && StartFrom(s, e, cmds, k)
    ensures TxOk(Exec(s, cmds[0]), Continue(e, cmds[1..]))
  {
    var s', ph' := Exec(s, cmds[0]), Continue(e, cmds[1..]);
    ExecHashStep(s, cmds[0]);
    assert cmds[1..] == StartCmds(e)[k + 1..];
    forall c ensures ChargerOk(s', ph', c) && Active(s', e.charger, e.connector) {
      assert ChargerOk(s, Writing(e, cmds), c);
      StartMoves(s, s', e, k, c);
    }
    assert Active(s', e.charger, e.connector) by { assert ChargerOk(s', ph', e.charger); }
    assert ph'.Writing? ==> StartFrom(s', e, ph'.cmds, k + 1);
  }

  lemma StopWrite(s: Store, e: Event, tx: map<Field, Val>, cmds: seq<Cmd>, k: nat)
    requires TxOk(s, Writing(e, cmds)) && StopFrom(s, e, tx, cmds, k)
    ensures TxOk(Exec(s, cmds[0]), Continue(e, cmds[1..]))
  {
    var s', ph' := Exec(s, cmds[0]), Continue(e, cmds[1..]);
    ExecHashStep(s, cmds[0]);
    assert cmds[1..] == StopCmds(e, tx)[k + 1..];
    forall c ensures ChargerOk(s', ph', c) {
      assert ChargerOk(s, Writing(e, cmds), c);
      StopMoves(s, s', e, tx, k, c);
    }
    if ph'.Writing? {
      StopAdvances(s, s', e, tx, k);
      assert StopFrom(s', e, tx, ph'.cmds, k + 1);
    }
  }

  lemma TxWrite(s: Store, e: Event, cmds: seq<Cmd>)
    requires TxOk(s, Writing(e, cmds)) && cmds != []
    ensures TxOk(Exec(s, cmds[0]), Continue(e, cmds[1..]))
  {
    if k: nat :| StartFrom(s, e, cmds, k) {
      StartWrite(s, e, cmds, k);
    } else {
      var tx, k: nat :| StopFrom(s, e, tx, cmds, k);
      StopWrite(s, e, tx, cmds, k);
    }
  }

  lemma SameTx(s: Store, s': Store, ph: Phase, ph': Phase)
    requires TxOk(s, ph)
    requires forall c :: Hash(s', TxKey(c)) == Hash(s, TxKey(c))
    requires forall c, n :: Active(s', c, n) <==> Active(s, c, n)
    requires ph' == ph || (!ph.Writing? && !ph'.Writing? && (Busy(ph') ==> Busy(ph) && ph'.event == ph.event))
             || (ph.Writing? && ph.cmds == [] && !Busy(ph'))
    ensures TxOk(s', ph')
  {
    if ph'.Writing? {
      if k: nat :| StartFrom(s, ph.event, ph.cmds, k) {
        assert StartFrom(s', ph.event, ph.cmds, k);
      } else {
        var tx, k: nat :| StopFrom(s, ph.event, tx, ph.cmds, k);
        assert StopFrom(s', ph.event, tx, ph.cmds, k);
      }
    }
    forall c ensures ChargerOk(s', ph', c) {
      assert ChargerOk(s, ph, c);
    }
  }

  lemma TxReaderSteps(s: Store, ph: Phase)
    requires TxOk(s, ph) && Busy(ph)
    ensures TxOk(Step(ph, s, Works).1, Step(ph, s, Works).0)
  {
    match ph
    case AtUpdate(e) => TxPlan(s, e);
    case Writing(e, cmds) =>
      if cmds != [] {
        TxWrite(s, e, cmds);
      }
    case _ => SameTx(s, Step(ph, s, Works).1, ph, Step(ph, s, Works).0);
  }

  /** The command, if it writes a hash, keeps to the hashes of the lane. */
  ghost predicate HashIn(l: Lane, cmd: Cmd) {
    cmd.HSet? || cmd.Del? ==> CmdIn(map[], l, cmd)
  }

  ghost predicate HashesIn(l: Lane, cmds: seq<Cmd>) {
    forall i :: 0 <= i < |cmds| ==> HashIn(l, cmds[i])
  }

  lemma StopHashes(e: Event, tx: map<Field, Val>)
    requires e.body.Stop?
    ensures HashesIn(LaneOf(e), StopCmds(e, tx))
  {
    var named := ScanInt(FieldOr(tx, ConnectorId, Text("")));
    StopWritesIn(map[], LaneOf(e), e, if named > 0 then named else e.connector);
    hide SessionOf, CmdIn, LastSeenOf;
  }

  lemma PlanHashes(e: Event, s: Store, readFails: bool)
    ensures var d := Plan(e, s, readFails); d.Write? ==> HashesIn(LaneOf(e), d.cmds)
  {
    hide StopCmds, StartCmds, ConnCmds, Stale, CmdIn, StatusFields, MeterFields, BootFields, SeenOnline, LastSeenOf;
    match e.body
    case Boot(_, _, _, _) => ChargerCmdIn(map[], LaneOf(e), e, BootFields(e));
    case Heartbeat => ChargerCmdIn(map[], LaneOf(e), e, SeenOnline(e));
    case Status(n, _, _, _) => StatusCmdsIn(map[], LaneOf(e), e, n);
    case Meter(n, readings) =>
      if readings != [] {
        MeterCmdsIn(map[], LaneOf(e), e, n);
      }
    case Start(_, _, _) => StartCmdsIn(map[], LaneOf(e), e);
    case Stop(_, _, _) => StopHashes(e, if readFails then map[] else Hash(s, TxKey(e.charger)));
    case _ =>
  }

  /** Each reader works on events of its topic and keeps to the hashes of their lanes. */
  ghost predicate ReaderKeeps(s: State, t: Topic) {
    var ph := PhaseOf(s, t);
    Busy(ph) ==> TopicOf(ph.event.body) == t && (ph.Writing? ==> HashesIn(LaneOf(ph.event), ph.cmds))
  }

  lemma StepKeeps(ph: Phase, s: Store, fault: Fault)
    requires Busy(ph) && (ph.Writing? ==> HashesIn(LaneOf(ph.event), ph.cmds))
    ensures var ph' := Step(ph, s, fault).0;
            (ph'.Idle? || ph'.event == ph.event) && (ph'.Writing? ==> HashesIn(LaneOf(ph'.event), ph'.cmds))
  {
    hide HashIn, Plan;
    if ph.AtUpdate? {
      PlanHashes(ph.event, s, !fault.Works? && Reads(ph.event.body));
    }
  }

  lemma ReaderKeepsOn(logs: Logs, s: State, lb: Label, t: Topic)
    requires Routed(logs) && ReaderKeeps(s, t)
    ensures ReaderKeeps(Next(logs, s, lb), t)
  {
    hide Next, HashIn;
    NextPhase(logs, s, lb, t);
    if lb.Do? && Busy(PhaseOf(s, t)) {
      StepKeeps(PhaseOf(s, t), s.store, lb.fault);
    }
    hide Step;
    if lb.Fetch? && Available(logs, s, lb.part) && logs[lb.part][Position(s, lb.part)].Rec? {
      assert Holds(logs, lb.part, Position(s, lb.part), logs[lb.part][Position(s, lb.part)].event);
    }
  }

  lemma TxCells(l: Lane, x: Cell, after: Option<Content>)
    requires l.topic != TxTopic && x.H? && (x.key.TxKey? || (x.key.ConnKey? && x.field == ActiveTransaction))
    ensures !MayTouch(map[], l, x, after)
  {
    assert forall k :: CleanLane(map[], k);
    hide CleanLane;
  }

  /** Readers of other topics leave the pairing records and the flags alone. */
  lemma OtherCells(ph: Phase, s: Store, fault: Fault, x: Cell)
    requires Busy(ph) && TopicOf(ph.event.body) != TxTopic && (ph.Writing? ==> HashesIn(LaneOf(ph.event), ph.cmds))
    requires x.H? && (x.key.TxKey? || (x.key.ConnKey? && x.field == ActiveTransaction))
    ensures Look(Step(ph, s, fault).1, x) == Look(s, x)
  {
    hide Plan;
    if ph.Writing? && ph.cmds != [] && !fault.Refused? {
      var cmd := ph.cmds[0];
      assert HashIn(LaneOf(ph.event), cmd);
      if cmd.HSet? || cmd.Del? {
        ExecTouches(map[], LaneOf(ph.event), cmd, s, x);
        TxCells(LaneOf(ph.event), x, Look(Exec(s, cmd), x));
      } else {
        ExecLook(s, cmd, x);
      }
    }
  }

  lemma OtherReaderSteps(ph: Phase, s: Store, fault: Fault, tx: Phase)
    requires Busy(ph) && TopicOf(ph.event.body) != TxTopic && (ph.Writing? ==> HashesIn(LaneOf(ph.event), ph.cmds))
    requires TxOk(s, tx)
    ensures TxOk(Step(ph, s, fault).1, tx)
  {
    hide Step, HashesIn;
    var s' := Step(ph, s, fault).1;
    forall c ensures Hash(s', TxKey(c)) == Hash(s, TxKey(c)) {
      forall f ensures Look(s', H(TxKey(c), f)) == Look(s, H(TxKey(c), f)) {
        OtherCells(ph, s, fault, H(TxKey(c), f));
      }
      forall f ensures f in Hash(s', TxKey(c)) <==> f in Hash(s, TxKey(c))
               ensures f in Hash(s, TxKey(c)) && f in Hash(s', TxKey(c)) ==>
                       Hash(s', TxKey(c))[f] == Hash(s, TxKey(c))[f]
      {
        assert Look(s', H(TxKey(c), f)) == Look(s, H(TxKey(c), f));
      }
    }
    forall c, n ensures Active(s', c, n) <==> Active(s, c, n) {
      OtherCells(ph, s, fault, H(ConnKey(c, n), ActiveTransaction));
      assert Look(s', H(ConnKey(c, n), ActiveTransaction)) == Look(s, H(ConnKey(c, n), ActiveTransaction));
    }
    SameTx(s, s', tx, tx);
  }

  // ---------------------------------------------------------------- runs

  /** No transaction handler is cut short. Everything else may fail, crash or expire. */
  ghost predicate SparesTx(s: State, lb: Label) {
    (lb.Do? && lb.topic == TxTopic ==> lb.fault.Works?) && (lb.Crash? ==> !Busy(PhaseOf(s, TxTopic)))
  }

  ghost predicate AllSpareTx(logs: Logs, s: State, ls: seq<Label>) {
    ls == [] || (var before := ls[..|ls| - 1];
                 AllSpareTx(logs, s, before) && SparesTx(Run(logs, s, before), ls[|ls| - 1]))
  }

  ghost predicate ConnectorsMatch(logs: Logs) {
    forall p, i, e :: Holds(logs, p, i, e) ==> SameConnector(e)
  }

  ghost predicate CouplingInv(s: State) {
    && (forall t :: ReaderKeeps(s, t))
    && (forall k :: k in s.ttl ==> !k.ConnKey?)
    && (forall t :: ReaderTxLifetimes(s, t))
    && TxOk(s.store, PhaseOf(s, TxTopic))
  }

  lemma PurgedTx(s: State, d: nat)
    requires TxOk(s.store, PhaseOf(s, TxTopic)) && forall k :: k in s.ttl ==> !k.ConnKey?
    ensures TxOk(TickStep(s, d).store, PhaseOf(s, TxTopic))
  {
    var s', ph := TickStep(s, d).store, PhaseOf(s, TxTopic);
    forall c ensures Hash(s', TxKey(c)) == Hash(s.store, TxKey(c)) || Hash(s', TxKey(c)) == map[] {
    }
    forall c, n ensures Active(s', c, n) <==> Active(s.store, c, n) {
      assert ConnKey(c, n) !in s.ttl;
    }
    if ph.Writing? {
      if k: nat :| StartFrom(s.store, ph.event, ph.cmds, k) {
        assert StartFrom(s', ph.event, ph.cmds, k);
      } else {
        var tx, k: nat :| StopFrom(s.store, ph.event, tx, ph.cmds, k);
        assert StopFrom(s', ph.event, tx, ph.cmds, k);
      }
    }
    forall c ensures ChargerOk(s', ph, c) {
      assert ChargerOk(s.store, ph, c);
    }
  }

  lemma FetchTx(logs: Logs, s: State, p: Part)
    requires Routed(logs) && ConnectorsMatch(logs) && TxOk(s.store, PhaseOf(s, TxTopic))
    requires Available(logs, s, p) && PhaseOf(s, p.topic).Idle?
    ensures TxOk(s.store, PhaseOf(FetchStep(logs, s, p), TxTopic))
  {
    var i := Position(s, p);
    var ph, ph' := PhaseOf(s, TxTopic), PhaseOf(FetchStep(logs, s, p), TxTopic);
    if p.topic == TxTopic && logs[p][i].Rec? {
      assert Holds(logs, p, i, logs[p][i].event);
    }
    forall c ensures ChargerOk(s.store, ph', c) {
      assert ChargerOk(s.store, ph, c);
    }
  }

  lemma StoreKept(logs: Logs, s: State, lb: Label)
    requires Routed(logs) && ConnectorsMatch(logs) && CouplingInv(s) && SparesTx(s, lb)
    ensures TxOk(Next(logs, s, lb).store, PhaseOf(Next(logs, s, lb), TxTopic))
  {
    if Enabled(logs, s, lb) {
      match lb
      case Do(t, fault) =>
        assert ReaderKeeps(s, t);
        if t == TxTopic {
          TxReaderSteps(s.store, PhaseOf(s, t));
        } else {
          OtherReaderSteps(PhaseOf(s, t), s.store, fault, PhaseOf(s, TxTopic));
        }
      case Fetch(p) => FetchTx(logs, s, p);
      case Tick(d) => PurgedTx(s, d);
      case Commit(t, ok) => SameTx(s.store, s.store, PhaseOf(s, TxTopic), PhaseOf(CommitStep(s, t, ok), TxTopic));
      case Crash => SameTx(s.store, s.store, PhaseOf(s, TxTopic), Idle);
    }
  }

  lemma LifetimesKept(logs: Logs, s: State, lb: Label)
    requires (forall t :: ReaderTxLifetimes(s, t)) && (forall k :: k in s.ttl ==> !k.ConnKey?)
    ensures forall t :: ReaderTxLifetimes(Next(logs, s, lb), t)
    ensures forall k :: k in Next(logs, s, lb).ttl ==> !k.ConnKey?
  {
    var s' := Next(logs, s, lb);
    forall t ensures ReaderTxLifetimes(s', t) {
      assert ReaderTxLifetimes(s, t);
      NextPhase(logs, s, lb, t);
      if lb.Do? {
        StepLifetimes(PhaseOf(s, t), s.store, lb.fault);
      }
    }
    if lb.Do? && Enabled(logs, s, lb) {
      var ph := PhaseOf(s, lb.topic);
      assert ReaderTxLifetimes(s, lb.topic);
      if ph.Writing? && ph.cmds != [] {
        assert ph.cmds[0] in ph.cmds;
      }
    }
  }

  /** Transaction coupling in every reachable state in which no transaction handler was cut short:
      a pairing record names a connector whose flag is on, except exactly in the one window inside
      a Stop between clearing the flag and deleting the record. */
  lemma {:induction false} ReachablyCoupled(logs: Logs, now: Nanos, ls: seq<Label>)
    requires Routed(logs) && ConnectorsMatch(logs) && AllSpareTx(logs, Init(EMPTY, now), ls)
    ensures var s := Run(logs, Init(EMPTY, now), ls);
            && CouplingInv(s)
            && forall c :: Coupled(s.store, c) || AboutToDelete(PhaseOf(s, TxTopic), c)
    ensures var s := Run(logs, Init(EMPTY, now), ls);
            forall c :: Named(Hash(s.store, TxKey(c))) > 0 ==>
              (Coupled(s.store, c) <==> !AboutToDelete(PhaseOf(s, TxTopic), c))
    decreases |ls|
  {
    var s := Run(logs, Init(EMPTY, now), ls);
    if ls != [] {
      var before := Run(logs, Init(EMPTY, now), ls[..|ls| - 1]);
      ReachablyCoupled(logs, now, ls[..|ls| - 1]);
      StoreKept(logs, before, ls[|ls| - 1]);
      LifetimesKept(logs, before, ls[|ls| - 1]);
      forall t ensures ReaderKeeps(s, t) {
        assert ReaderKeeps(before, t);
        ReaderKeepsOn(logs, before, ls[|ls| - 1], t);
      }
    }
    forall c ensures Coupled(s.store, c) || AboutToDelete(PhaseOf(s, TxTopic), c)
             ensures Named(Hash(s.store, TxKey(c))) > 0 ==>
                       (Coupled(s.store, c) <==> !AboutToDelete(PhaseOf(s, TxTopic), c))
    {
      assert ChargerOk(s.store, PhaseOf(s, TxTopic), c);
    }
  }
}
