/** Which Stops get a charge detail record, in every run: the pairing read and the insert are the two
    commands whose errors the handler ignores. */
module Billing {
  import opened Domain
  import opened Store
  import opened Handler
  import opened Machine
  import opened Dedup
  import opened Delivery

  // ---------------------------------------------------------------- the two commands

  predicate HasStart(tx: map<Field, Val>) {
    NonEmpty(if StartTime in tx then Some(tx[StartTime]) else None)
  }

  /** The handler of the Stop e reads the pairing record, the read works, and there is a start time. */
  predicate FindsStart(s: State, l: Label, e: Event) {
    && l.Do? && l.fault.Works? && PhaseOf(s, l.topic) == AtUpdate(e) && e.body.Stop?
    && HasStart(Hash(s.store, TxKey(e.charger)))
  }

  /** A label at which the reader of topic t neither moves nor dies. */
  predicate Waits(l: Label, t: Topic) {
    !l.Crash? && !(l.Do? && l.topic == t)
  }

  /** The server executes the next command of the reader of topic t. */
  predicate Executes(l: Label, t: Topic) {
    l.Do? && l.topic == t && !l.fault.Refused?
  }

  /** At label a the Stop's handler found a start time, and it has not moved since. */
  ghost predicate Pending(logs: Logs, s: State, ls: seq<Label>, a: nat, t: Topic, e: Event) {
    && a < |ls| && FindsStart(Run(logs, s, ls[..a]), ls[a], e) && ls[a].topic == t
    && forall i :: a < i < |ls| ==> Waits(ls[i], t)
  }

  /** At label a a handler of the Stop e found a start time, and at label k, its next command, the
      insert of the CDR, was executed. */
  ghost predicate Bills(logs: Logs, s: State, ls: seq<Label>, a: nat, k: nat, e: Event) {
    && a < k < |ls| && FindsStart(Run(logs, s, ls[..a]), ls[a], e)
    && (forall i :: a < i < k ==> Waits(ls[i], ls[a].topic)) && Executes(ls[k], ls[a].topic)
  }

  /** The CDR the handler made of what it read at label a. */
  function RowAt(logs: Logs, s: State, ls: seq<Label>, a: nat, e: Event): Session
    requires a < |ls| && e.body.Stop?
  {
    SessionOf(e, Hash(Run(logs, s, ls[..a]).store, TxKey(e.charger)))
  }

  // ---------------------------------------------------------------- one step

  /** The insert of a CDR comes next. */
  predicate Ready(ph: Phase, e: Event) {
    ph.Writing? && ph.event == e && ph.cmds != [] && ph.cmds[0].InsertSession?
  }

  /** Only a Stop inserts, only as its first command, and only under its own event id. */
  predicate OwnRows(ph: Phase) {
    ph.Writing? ==>
      forall i :: 0 <= i < |ph.cmds| && ph.cmds[i].InsertSession? ==>
        i == 0 && ph.cmds[0].row.sessionId == ph.event.eventId
  }

  lemma PlanOwnRows(e: Event, s: Store, readFails: bool)
    ensures var d := Plan(e, s, readFails);
            (e.body.Stop? ==> d.Write?) &&
            (d.Write? ==>
              && OwnRows(Continue(e, d.cmds))
              && (Ready(Continue(e, d.cmds), e) <==> e.body.Stop? && !readFails && HasStart(Hash(s, TxKey(e.charger))))
              && (Ready(Continue(e, d.cmds), e) ==> d.cmds[0].row == SessionOf(e, Hash(s, TxKey(e.charger)))))
  {
    hide StatusFields, MeterFields, BootFields, TxFields, SeenOnline, LastSeenOf, Stale;
    if e.body.Stop? {
      var tx := if readFails then map[] else Hash(s, TxKey(e.charger));
      assert SessionOf(e, tx).sessionId == e.eventId;
      hide SessionOf, Hash;
    }
  }

  lemma UpdateRows(e: Event, s: Store, fault: Fault)
    ensures var ph' := Step(AtUpdate(e), s, fault).0;
            && OwnRows(ph')
            && (Ready(ph', e) <==> e.body.Stop? && fault.Works? && HasStart(Hash(s, TxKey(e.charger))))
            && (Ready(ph', e) ==> ph'.cmds[0].row == SessionOf(e, Hash(s, TxKey(e.charger))))
  {
    PlanOwnRows(e, s, !fault.Works? && Reads(e.body));
    hide Plan, SessionOf, HasStart;
  }

  lemma StepRows(ph: Phase, s: Store, fault: Fault)
    requires Busy(ph) && OwnRows(ph)
    ensures var ph', s' := Step(ph, s, fault).0, Step(ph, s, fault).1;
            && OwnRows(ph') && (ph'.Idle? || ph'.event == ph.event)
            && (Ready(ph', ph.event) <==>
                  ph.AtUpdate? && ph.event.body.Stop? && fault.Works? && HasStart(Hash(s, TxKey(ph.event.charger))))
            && (Ready(ph', ph.event) ==> ph'.cmds[0].row == SessionOf(ph.event, Hash(s, TxKey(ph.event.charger))))
            && s'.sessions == (if Ready(ph, ph.event) && !fault.Refused? && ph.event.eventId !in s.sessions
                               then s.sessions[ph.event.eventId := ph.cmds[0].row] else s.sessions)
  {
    hide Plan, SessionOf;
    if ph.AtUpdate? {
      UpdateRows(ph.event, s, fault);
    }
  }

  // ---------------------------------------------------------------- every reachable state

  ghost predicate ReaderRows(logs: Logs, s: State, t: Topic) {
    var ph := PhaseOf(s, t);
    OwnRows(ph) && (Busy(ph) ==> exists p, i :: Holds(logs, p, i, ph.event))
  }

  ghost predicate RowsInv(logs: Logs, s: State) {
    forall t :: ReaderRows(logs, s, t)
  }

  lemma {:induction false} DoRows(logs: Logs, s: State, t: Topic, fault: Fault)
    requires RowsInv(logs, s) && Busy(PhaseOf(s, t))
    ensures RowsInv(logs, DoStep(s, t, fault))
  {
    var s' := DoStep(s, t, fault);
    var (ph, store) := Step(PhaseOf(s, t), s.store, fault);
    assert ReaderRows(logs, s, t);
    StepRows(PhaseOf(s, t), s.store, fault);
    AdvancePhases(s, t, ph, store, !fault.Refused?);
    hide Step, OwnRows;
    forall u ensures ReaderRows(logs, s', u) {
      assert ReaderRows(logs, s, u);
    }
  }

  lemma {:induction false} NextRows(logs: Logs, s: State, l: Label)
    requires RowsInv(logs, s)
    ensures RowsInv(logs, Next(logs, s, l))
  {
    if l.Do? && Busy(PhaseOf(s, l.topic)) {
      DoRows(logs, s, l.topic, l.fault);
    } else {
      var s' := Next(logs, s, l);
      hide Next, Step;
      forall t ensures ReaderRows(logs, s', t) {
        NextPhase(logs, s, l, t);
        assert ReaderRows(logs, s, t);
        if l.Fetch? && Available(logs, s, l.part) && logs[l.part][Position(s, l.part)].Rec? {
          assert Holds(logs, l.part, Position(s, l.part), logs[l.part][Position(s, l.part)].event);
        }
      }
    }
  }

  lemma {:induction false} RunRows(logs: Logs, s0: Store, now: Nanos, ls: seq<Label>)
    ensures RowsInv(logs, Run(logs, Init(s0, now), ls))
    decreases |ls|
  {
    if ls != [] {
      RunRows(logs, s0, now, ls[..|ls| - 1]);
      NextRows(logs, Run(logs, Init(s0, now), ls[..|ls| - 1]), ls[|ls| - 1]);
    } else {
      forall t ensures ReaderRows(logs, Init(s0, now), t) {
      }
    }
  }

  /** What one label does to the CDR of e and to the readers about to insert it. */
  lemma DoBilled(logs: Logs, s: State, t: Topic, fault: Fault, e: Event)
    requires RowsInv(logs, s) && OwnEventId(logs, e) && Busy(PhaseOf(s, t))
    ensures var s' := DoStep(s, t, fault); var id := e.eventId;
            && (id in s.store.sessions ==> id in s'.store.sessions && s'.store.sessions[id] == s.store.sessions[id])
            && (id !in s.store.sessions ==>
                  && (id in s'.store.sessions <==> Ready(PhaseOf(s, t), e) && !fault.Refused?)
                  && (id in s'.store.sessions ==> s'.store.sessions[id] == PhaseOf(s, t).cmds[0].row))
            && (Ready(PhaseOf(s', t), e) <==> FindsStart(s, Do(t, fault), e))
            && (Ready(PhaseOf(s', t), e) ==>
                  e.body.Stop? && PhaseOf(s', t).cmds[0].row == SessionOf(e, Hash(s.store, TxKey(e.charger))))
            && forall u :: u != t ==> PhaseOf(s', u) == PhaseOf(s, u)
  {
    var (ph, store) := Step(PhaseOf(s, t), s.store, fault);
    assert ReaderRows(logs, s, t);
    StepRows(PhaseOf(s, t), s.store, fault);
    AdvancePhases(s, t, ph, store, !fault.Refused?);
    hide Step, SessionOf, HasStart, Hash;
    if PhaseOf(s, t).event != e {
      var p, i: nat :| Holds(logs, p, i, PhaseOf(s, t).event);
      assert PhaseOf(s, t).event.eventId != e.eventId;
    }
  }

  lemma OtherBilled(logs: Logs, s: State, l: Label, t: Topic, e: Event)
    requires !(l.Do? && Busy(PhaseOf(s, l.topic)))
    ensures var s' := Next(logs, s, l);
            && s'.store.sessions == s.store.sessions
            && (Ready(PhaseOf(s', t), e) <==> Ready(PhaseOf(s, t), e) && Waits(l, t))
            && (Ready(PhaseOf(s', t), e) ==> PhaseOf(s', t) == PhaseOf(s, t))
  {
    hide DoStep;
  }

  lemma ReadyIsBusy(ph: Phase, e: Event)
    ensures Ready(ph, e) ==> Busy(ph)
  {
  }

  lemma NextBilled(logs: Logs, s: State, l: Label, e: Event)
    requires RowsInv(logs, s) && OwnEventId(logs, e)
    ensures var s' := Next(logs, s, l); var id := e.eventId;
            && (id in s.store.sessions ==> id in s'.store.sessions && s'.store.sessions[id] == s.store.sessions[id])
            && (id !in s.store.sessions ==>
                  (id in s'.store.sessions <==> l.Do? && Ready(PhaseOf(s, l.topic), e) && !l.fault.Refused?)
                  && (id in s'.store.sessions ==> s'.store.sessions[id] == PhaseOf(s, l.topic).cmds[0].row))
  {
    hide Ready;
    if l.Do? && Busy(PhaseOf(s, l.topic)) {
      DoBilled(logs, s, l.topic, l.fault, e);
    } else {
      OtherBilled(logs, s, l, BootTopic, e);
      assert l.Do? ==> !Ready(PhaseOf(s, l.topic), e) by {
        ReadyIsBusy(PhaseOf(s, if l.Do? then l.topic else BootTopic), e);
      }
    }
  }

  lemma NextReady(logs: Logs, s: State, l: Label, t: Topic, e: Event)
    requires RowsInv(logs, s) && OwnEventId(logs, e)
    ensures var s' := Next(logs, s, l);
            && (Ready(PhaseOf(s', t), e) <==>
                  (FindsStart(s, l, e) && l.topic == t) || (Ready(PhaseOf(s, t), e) && Waits(l, t)))
            && (FindsStart(s, l, e) && l.topic == t ==>
                  PhaseOf(s', t).cmds[0].row == SessionOf(e, Hash(s.store, TxKey(e.charger))))
            && (Ready(PhaseOf(s, t), e) && Waits(l, t) ==> PhaseOf(s', t) == PhaseOf(s, t))
  {
    hide SessionOf, HasStart, Hash;
    if l.Do? && Busy(PhaseOf(s, l.topic)) {
      DoBilled(logs, s, l.topic, l.fault, e);
      hide DoStep, RowsInv, OwnEventId;
    } else {
      OtherBilled(logs, s, l, t, e);
      hide Next;
    }
  }

  // ---------------------------------------------------------------- the runs

  lemma PendingSnoc(logs: Logs, s: State, before: seq<Label>, l: Label, a: nat, t: Topic, e: Event)
    ensures Pending(logs, s, before + [l], a, t, e) <==>
            (a == |before| && FindsStart(Run(logs, s, before), l, e) && l.topic == t)
            || (Pending(logs, s, before, a, t, e) && Waits(l, t))
    ensures a < |before| && e.body.Stop? ==> RowAt(logs, s, before + [l], a, e) == RowAt(logs, s, before, a, e)
    ensures e.body.Stop? ==>
              RowAt(logs, s, before + [l], |before|, e)
              == SessionOf(e, Hash(Run(logs, s, before).store, TxKey(e.charger)))
  {
    hide FindsStart, Waits, Run, SessionOf;
    var ls := before + [l];
    assert ls[..|before|] == before;
    if a < |before| {
      assert ls[..a] == before[..a] && ls[a] == before[a];
      if Pending(logs, s, ls, a, t, e) {
        assert Waits(ls[|before|], t);
        forall i | a < i < |before| ensures Waits(before[i], t) {
          assert Waits(ls[i], t);
        }
      }
    }
  }

  lemma NotReady(s0: Store, now: Nanos, t: Topic, e: Event)
    ensures !Ready(PhaseOf(Init(s0, now), t), e)
  {
  }

  /** A reader is about to insert the CDR exactly if it found the start time and has not moved since;
      and the CDR is of what it read then. */
  lemma {:induction false} ReadyIff(logs: Logs, s0: Store, now: Nanos, ls: seq<Label>, t: Topic, e: Event)
    requires OwnEventId(logs, e)
    ensures var s := Run(logs, Init(s0, now), ls);
            && (Ready(PhaseOf(s, t), e) <==> exists a :: Pending(logs, Init(s0, now), ls, a, t, e))
            && forall a :: Pending(logs, Init(s0, now), ls, a, t, e) ==>
                 && e.body.Stop? && Ready(PhaseOf(s, t), e)
                 && PhaseOf(s, t).cmds[0].row == RowAt(logs, Init(s0, now), ls, a, e)
    decreases |ls|
  {
    hide Ready, Next, Waits, RowsInv, SessionOf, OwnEventId;
    var s := Init(s0, now);
    if ls == [] {
      assert !Ready(PhaseOf(s, t), e) by {
        NotReady(s0, now, t, e);
      }
    } else {
      var before, l, n := ls[..|ls| - 1], ls[|ls| - 1], |ls| - 1;
      assert before + [l] == ls;
      RunRows(logs, s0, now, before);
      ReadyIff(logs, s0, now, before, t, e);
      NextReady(logs, Run(logs, s, before), l, t, e);
      assert Run(logs, s, ls) == Next(logs, Run(logs, s, before), l);
      assert FindsStart(Run(logs, s, before), l, e) ==> e.body.Stop?;
      hide Run, RowAt, FindsStart, PhaseOf;
      forall a: nat ensures Pending(logs, s, ls, a, t, e) <==>
                            (a == n && FindsStart(Run(logs, s, before), l, e) && l.topic == t)
                            || (Pending(logs, s, before, a, t, e) && Waits(l, t))
                    ensures a < n && e.body.Stop? ==> RowAt(logs, s, ls, a, e) == RowAt(logs, s, before, a, e)
      {
        PendingSnoc(logs, s, before, l, a, t, e);
      }
      PendingSnoc(logs, s, before, l, n, t, e);
      assert Pending(logs, s, ls, n, t, e) <== FindsStart(Run(logs, s, before), l, e) && l.topic == t;
    }
  }

  lemma BillsSnoc(logs: Logs, s: State, before: seq<Label>, l: Label, a: nat, k: nat, e: Event)
    ensures Bills(logs, s, before + [l], a, k, e) <==>
            Bills(logs, s, before, a, k, e)
            || (k == |before| && l.Do? && Pending(logs, s, before, a, l.topic, e) && Executes(l, l.topic))
    ensures a < |before| && e.body.Stop? ==> RowAt(logs, s, before + [l], a, e) == RowAt(logs, s, before, a, e)
  {
    hide FindsStart, Waits, Run, SessionOf;
    var ls := before + [l];
    if a < |before| {
      assert ls[..a] == before[..a] && ls[a] == before[a];
      assert forall i :: a < i < |before| ==> ls[i] == before[i];
    }
  }

  /** The CDR of e is there, made of what the handler read at label a. */
  ghost predicate BilledAt(logs: Logs, s: State, ls: seq<Label>, a: nat, k: nat, e: Event, r: Session) {
    Bills(logs, s, ls, a, k, e) && e.body.Stop? && r == RowAt(logs, s, ls, a, e)
  }

  ghost predicate Billed(logs: Logs, s: State, ls: seq<Label>, e: Event, r: Session) {
    exists a, k :: BilledAt(logs, s, ls, a, k, e, r)
  }

  lemma BillsInside(logs: Logs, s: State, ls: seq<Label>, a: nat, k: nat, e: Event)
    requires Bills(logs, s, ls, a, k, e)
    ensures a < k < |ls|
  {
  }

  lemma {:induction false} BillsMore(logs: Logs, s: State, before: seq<Label>, l: Label, e: Event)
    ensures (exists a, k :: Bills(logs, s, before + [l], a, k, e)) <==>
            (exists a, k :: Bills(logs, s, before, a, k, e))
            || (l.Do? && Executes(l, l.topic) && exists a :: Pending(logs, s, before, a, l.topic, e))
    ensures forall r :: Billed(logs, s, before, e, r) ==> Billed(logs, s, before + [l], e, r)
  {
    hide Bills, Pending, RowAt;
    forall a: nat, k: nat ensures Bills(logs, s, before + [l], a, k, e) <==>
                        Bills(logs, s, before, a, k, e)
                        || (k == |before| && l.Do? && Pending(logs, s, before, a, l.topic, e) && Executes(l, l.topic))
    {
      BillsSnoc(logs, s, before, l, a, k, e);
    }
    if l.Do? && Executes(l, l.topic) {
      if a: nat :| Pending(logs, s, before, a, l.topic, e) {
        assert Bills(logs, s, before + [l], a, |before|, e);
      }
    }
    forall r | Billed(logs, s, before, e, r) ensures Billed(logs, s, before + [l], e, r) {
      var a: nat, k: nat :| BilledAt(logs, s, before, a, k, e, r);
      BillsSnoc(logs, s, before, l, a, k, e);
      BillsInside(logs, s, before, a, k, e);
      assert BilledAt(logs, s, before + [l], a, k, e, r);
    }
  }

  lemma FirstBill(logs: Logs, s: State, before: seq<Label>, l: Label, a: nat, e: Event)
    requires l.Do? && Pending(logs, s, before, a, l.topic, e) && Executes(l, l.topic) && e.body.Stop?
    ensures BilledAt(logs, s, before + [l], a, |before|, e, RowAt(logs, s, before, a, e))
  {
    BillsSnoc(logs, s, before, l, a, |before|, e);
    hide Bills, FindsStart, Run, RowAt;
  }

  /** Which Stops are billed, in every run, faults and crashes included: from stores that hold no row
      under its id, the CDR of e is in charge_sessions if and only if a handler of e had a pairing read
      that worked and found a start time, and its next command, the insert, was executed. The row is
      then the CDR of e and of the pairing record so read. */
  lemma {:induction false} BilledIff(logs: Logs, s0: Store, now: Nanos, ls: seq<Label>, e: Event)
    requires OwnEventId(logs, e) && e.eventId !in s0.sessions
    ensures var s := Run(logs, Init(s0, now), ls); var id := e.eventId;
            && (id in s.store.sessions <==> exists a, k :: Bills(logs, Init(s0, now), ls, a, k, e))
            && (id in s.store.sessions ==> Billed(logs, Init(s0, now), ls, e, s.store.sessions[id]))
    decreases |ls|
  {
    var s, id := Init(s0, now), e.eventId;
    if ls != [] {
      var before, l := ls[..|ls| - 1], ls[|ls| - 1];
      var b := Run(logs, s, before);
      assert before + [l] == ls;
      assert Run(logs, s, ls) == Next(logs, b, l);
      BilledIff(logs, s0, now, before, e);
      RunRows(logs, s0, now, before);
      NextBilled(logs, b, l, e);
      BillsMore(logs, s, before, l, e);
      hide Run, Next, Ready, RowsInv, OwnEventId, Bills, BilledAt, Pending, RowAt, Init;
      if l.Do? {
        ReadyIff(logs, s0, now, before, l.topic, e);
        if id !in b.store.sessions && Ready(PhaseOf(b, l.topic), e) && !l.fault.Refused? {
          var a: nat :| Pending(logs, s, before, a, l.topic, e);
          FirstBill(logs, s, before, l, a, e);
        }
      }
    }
  }

  // ---------------------------------------------------------------- a Stop handled without a CDR

  const SLOT := Part(TxTopic, 0)
  const ON := Do(TxTopic, Works)

  /** Where the transaction reader, the only one at work, stands. */
  predicate Stands(s: State, ph: Phase, sessions: map<string, Session>, entered: multiset<Event>,
                   applied: multiset<Event>) {
    && s.readers == map[TxTopic := Reader(ph, SLOT, 0)] && s.store.sessions == sessions
    && s.tally.entered == entered && s.tally.applied == applied
  }

  predicate HasRow(s: State, e: Event) {
    e.eventId in s.store.history && s.store.history[e.eventId] == e
  }

  lemma FetchGoes(logs: Logs, s0: Store, now: Nanos, e: Event)
    requires logs == map[SLOT := [Rec(e)]]
    ensures var a := Next(logs, Init(s0, now), Fetch(SLOT));
            Stands(a, AtDedup(e), s0.sessions, multiset{}, multiset{}) && a.store == s0
  {
  }

  lemma KeyGoes(logs: Logs, a: State, s0: Store, e: Event)
    requires Stands(a, AtDedup(e), s0.sessions, multiset{}, multiset{}) && a.store == s0 && e.messageId !in s0.locks
    ensures var b := Next(logs, a, ON);
            Stands(b, AtHistory(e), s0.sessions, multiset{e}, multiset{}) && b.store == Lock(s0, e.messageId)
  {
    assert PhaseOf(a, TxTopic) == AtDedup(e);
    hide TtlAfter;
  }

  lemma RowGoes(logs: Logs, b: State, s0: Store, e: Event)
    requires Stands(b, AtHistory(e), s0.sessions, multiset{e}, multiset{}) && b.store == Lock(s0, e.messageId)
    requires e.eventId !in s0.history
    ensures var c := Next(logs, b, ON);
            Stands(c, AtUpdate(e), s0.sessions, multiset{e}, multiset{}) && HasRow(c, e)
  {
    assert PhaseOf(b, TxTopic) == AtHistory(e);
    hide TtlAfter;
  }

  lemma Begins(logs: Logs, s0: Store, now: Nanos, e: Event, a: State, b: State, c: State)
    requires logs == map[SLOT := [Rec(e)]] && e.messageId !in s0.locks && e.eventId !in s0.history
    requires a == Next(logs, Init(s0, now), Fetch(SLOT)) && b == Next(logs, a, ON) && c == Next(logs, b, ON)
    ensures Stands(c, AtUpdate(e), s0.sessions, multiset{e}, multiset{}) && HasRow(c, e)
  {
    FetchGoes(logs, s0, now, e);
    KeyGoes(logs, a, s0, e);
    hide Next, Init, Stands;
    RowGoes(logs, b, s0, e);
  }

  /** The writes of a Stop that found no start time. */
  function Unpaired(e: Event): seq<Cmd>
    requires e.body.Stop?
  {
    [HSet(ConnKey(e.charger, e.connector), map[ActiveTransaction := Text("false")]),
     HSet(ChargerKey(e.charger), LastSeenOf(e)), SAdd(ChargersKey, e.charger)]
  }

  lemma ReadFails(logs: Logs, s: State, e: Event, fault: Fault, sessions: map<string, Session>)
    requires Stands(s, AtUpdate(e), sessions, multiset{e}, multiset{}) && HasRow(s, e)
    requires e.body.Stop? && !fault.Works?
    ensures var s' := Next(logs, s, Do(TxTopic, fault));
            Stands(s', Writing(e, Unpaired(e)), sessions, multiset{e}, multiset{}) && HasRow(s', e)
  {
    hide LastSeenOf;
    assert PhaseOf(s, TxTopic) == AtUpdate(e);
    assert StopCmds(e, map[]) == Unpaired(e);
  }

  lemma WriteGoes(logs: Logs, s: State, e: Event, cmds: seq<Cmd>, sessions: map<string, Session>)
    requires Stands(s, Writing(e, cmds), sessions, multiset{e}, multiset{}) && HasRow(s, e)
    requires cmds != [] && !cmds[0].InsertSession?
    ensures var s' := Next(logs, s, ON);
            && HasRow(s', e)
            && Stands(s', Continue(e, cmds[1..]), sessions, multiset{e},
                      if |cmds| == 1 then multiset{e} else multiset{})
  {
    assert PhaseOf(s, TxTopic) == Writing(e, cmds);
  }

  lemma CommitGoes(logs: Logs, s: State, e: Event, sessions: map<string, Session>)
    requires Stands(s, Handled(e), sessions, multiset{e}, multiset{e}) && HasRow(s, e)
    ensures var s' := Next(logs, s, Commit(TxTopic, true));
            Stands(s', Idle, sessions, multiset{e}, multiset{e}) && HasRow(s', e) && Committed(s', SLOT) == 1
  {
    assert PhaseOf(s, TxTopic) == Handled(e);
  }

  lemma Reaches(logs: Logs, s0: Store, now: Nanos, e: Event) returns (ls: seq<Label>)
    requires logs == map[SLOT := [Rec(e)]] && e.messageId !in s0.locks && e.eventId !in s0.history
    ensures var s := Run(logs, Init(s0, now), ls);
            Stands(s, AtUpdate(e), s0.sessions, multiset{e}, multiset{}) && HasRow(s, e)
  {
    assert Run(logs, Init(s0, now), []) == Init(s0, now);
    hide Run, Next, Stands, HasRow, Init;
    var a, b, c;
    ls, a, b, c := RunOf3More(logs, Init(s0, now), [], Fetch(SLOT), ON, ON);
    Begins(logs, s0, now, e, a, b, c);
  }

  lemma ThreeWrites(logs: Logs, s: State, e: Event, x: Cmd, y: Cmd, z: Cmd, m: map<string, Session>, a: State,
                    b: State, c: State)
    requires Stands(s, Writing(e, [x, y, z]), m, multiset{e}, multiset{}) && HasRow(s, e)
    requires !x.InsertSession? && !y.InsertSession? && !z.InsertSession?
    requires a == Next(logs, s, ON) && b == Next(logs, a, ON) && c == Next(logs, b, ON)
    ensures Stands(c, Handled(e), m, multiset{e}, multiset{e}) && HasRow(c, e)
  {
    assert [x, y, z][1..] == [y, z] && [y, z][1..] == [z] && [z][1..] == [];
    hide Next, Stands, HasRow;
    WriteGoes(logs, s, e, [x, y, z], m);
    WriteGoes(logs, a, e, [y, z], m);
    WriteGoes(logs, b, e, [z], m);
  }

  /** The writes of an unpaired Stop, and the commit. */
  lemma WritesOut(logs: Logs, s: State, e: Event, m: map<string, Session>, a: State, b: State, c: State, d: State)
    requires e.body.Stop? && Stands(s, Writing(e, Unpaired(e)), m, multiset{e}, multiset{}) && HasRow(s, e)
    requires a == Next(logs, s, ON) && b == Next(logs, a, ON) && c == Next(logs, b, ON)
    requires d == Next(logs, c, Commit(TxTopic, true))
    ensures Stands(d, Idle, m, multiset{e}, multiset{e}) && HasRow(d, e) && Committed(d, SLOT) == 1
  {
    var cmds := Unpaired(e);
    var x, y, z := cmds[0], cmds[1], cmds[2];
    assert cmds == [x, y, z];
    hide Next, Stands, HasRow, LastSeenOf, Committed;
    ThreeWrites(logs, s, e, x, y, z, m, a, b, c);
    CommitGoes(logs, c, e, m);
  }

  lemma StopIsHandled(logs: Logs, s0: Store, now: Nanos, e: Event, fault: Fault) returns (ls: seq<Label>)
    requires logs == map[SLOT := [Rec(e)]] && e.messageId !in s0.locks && e.eventId !in s0.history
    requires e.body.Stop? && !fault.Works?
    ensures var s := Run(logs, Init(s0, now), ls);
            Stands(s, Idle, s0.sessions, multiset{e}, multiset{e}) && HasRow(s, e) && Committed(s, SLOT) == 1
  {
    hide Run, Next, Stands, HasRow, Init, Unpaired, Committed;
    var s := Init(s0, now);
    var l3 := Reaches(logs, s0, now, e);
    ReadFails(logs, Run(logs, s, l3), e, fault, s0.sessions);
    var l6, d, f, g := RunOf3More(logs, s, l3, Do(TxTopic, fault), ON, ON);
    RunSnoc(logs, s, l6, ON);
    RunSnoc(logs, s, l6 + [ON], Commit(TxTopic, true));
    ls := l6 + [ON] + [Commit(TxTopic, true)];
    WritesOut(logs, d, e, s0.sessions, f, g, Next(logs, g, ON), Run(logs, s, ls));
  }

  /** Whatever is stored, its pairing record included, a Stop whose pairing read fails is handled,
      recorded and committed, and gets no CDR. */
  lemma FailedReadLosesCdr(s0: Store, now: Nanos, e: Event, fault: Fault)
    requires e.messageId !in s0.locks && e.eventId !in s0.history && e.eventId !in s0.sessions
    requires e.body.Stop? && HasStart(Hash(s0, TxKey(e.charger))) && !fault.Works?
    ensures exists logs, ls ::
              var s := Run(logs, Init(s0, now), ls);
              && OwnEventId(logs, e) && OwnMessageId(logs, e) && Done(s, e) && Committed(s, SLOT) == 1
              && (forall t :: !Busy(PhaseOf(s, t))) && e.eventId !in s.store.sessions
  {
    var logs: Logs := map[SLOT := [Rec(e)]];
    assert OwnEventId(logs, e) && OwnMessageId(logs, e);
    var ls := StopIsHandled(logs, s0, now, e, fault);
    hide Run, Init, OwnEventId, OwnMessageId;
    assert forall t :: !Busy(PhaseOf(Run(logs, Init(s0, now), ls), t));
  }
}
