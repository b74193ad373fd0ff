/** How often an event takes effect, over every run: faults, crashes, redeliveries, expiries and
    readers racing on one message id included. */
module Delivery {
  import opened Domain
  import opened Store
  import opened Handler
  import opened Machine
  import opened Dedup
  import opened Interleaving
  import opened Confluence

  // ---------------------------------------------------------------- at most once

  /** Every SetNX the server executes for this event comes while its key lasts, if a handler of the
      event ever set it. */
  predicate TimelyStep(s: State, l: Label, e: Event) {
    l.Do? && PhaseOf(s, l.topic) == AtDedup(e) && !l.fault.Refused? ==> FindsOwnKey(s, e)
  }

  ghost predicate Timely(logs: Logs, s: State, ls: seq<Label>, e: Event) {
    ls == [] || (var before := ls[..|ls| - 1];
                 Timely(logs, s, before, e) && TimelyStep(Run(logs, s, before), ls[|ls| - 1], e))
  }

  /** The step at which a handler of e sets the dedup key. */
  predicate Sets(s: State, l: Label, e: Event) {
    l.Do? && PhaseOf(s, l.topic) == AtDedup(e) && SetsKey(AtDedup(e), s.store.locks, !l.fault.Refused?)
  }

  lemma EnteredStep(logs: Logs, s: State, l: Label, e: Event)
    ensures var n, n' := s.tally.entered[e], Next(logs, s, l).tally.entered[e];
            n' == if Sets(s, l, e) then n + 1 else n
  {
    hide Step, TtlAfter, Purge, Open;
  }

  lemma {:induction false} EnteredOnce(logs: Logs, s: State, ls: seq<Label>, e: Event)
    requires Timely(logs, s, ls, e) && s.tally.entered[e] == 0
    ensures Run(logs, s, ls).tally.entered[e] <= 1
    decreases |ls|
  {
    if ls != [] {
      EnteredOnce(logs, s, ls[..|ls| - 1], e);
      EnteredStep(logs, Run(logs, s, ls[..|ls| - 1]), ls[|ls| - 1], e);
    }
  }

  /** At most once: in any run, however long, in which an event that comes again comes within an hour
      of its own first passing, it is not applied twice. */
  lemma AtMostOnce(logs: Logs, s0: Store, now: Nanos, ls: seq<Label>, e: Event)
    requires Timely(logs, Init(s0, now), ls, e)
    ensures var s := Run(logs, Init(s0, now), ls);
            && s.tally.applied[e] <= s.tally.entered[e] <= 1
            && (OpenOn(s, e) == 0 && s.tally.entered[e] == 1 ==> (s.tally.applied[e] == 1 <==> s.tally.lost[e] == 0))
  {
    Conservation(logs, s0, now, ls, e);
    EnteredOnce(logs, Init(s0, now), ls, e);
  }

  /** The server executes a SetNX for this id. */
  predicate TriesKey(s: State, l: Label, m: string) {
    l.Do? && PhaseOf(s, l.topic).AtDedup? && PhaseOf(s, l.topic).event.messageId == m && !l.fault.Refused?
  }

  /** The same of all events with one message id. */
  ghost predicate TimelyFor(logs: Logs, s: State, ls: seq<Label>, m: string) {
    ls == [] || (var before, l := ls[..|ls| - 1], ls[|ls| - 1];
                 && TimelyFor(logs, s, before, m)
                 && (TriesKey(Run(logs, s, before), l, m) ==> FindsKey(Run(logs, s, before), m)))
  }

  lemma {:induction false} IdsHas(ns: seq<Entry>, m: string)
    ensures Ids(ns)[m] > 0 <==> exists n :: n in ns && n.event.messageId == m
    decreases |ns|
  {
    if ns != [] {
      IdsHas(ns[..|ns| - 1], m);
      assert ns == ns[..|ns| - 1] + [ns[|ns| - 1]];
    }
  }

  lemma IdsStep(logs: Logs, b: State, l: Label, m: string)
    ensures var ns, ns' := b.tally.entries, Next(logs, b, l).tally.entries;
            Ids(ns')[m] <= Ids(ns)[m] + 1
            && (Ids(ns')[m] > Ids(ns)[m] ==> TriesKey(b, l, m) && m !in b.store.locks)
  {
    hide Step, TtlAfter, Purge, Open;
    var ns, ns' := b.tally.entries, Next(logs, b, l).tally.entries;
    assert ns' == ns || (|ns'| == |ns| + 1 && ns'[..|ns'| - 1] == ns);
  }

  lemma {:induction false} OneSetting(logs: Logs, s0: Store, now: Nanos, ls: seq<Label>, m: string)
    requires TimelyFor(logs, Init(s0, now), ls, m)
    ensures Ids(Run(logs, Init(s0, now), ls).tally.entries)[m] <= 1
    decreases |ls|
  {
    if ls != [] {
      var before, l := ls[..|ls| - 1], ls[|ls| - 1];
      var b := Run(logs, Init(s0, now), before);
      OneSetting(logs, s0, now, before, m);
      WasSetIff(logs, s0, now, before, m);
      IdsHas(b.tally.entries, m);
      IdsStep(logs, b, l, m);
    }
  }

  lemma {:induction false} TwoSetters(ns: seq<Entry>, e: Event, f: Event)
    requires e != f && e.messageId == f.messageId
    ensures Setters(ns)[e] + Setters(ns)[f] <= Ids(ns)[e.messageId]
    decreases |ns|
  {
    if ns != [] {
      TwoSetters(ns[..|ns| - 1], e, f);
      EntrySnoc(ns, e);
      EntrySnoc(ns, f);
    }
  }

  lemma OneSetter(y: Tally, m: string)
    requires y.applied <= Setters(y.entries) && Ids(y.entries)[m] <= 1
    ensures forall e, f :: e in y.applied && f in y.applied && e.messageId == f.messageId == m ==> e == f
  {
    hide Ids, Setters;
    forall e, f | e in y.applied && f in y.applied && e.messageId == f.messageId == m ensures e == f {
      assert y.applied[e] <= Setters(y.entries)[e] && y.applied[f] <= Setters(y.entries)[f];
      if e != f {
        TwoSetters(y.entries, e, f);
      }
    }
  }

  /** At most once for a message id, if all deliveries of events that have it come in time: then its key
      is set once, by the handler of one event, and no event with that id is applied but that one. */
  lemma OneOfAnId(logs: Logs, s0: Store, now: Nanos, ls: seq<Label>, m: string)
    requires TimelyFor(logs, Init(s0, now), ls, m)
    ensures var y := Run(logs, Init(s0, now), ls).tally;
            && Ids(y.entries)[m] <= 1 && y.applied <= Setters(y.entries)
            && forall e, f :: e in y.applied && f in y.applied && e.messageId == f.messageId == m ==> e == f
  {
    OneSetting(logs, s0, now, ls, m);
    OncePerHour(logs, s0, now, ls, m);
    hide Run, Setters, Ids;
    OneSetter(Run(logs, Init(s0, now), ls).tally, m);
  }

  /** Coming in time is a matter of the clock alone: the key was set less than an hour ago. */
  lemma InTimeIff(logs: Logs, s0: Store, now: Nanos, ls: seq<Label>, e: Event)
    requires e.messageId !in s0.locks
    ensures var s := Run(logs, Init(s0, now), ls);
            && (FindsOwnKey(s, e) <==>
                (e in s.tally.entered ==> exists n :: n in s.tally.entries && Young(s, n, e.messageId)))
            && (FindsKey(s, e.messageId) <==>
                (WasSet(s, e.messageId) ==> exists n :: n in s.tally.entries && Young(s, n, e.messageId)))
  {
    KeyLastsAnHour(logs, s0, now, ls, e.messageId);
  }

  lemma YoungFinds(logs: Logs, s0: Store, now: Nanos, ls: seq<Label>, e: Event)
    requires Run(logs, Init(s0, now), ls).clock < now + 3600 * 1_000_000_000
    ensures var s := Run(logs, Init(s0, now), ls); FindsKey(s, e.messageId) && FindsOwnKey(s, e)
  {
    var s := Run(logs, Init(s0, now), ls);
    RunRecorded(logs, s0, now, ls);
    WasSetIff(logs, s0, now, ls, e.messageId);
    HourApart(logs, s0, now, ls);
    hide Run, Init;
    if WasSet(s, e.messageId) {
      var n :| n in s.tally.entries && n.event.messageId == e.messageId;
      assert Guarded(s, n);
    }
    assert e in s.tally.entered ==> WasSet(s, e.messageId);
  }

  /** So runs shorter than an hour are timely for every event. */
  lemma {:induction false} ShortRunsAreTimely(logs: Logs, s0: Store, now: Nanos, ls: seq<Label>, e: Event)
    requires Run(logs, Init(s0, now), ls).clock < now + 3600 * 1_000_000_000
    ensures Timely(logs, Init(s0, now), ls, e) && TimelyFor(logs, Init(s0, now), ls, e.messageId)
    decreases |ls|
  {
    if ls != [] {
      var before := ls[..|ls| - 1];
      var s := Run(logs, Init(s0, now), before);
      assert s.clock <= Next(logs, s, ls[|ls| - 1]).clock;
      hide Next, FindsKey, FindsOwnKey;
      ShortRunsAreTimely(logs, s0, now, before, e);
      YoungFinds(logs, s0, now, before, e);
    }
  }

  // ---------------------------------------------------------------- when an event is lost

  /** The fault that ends a handler for good: its SetNX creates the key and goes unheard, or, past it,
      the history insert or a pipeline write fails, or the payload does not decode. */
  predicate Fatal(ph: Phase, locks: set<string>, fault: Fault) {
    match ph
    case AtDedup(e) => fault.Unheard? && e.messageId !in locks
    case AtHistory(_) => !fault.Works?
    case AtUpdate(e) => !Readable(e)
    case Writing(_, cmds) => cmds != [] && !fault.Works? && !cmds[0].InsertSession?
    case _ => false
  }

  ghost predicate Loses(s: State, l: Label, e: Event) {
    match l
    case Do(t, fault) =>
      Busy(PhaseOf(s, t)) && PhaseOf(s, t).event == e && Fatal(PhaseOf(s, t), s.store.locks, fault)
    case Crash => exists t :: Count(PhaseOf(s, t), e) == 1
    case _ => false
  }

  ghost predicate SetsAt(logs: Logs, s: State, ls: seq<Label>, k: nat, e: Event) {
    k < |ls| && Sets(Run(logs, s, ls[..k]), ls[k], e)
  }

  ghost predicate LosesAt(logs: Logs, s: State, ls: seq<Label>, k: nat, e: Event) {
    k < |ls| && Loses(Run(logs, s, ls[..k]), ls[k], e)
  }

  lemma FatalIffIdle(ph: Phase, s: Store, fault: Fault)
    requires Busy(ph)
    ensures Fatal(ph, s.locks, fault) <==>
            (InFlight(ph) || SetsKey(ph, s.locks, !fault.Refused?)) && Step(ph, s, fault).0.Idle?
  {
    hide Plan;
    if ph.AtUpdate? {
      PlanRejects(ph.event, s, !fault.Works? && Reads(ph.event.body));
    }
  }

  lemma OpenOnSome(s: State, e: Event)
    ensures OpenOn(s, e) > 0 <==> exists t :: Count(PhaseOf(s, t), e) == 1
  {
    assert forall ph :: Count(ph, e) == 0 || Count(ph, e) == 1;
    hide Count, PhaseOf;
    forall t | Count(PhaseOf(s, t), e) == 1 ensures OpenOn(s, e) > 0 {
      assert t == BootTopic || t == StatusTopic || t == MeterTopic || t == TxTopic || t == HeartbeatTopic;
    }
  }

  lemma CrashLoses(s: State, e: Event)
    ensures CrashStep(s).tally.lost[e] > 0 <==> s.tally.lost[e] > 0 || exists t :: Count(PhaseOf(s, t), e) == 1
  {
    OpenCount(s, e);
    OpenOnSome(s, e);
    hide Open, OpenOn, Count, PhaseOf;
    assert CrashStep(s).tally.lost == s.tally.lost + Open(s);
  }

  lemma DoLoses(s: State, t: Topic, fault: Fault, e: Event)
    requires Busy(PhaseOf(s, t))
    ensures DoStep(s, t, fault).tally.lost[e] > 0 <==>
            s.tally.lost[e] > 0 || (PhaseOf(s, t).event == e && Fatal(PhaseOf(s, t), s.store.locks, fault))
  {
    FatalIffIdle(PhaseOf(s, t), s.store, fault);
    hide Step, TtlAfter, Fatal;
  }

  lemma LostStep(logs: Logs, s: State, l: Label, e: Event)
    ensures Next(logs, s, l).tally.lost[e] > 0 <==> s.tally.lost[e] > 0 || Loses(s, l, e)
  {
    hide DoStep, CrashStep, Fatal, Count;
    match l
    case Do(t, fault) =>
      if Busy(PhaseOf(s, t)) {
        DoLoses(s, t, fault, e);
      }
    case Crash => CrashLoses(s, e);
    case _ =>
  }

  /** In every run: a handler of e set the key exactly if some step of one did, and e was lost exactly
      if some step lost it. */
  lemma {:induction false} LostIff(logs: Logs, s: State, ls: seq<Label>, e: Event)
    requires s.tally.entered[e] == 0 && s.tally.lost[e] == 0
    ensures Run(logs, s, ls).tally.entered[e] > 0 <==> exists k :: SetsAt(logs, s, ls, k, e)
    ensures Run(logs, s, ls).tally.lost[e] > 0 <==> exists k :: LosesAt(logs, s, ls, k, e)
    decreases |ls|
  {
    hide Sets, Loses, Next;
    if ls != [] {
      var before, n := ls[..|ls| - 1], |ls| - 1;
      LostIff(logs, s, before, e);
      EnteredStep(logs, Run(logs, s, before), ls[n], e);
      LostStep(logs, Run(logs, s, before), ls[n], e);
      forall k: nat ensures SetsAt(logs, s, ls, k, e) ==
                            (SetsAt(logs, s, before, k, e) || (k == n && Sets(Run(logs, s, before), ls[n], e)))
                    ensures LosesAt(logs, s, ls, k, e) ==
                            (LosesAt(logs, s, before, k, e) || (k == n && Loses(Run(logs, s, before), ls[n], e)))
      {
        if k < n {
          assert before[..k] == ls[..k];
        }
      }
      assert Run(logs, s, ls) == Next(logs, Run(logs, s, before), ls[n]);
      hide Run, SetsAt, LosesAt;
      assert SetsAt(logs, s, ls, n, e) <== Sets(Run(logs, s, before), ls[n], e);
      assert LosesAt(logs, s, ls, n, e) <== Loses(Run(logs, s, before), ls[n], e);
    }
  }

  /** Event ids are the gateway's UUIDs: the one event with this one is e. */
  ghost predicate OwnEventId(logs: Logs, e: Event) {
    forall p, i, f :: Holds(logs, p, i, f) && f.eventId == e.eventId ==> f == e
  }

  /** Message ids are chosen by charge points. No other event uses that of e. */
  ghost predicate OwnMessageId(logs: Logs, e: Event) {
    forall p, i, f :: Holds(logs, p, i, f) && f.messageId == e.messageId ==> f == e
  }

  ghost predicate ReaderRow(s: State, t: Topic, e: Event) {
    var ph := PhaseOf(s, t);
    Busy(ph) && ph.event.eventId == e.eventId ==>
      ph.event == e && (InFlight(ph) ==> e in s.tally.entered)
      && (ph.AtUpdate? || ph.Writing? ==> e.eventId in s.store.history)
  }

  /** Whatever applies e has its row in history first, and the row stays; and only a handler of e that
      has set the key puts it there. */
  ghost predicate RowInv(s0: Store, s: State, e: Event) {
    && (forall t :: ReaderRow(s, t, e))
    && (e.eventId in s.store.history ==>
          s.store.history[e.eventId] == e && (e.eventId in s0.history || e in s.tally.entered))
    && (e.eventId in s0.history ==> e.eventId in s.store.history)
    && (s.tally.applied[e] > 0 ==> e.eventId in s.store.history)
  }

  lemma StepHistory(ph: Phase, s: Store, fault: Fault)
    requires Busy(ph)
    ensures var (ph', s') := Step(ph, s, fault);
            && s'.history == (if ph.AtHistory? && !fault.Refused? && ph.event.eventId !in s.history
                              then s.history[ph.event.eventId := ph.event] else s.history)
            && (ph'.AtUpdate? || ph'.Writing? ==> ph.AtUpdate? || ph.Writing? || (ph.AtHistory? && fault.Works?))
            && (InFlight(ph) && ph'.Handled? ==> ph.AtUpdate? || ph.Writing?)
            && (ph'.Idle? || ph'.event == ph.event)
  {
    hide Plan;
  }

  lemma AdvanceTally(s: State, t: Topic, ph: Phase, store: Store, done: bool)
    requires Busy(PhaseOf(s, t))
    ensures var s' := Advance(s, t, ph, store, done); var e := PhaseOf(s, t).event;
            && s'.tally.applied == (if InFlight(PhaseOf(s, t)) && ph.Handled? then s.tally.applied + multiset{e}
                                    else s.tally.applied)
            && s'.tally.entered == (if SetsKey(PhaseOf(s, t), s.store.locks, done) then s.tally.entered + multiset{e}
                                    else s.tally.entered)
  {
  }

  /** One reader, after the reader of topic t has moved to phase ph. */
  lemma ReaderRowKept(s: State, s': State, t: Topic, ph: Phase, u: Topic, e: Event)
    requires Busy(PhaseOf(s, t)) && ReaderRow(s, t, e) && ReaderRow(s, u, e)
    requires PhaseOf(s', u) == if u == t then ph else PhaseOf(s, u)
    requires ph.Idle? || ph.event == PhaseOf(s, t).event
    requires e.eventId in s.store.history ==> e.eventId in s'.store.history
    requires e in s.tally.entered ==> e in s'.tally.entered
    requires InFlight(ph) ==> InFlight(PhaseOf(s, t)) || ph.event in s'.tally.entered
    requires ph.AtUpdate? || ph.Writing? ==>
               PhaseOf(s, t).AtUpdate? || PhaseOf(s, t).Writing? || ph.event.eventId in s'.store.history
    ensures ReaderRow(s', u, e)
  {
  }

  lemma {:induction false} RowDo(s0: Store, s: State, t: Topic, fault: Fault, e: Event)
    requires RowInv(s0, s, e) && Busy(PhaseOf(s, t))
    ensures RowInv(s0, DoStep(s, t, fault), e)
  {
    var s' := DoStep(s, t, fault);
    var (ph, store) := Step(PhaseOf(s, t), s.store, fault);
    StepHistory(PhaseOf(s, t), s.store, fault);
    StepShape(PhaseOf(s, t), s.store, fault);
    AdvancePhases(s, t, ph, store, !fault.Refused?);
    AdvanceTally(s, t, ph, store, !fault.Refused?);
    assert ReaderRow(s, t, e);
    assert s'.store == store;
    hide Step, DoStep, Advance, SetsKey;
    forall u ensures ReaderRow(s', u, e) {
      assert ReaderRow(s, u, e);
      hide ReaderRow;
      ReaderRowKept(s, s', t, ph, u, e);
    }
  }

  lemma SameRows(logs: Logs, s: State, l: Label)
    requires !(l.Do? && Busy(PhaseOf(s, l.topic)))
    ensures var s' := Next(logs, s, l);
            && s'.store.history == s.store.history && s'.tally.applied == s.tally.applied
            && s'.tally.entered == s.tally.entered && s'.store.locks <= s.store.locks
  {
    hide DoStep, Open;
  }

  lemma {:induction false} RowKept(logs: Logs, s0: Store, s: State, l: Label, e: Event)
    requires RowInv(s0, s, e) && OwnEventId(logs, e)
    ensures RowInv(s0, Next(logs, s, l), e)
  {
    if l.Do? && Busy(PhaseOf(s, l.topic)) {
      RowDo(s0, s, l.topic, l.fault, e);
    } else {
      var s' := Next(logs, s, l);
      SameRows(logs, s, l);
      hide Next, Step, Available;
      forall u ensures ReaderRow(s', u, e) {
        NextPhase(logs, s, l, u);
        assert ReaderRow(s, u, e);
        if l.Fetch? && Available(logs, s, l.part) && logs[l.part][Position(s, l.part)].Rec? {
          assert Holds(logs, l.part, Position(s, l.part), logs[l.part][Position(s, l.part)].event);
        }
      }
    }
  }

  lemma {:induction false} RunRow(logs: Logs, s0: Store, now: Nanos, ls: seq<Label>, e: Event)
    requires OwnEventId(logs, e) && (e.eventId in s0.history ==> s0.history[e.eventId] == e)
    ensures RowInv(s0, Run(logs, Init(s0, now), ls), e)
    decreases |ls|
  {
    if ls != [] {
      RunRow(logs, s0, now, ls[..|ls| - 1], e);
      RowKept(logs, s0, Run(logs, Init(s0, now), ls[..|ls| - 1]), ls[|ls| - 1], e);
    } else {
      forall t ensures ReaderRow(Init(s0, now), t, e) {
      }
    }
  }

  /** Applied exactly once, with its row in history. */
  predicate Done(s: State, e: Event) {
    s.tally.applied[e] == 1 && e.eventId in s.store.history && s.store.history[e.eventId] == e
  }

  /** The exact condition for an event to take effect, over every run, faults, crashes and other events
      with its message id included. Once its handlers have ended, an event that never came again after
      the key its own handler set had expired was applied exactly once, with its row in history, if and
      only if a handler of it set the key and no step lost it: no SetNX of one went unheard, and no
      handler of it past SetNX failed or was cut short. Otherwise it was not applied at all. */
  lemma AppliedIff(logs: Logs, s0: Store, now: Nanos, ls: seq<Label>, e: Event)
    requires OwnEventId(logs, e) && (e.eventId in s0.history ==> s0.history[e.eventId] == e)
    requires Timely(logs, Init(s0, now), ls, e)
    requires OpenOn(Run(logs, Init(s0, now), ls), e) == 0
    ensures var s := Run(logs, Init(s0, now), ls);
            && (Done(s, e) <==> (exists k :: SetsAt(logs, Init(s0, now), ls, k, e))
                                && !exists k :: LosesAt(logs, Init(s0, now), ls, k, e))
            && (!Done(s, e) ==> s.tally.applied[e] == 0)
            && ((forall k :: !SetsAt(logs, Init(s0, now), ls, k, e)) && e.eventId !in s0.history ==>
                  e.eventId !in s.store.history)
  {
    RunRow(logs, s0, now, ls, e);
    LostIff(logs, Init(s0, now), ls, e);
    AtMostOnce(logs, s0, now, ls, e);
    Conservation(logs, s0, now, ls, e);
  }

  ghost predicate SetterLogged(logs: Logs, s: State) {
    && (forall t :: Busy(PhaseOf(s, t)) ==> exists p, i :: Holds(logs, p, i, PhaseOf(s, t).event))
    && forall e :: e in s.tally.entered ==> exists p, i :: Holds(logs, p, i, e)
  }

  lemma LoggedPhase(logs: Logs, s: State, l: Label, t: Topic)
    requires Busy(PhaseOf(s, t)) ==> exists p, i :: Holds(logs, p, i, PhaseOf(s, t).event)
    requires Busy(PhaseOf(Next(logs, s, l), t))
    ensures exists p, i :: Holds(logs, p, i, PhaseOf(Next(logs, s, l), t).event)
  {
    hide Next, Step;
    NextPhase(logs, s, l, t);
    if l.Do? && Busy(PhaseOf(s, t)) {
      StepShape(PhaseOf(s, t), s.store, l.fault);
    }
    if l.Fetch? && Available(logs, s, l.part) && logs[l.part][Position(s, l.part)].Rec? {
      assert Holds(logs, l.part, Position(s, l.part), logs[l.part][Position(s, l.part)].event);
    }
  }

  lemma {:induction false} SettersAreLogged(logs: Logs, s0: Store, now: Nanos, ls: seq<Label>)
    ensures SetterLogged(logs, Run(logs, Init(s0, now), ls))
    decreases |ls|
  {
    if ls != [] {
      var s, l := Run(logs, Init(s0, now), ls[..|ls| - 1]), ls[|ls| - 1];
      var s' := Next(logs, s, l);
      SettersAreLogged(logs, s0, now, ls[..|ls| - 1]);
      forall e | e in s'.tally.entered ensures exists p, i :: Holds(logs, p, i, e) {
        EnteredStep(logs, s, l, e);
        assert e in s.tally.entered || Sets(s, l, e);
      }
      forall t | Busy(PhaseOf(s', t)) ensures exists p, i :: Holds(logs, p, i, PhaseOf(s', t).event) {
        LoggedPhase(logs, s, l, t);
      }
    }
  }

  /** If no other event uses its message id, the key being there at the end says that it was set. */
  lemma KeyTells(logs: Logs, s0: Store, now: Nanos, ls: seq<Label>, e: Event)
    requires OwnMessageId(logs, e) && e.messageId !in s0.locks
    requires e.messageId in Run(logs, Init(s0, now), ls).store.locks
    ensures exists k :: SetsAt(logs, Init(s0, now), ls, k, e)
  {
    var s := Run(logs, Init(s0, now), ls);
    KeyLastsAnHour(logs, s0, now, ls, e.messageId);
    WasSetIff(logs, s0, now, ls, e.messageId);
    SettersAreLogged(logs, s0, now, ls);
    var f :| f in s.tally.entered && f.messageId == e.messageId;
    assert f == e;
    LostIff(logs, Init(s0, now), ls, e);
  }

  // ---------------------------------------------------------------- exactly once

  /** The key of a record handed over was set by some handler, or its reader stands at the test. */
  ghost predicate RecordPassed(logs: Logs, s0: Store, s: State, p: Part, i: nat) {
    (p, i) in s.tally.handed && p in logs && i < |logs[p]| && logs[p][i].Rec? ==>
      logs[p][i].event.messageId in s0.locks || WasSet(s, logs[p][i].event.messageId)
      || PhaseOf(s, p.topic) == AtDedup(logs[p][i].event)
  }

  ghost predicate LockExplained(s0: Store, s: State, m: string) {
    m in s.store.locks ==> m in s0.locks || WasSet(s, m)
  }

  ghost predicate OnceInv(logs: Logs, s0: Store, s: State) {
    && s.tally.lost == multiset{}
    && (forall e :: s.tally.entered[e] <= 1)
    && (forall m :: LockExplained(s0, s, m))
    && (forall p, i: nat :: RecordPassed(logs, s0, s, p, i))
  }

  ghost predicate Decodable(logs: Logs) {
    forall p, i, e :: Holds(logs, p, i, e) ==> Readable(e)
  }

  ghost predicate ReaderDecodable(s: State, t: Topic) {
    Busy(PhaseOf(s, t)) ==> Readable(PhaseOf(s, t).event)
  }

  /** What a step without a fault does to the dedup keys. */
  ghost predicate LocksOwn(ph: Phase, s: Store, ph': Phase, s': Store)
    requires Busy(ph)
  {
    && !ph'.Idle? && !ph'.AtDedup?
    && s'.locks == (if ph.AtDedup? then s.locks + {ph.event.messageId} else s.locks)
    && (ph.AtDedup? ==> (ph'.AtHistory? <==> ph.event.messageId !in s.locks))
  }

  lemma GentleLocks(ph: Phase, s: Store)
    requires Busy(ph) && Readable(ph.event)
    ensures var (ph', s') := Step(ph, s, Works); LocksOwn(ph, s, ph', s')
  {
    assert forall c :: Exec(s, c).locks == s.locks;
    hide Exec;
  }

  lemma StaysSet(s: State, s': State, m: string)
    requires WasSet(s, m) && s.tally.entered <= s'.tally.entered
    ensures WasSet(s', m)
  {
    var e :| e in s.tally.entered && e.messageId == m;
    assert e in s'.tally.entered;
  }

  lemma AdvancePassed(logs: Logs, s0: Store, s: State, s': State, t: Topic, ph': Phase, p: Part, i: nat)
    requires RecordPassed(logs, s0, s, p, i) && Busy(PhaseOf(s, t)) && s'.tally.handed == s.tally.handed
    requires forall u :: PhaseOf(s', u) == if u == t then ph' else PhaseOf(s, u)
    requires forall m :: WasSet(s, m) ==> WasSet(s', m)
    requires var m := PhaseOf(s, t).event.messageId; PhaseOf(s, t).AtDedup? ==> m in s0.locks || WasSet(s', m)
    ensures RecordPassed(logs, s0, s', p, i)
  {
    hide WasSet, PhaseOf;
  }

  lemma EnteredOnceMore(y: multiset<Event>, e: Event, f: Event)
    requires y[f] <= 1 && e !in y
    ensures (y + multiset{e})[f] <= 1
  {
  }

  lemma {:induction false} AdvanceOnce(logs: Logs, s0: Store, s: State, t: Topic, ph': Phase, store: Store)
    requires OnceInv(logs, s0, s) && Busy(PhaseOf(s, t)) && LocksOwn(PhaseOf(s, t), s.store, ph', store)
    requires PhaseOf(s, t).AtDedup? ==> FindsOwnKey(s, PhaseOf(s, t).event)
    ensures OnceInv(logs, s0, Advance(s, t, ph', store, true))
  {
    var s' := Advance(s, t, ph', store, true);
    var e := PhaseOf(s, t).event;
    AdvancePhases(s, t, ph', store, true);
    AdvanceTally(s, t, ph', store, true);
    assert s'.store == store && s'.tally.handed == s.tally.handed && s'.tally.lost == s.tally.lost;
    hide Advance, PhaseOf, RecordPassed;
    if SetsKey(PhaseOf(s, t), s.store.locks, true) {
      assert e in s'.tally.entered && WasSet(s', e.messageId);
      forall f ensures s'.tally.entered[f] <= 1 {
        EnteredOnceMore(s.tally.entered, e, f);
      }
    }
    assert forall f :: s'.tally.entered[f] <= 1;
    forall m ensures WasSet(s, m) ==> WasSet(s', m) {
      if WasSet(s, m) {
        StaysSet(s, s', m);
      }
    }
    hide WasSet;
    forall m ensures LockExplained(s0, s', m) {
      assert LockExplained(s0, s, m);
    }
    assert LockExplained(s0, s, e.messageId);
    forall p, i: nat ensures RecordPassed(logs, s0, s', p, i) {
      assert RecordPassed(logs, s0, s, p, i);
      AdvancePassed(logs, s0, s, s', t, ph', p, i);
    }
  }

  lemma DoOnce(logs: Logs, s0: Store, s: State, t: Topic)
    requires OnceInv(logs, s0, s) && Busy(PhaseOf(s, t)) && ReaderDecodable(s, t)
    requires PhaseOf(s, t).AtDedup? ==> FindsOwnKey(s, PhaseOf(s, t).event)
    ensures OnceInv(logs, s0, DoStep(s, t, Works))
  {
    hide Step, OnceInv, LocksOwn;
    GentleLocks(PhaseOf(s, t), s.store);
    var (ph', store) := Step(PhaseOf(s, t), s.store, Works);
    AdvanceOnce(logs, s0, s, t, ph', store);
  }

  lemma SameSet(s: State, s': State, m: string)
    requires s'.tally.entered == s.tally.entered
    ensures WasSet(s', m) == WasSet(s, m)
  {
  }

  lemma NothingOpen(s: State)
    requires forall u :: !Busy(PhaseOf(s, u))
    ensures Open(s) == multiset{}
  {
    assert forall u :: Doomed(PhaseOf(s, u)) == multiset{};
    hide Doomed, PhaseOf;
  }

  lemma SteadyLoses(logs: Logs, s: State, lb: Label)
    requires SteadyStep(s, lb) && !(lb.Do? && Busy(PhaseOf(s, lb.topic)))
    ensures Next(logs, s, lb).tally.lost == s.tally.lost
  {
    if lb.Crash? {
      NothingOpen(s);
    }
    hide DoStep, Open;
  }

  lemma PassedKept(logs: Logs, s0: Store, s: State, lb: Label, p: Part, i: nat)
    requires RecordPassed(logs, s0, s, p, i) && SteadyStep(s, lb) && !(lb.Do? && Busy(PhaseOf(s, lb.topic)))
    requires forall m :: WasSet(Next(logs, s, lb), m) == WasSet(s, m)
    ensures RecordPassed(logs, s0, Next(logs, s, lb), p, i)
  {
    hide DoStep, WasSet, Open, Purge;
  }

  lemma OnceKept(logs: Logs, s0: Store, s: State, lb: Label)
    requires OnceInv(logs, s0, s) && SteadyStep(s, lb) && forall t :: ReaderDecodable(s, t)
    ensures OnceInv(logs, s0, Next(logs, s, lb))
  {
    var s' := Next(logs, s, lb);
    if lb.Do? && Busy(PhaseOf(s, lb.topic)) {
      DoOnce(logs, s0, s, lb.topic);
    } else {
      SameRows(logs, s, lb);
      SteadyLoses(logs, s, lb);
      hide Next, SteadyStep, WasSet, RecordPassed;
      forall m ensures WasSet(s', m) == WasSet(s, m) {
        SameSet(s, s', m);
      }
      forall m ensures LockExplained(s0, s', m) {
        assert LockExplained(s0, s, m);
      }
      forall p, i: nat ensures RecordPassed(logs, s0, s', p, i) {
        assert RecordPassed(logs, s0, s, p, i);
        PassedKept(logs, s0, s, lb, p, i);
      }
    }
  }

  lemma {:induction false} DecodableKept(logs: Logs, s: State, lb: Label, t: Topic)
    requires Decodable(logs) && ReaderDecodable(s, t)
    ensures ReaderDecodable(Next(logs, s, lb), t)
  {
    hide Next, Step;
    NextPhase(logs, s, lb, t);
    if lb.Do? && Busy(PhaseOf(s, t)) {
      StepShape(PhaseOf(s, t), s.store, lb.fault);
    } else if lb.Fetch? && Available(logs, s, lb.part) && logs[lb.part][Position(s, lb.part)].Rec? {
      assert Holds(logs, lb.part, Position(s, lb.part), logs[lb.part][Position(s, lb.part)].event);
    }
  }

  lemma {:induction false} RunOnce(logs: Logs, s0: Store, now: Nanos, ls: seq<Label>)
    requires Decodable(logs) && Steady(logs, Init(s0, now), ls)
    ensures OnceInv(logs, s0, Run(logs, Init(s0, now), ls))
    ensures forall t :: ReaderDecodable(Run(logs, Init(s0, now), ls), t)
    decreases |ls|
  {
    if ls != [] {
      var s := Run(logs, Init(s0, now), ls[..|ls| - 1]);
      RunOnce(logs, s0, now, ls[..|ls| - 1]);
      OnceKept(logs, s0, s, ls[|ls| - 1]);
      var s' := Next(logs, s, ls[|ls| - 1]);
      forall t ensures ReaderDecodable(s', t) {
        assert ReaderDecodable(s, t);
        DecodableKept(logs, s, ls[|ls| - 1], t);
      }
    }
  }

  /** Exactly once, event by event, over steady runs of any length: with crashes only between a handler's
      end and its commit, any number of failed commits, and redeliveries that come before the key has
      expired. When the handlers come to rest, an event that was handed over has been applied exactly
      once, with its row in history, if and only if a handler of it set the key, however often it was
      fetched. If none did, a handler of another event with the same message id had set it before, and
      the event was dropped, no fault occurring. So an event whose message id is its own always is. */
  lemma ExactlyOnce(logs: Logs, s0: Store, now: Nanos, ls: seq<Label>, p: Part, i: nat, e: Event)
    requires Decodable(logs) && Steady(logs, Init(s0, now), ls)
    requires forall t :: !Busy(PhaseOf(Run(logs, Init(s0, now), ls), t))
    requires Holds(logs, p, i, e) && (p, i) in Run(logs, Init(s0, now), ls).tally.handed
    requires OwnEventId(logs, e) && e.messageId !in s0.locks && e.eventId !in s0.history
    ensures var s := Run(logs, Init(s0, now), ls);
            && (Done(s, e) <==> exists k :: SetsAt(logs, Init(s0, now), ls, k, e))
            && (!Done(s, e) ==>
                  && s.tally.applied[e] == 0 && e.eventId !in s.store.history
                  && exists k, f :: f != e && f.messageId == e.messageId && SetsAt(logs, Init(s0, now), ls, k, f))
            && (OwnMessageId(logs, e) ==> Done(s, e))
  {
    var s := Run(logs, Init(s0, now), ls);
    RunOnce(logs, s0, now, ls);
    Conservation(logs, s0, now, ls, e);
    RunRow(logs, s0, now, ls, e);
    LostIff(logs, Init(s0, now), ls, e);
    assert RecordPassed(logs, s0, s, p, i);
    if e !in s.tally.entered {
      var f :| f in s.tally.entered && f.messageId == e.messageId;
      LostIff(logs, Init(s0, now), ls, f);
      SettersAreLogged(logs, s0, now, ls);
    }
  }

  // ---------------------------------------------------------------- where the promise ends

  const PART := Part(HeartbeatTopic, 0)
  const BEAT := Event("e", "m", "c", 0, 0, 0, Heartbeat)
  const ONE_BEAT: Logs := map[PART := [Rec(BEAT)]]

  const GO := Do(HeartbeatTopic, Works)
  const FAIL := Do(HeartbeatTopic, Refused)
  const MISS := Do(HeartbeatTopic, Unheard)
  const DONE := Commit(HeartbeatTopic, true)

  lemma Passes(a1: State, a2: State)
    requires a1 == Next(ONE_BEAT, Init(EMPTY, 0), Fetch(PART)) && a2 == Next(ONE_BEAT, a1, GO)
    ensures PhaseOf(a2, HeartbeatTopic) == AtHistory(BEAT) && a2.store == Lock(EMPTY, "m")
    ensures a2.tally.applied == multiset{} && a2.committed == map[]
  {
    assert PhaseOf(a1, HeartbeatTopic) == AtDedup(BEAT) && a1.store == EMPTY;
  }

  lemma CutShort(a1: State, a2: State, a3: State, a4: State)
    requires a1 == Next(ONE_BEAT, Init(EMPTY, 0), Fetch(PART)) && a2 == Next(ONE_BEAT, a1, GO)
    requires a3 == Next(ONE_BEAT, a2, FAIL) && a4 == Next(ONE_BEAT, a3, Crash)
    ensures a4.readers == map[] && a4.position == a4.committed == map[]
    ensures a4.store == Lock(EMPTY, "m") && a4.tally.applied == multiset{}
  {
    Passes(a1, a2);
    hide Open, Init, Lock;
    assert PhaseOf(a3, HeartbeatTopic) == Idle && a3.store == a2.store;
    assert a3.tally.applied == multiset{} && a3.committed == map[];
  }

  lemma SkippedAsDuplicate(a4: State, a5: State, a6: State, a7: State)
    requires a4.readers == map[] && a4.position == map[]
    requires a4.store == Lock(EMPTY, "m") && a4.tally.applied == multiset{}
    requires a5 == Next(ONE_BEAT, a4, Fetch(PART)) && a6 == Next(ONE_BEAT, a5, GO) && a7 == Next(ONE_BEAT, a6, DONE)
    ensures Committed(a7, PART) == 1 && a7.tally.applied == multiset{} && a7.store.history == map[]
  {
    assert ReaderOf(a5, HeartbeatTopic) == Reader(AtDedup(BEAT), PART, 0) && a5.store == a4.store;
    assert ReaderOf(a6, HeartbeatTopic) == Reader(Handled(BEAT), PART, 0) && a6.store == a4.store;
  }

  /** A failure after the dedup test loses the event: on redelivery it counts as a duplicate and
      its offset is committed. */
  lemma FailureLosesEvent()
    ensures exists ls ::
              var s := Run(ONE_BEAT, Init(EMPTY, 0), ls);
              Committed(s, PART) == 1 && s.tally.applied == multiset{} && s.store.history == map[]
  {
    var a0 := Init(EMPTY, 0);
    var ls4, a1, a2, a3, a4 := RunOf4(ONE_BEAT, a0, Fetch(PART), GO, FAIL, Crash);
    CutShort(a1, a2, a3, a4);
    var ls7, a5, a6, a7 := RunOf3More(ONE_BEAT, a0, ls4, Fetch(PART), GO, DONE);
    SkippedAsDuplicate(a4, a5, a6, a7);
  }

  lemma Missed(a1: State, a2: State, a3: State)
    requires a1 == Next(ONE_BEAT, Init(EMPTY, 0), Fetch(PART)) && a2 == Next(ONE_BEAT, a1, MISS)
    requires a3 == Next(ONE_BEAT, a2, Crash)
    ensures a3.readers == map[] && a3.position == map[]
    ensures a3.store == Lock(EMPTY, "m") && a3.tally.applied == multiset{}
  {
    assert PhaseOf(a1, HeartbeatTopic) == AtDedup(BEAT) && a1.store == EMPTY;
    assert PhaseOf(a2, HeartbeatTopic) == Idle && a2.store == Lock(EMPTY, "m");
  }

  /** So does losing the answer to the SetNX itself. */
  lemma UnheardLosesEvent()
    ensures exists ls ::
              var s := Run(ONE_BEAT, Init(EMPTY, 0), ls);
              Committed(s, PART) == 1 && s.tally.applied == multiset{} && s.store.history == map[]
  {
    var a0 := Init(EMPTY, 0);
    var ls3, a1, a2, a3 := RunOf3More(ONE_BEAT, a0, [], Fetch(PART), MISS, Crash);
    Missed(a1, a2, a3);
    var ls6, a4, a5, a6 := RunOf3More(ONE_BEAT, a0, ls3, Fetch(PART), GO, DONE);
    SkippedAsDuplicate(a3, a4, a5, a6);
  }
}
