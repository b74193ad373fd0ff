/** The dedup keys, over every run: faults, crashes, redeliveries, expiries and readers racing on one
    message id included. */
module Dedup {
  import opened Domain
  import opened Store
  import opened Handler
  import opened Machine

  // ---------------------------------------------------------------- conservation

  function Count(ph: Phase, e: Event): nat {
    if InFlight(ph) && ph.event == e then 1 else 0
  }

  /** How many handlers are between the dedup test and their end on event e. */
  function OpenOn(s: State, e: Event): nat {
    Count(PhaseOf(s, BootTopic), e) + Count(PhaseOf(s, StatusTopic), e) + Count(PhaseOf(s, MeterTopic), e)
    + Count(PhaseOf(s, TxTopic), e) + Count(PhaseOf(s, HeartbeatTopic), e)
  }

  /** Every setting of a dedup key ends in exactly one of: applied, lost, still open. */
  ghost predicate BalancedAt(s: State, e: Event) {
    s.tally.entered[e] == s.tally.applied[e] + s.tally.lost[e] + OpenOn(s, e)
  }

  lemma CountOfSum(a: multiset<Event>, b: multiset<Event>, c: multiset<Event>, d: multiset<Event>, f: multiset<Event>,
                   e: Event)
    ensures (a + b + c + d + f)[e] == a[e] + b[e] + c[e] + d[e] + f[e]
  {
  }

  lemma DoomedCount(ph: Phase, e: Event)
    ensures Doomed(ph)[e] == Count(ph, e)
  {
  }

  lemma OpenCount(s: State, e: Event)
    ensures Open(s)[e] == OpenOn(s, e)
  {
    CountOfSum(Doomed(PhaseOf(s, BootTopic)), Doomed(PhaseOf(s, StatusTopic)), Doomed(PhaseOf(s, MeterTopic)),
               Doomed(PhaseOf(s, TxTopic)), Doomed(PhaseOf(s, HeartbeatTopic)), e);
    DoomedCount(PhaseOf(s, BootTopic), e);
    DoomedCount(PhaseOf(s, StatusTopic), e);
    DoomedCount(PhaseOf(s, MeterTopic), e);
    DoomedCount(PhaseOf(s, TxTopic), e);
    DoomedCount(PhaseOf(s, HeartbeatTopic), e);
  }

  lemma OpenAfter(s: State, s': State, t: Topic, e: Event)
    requires forall u :: u != t ==> PhaseOf(s', u) == PhaseOf(s, u)
    ensures OpenOn(s', e) + Count(PhaseOf(s, t), e) == OpenOn(s, e) + Count(PhaseOf(s', t), e)
  {
    assert t == BootTopic || t == StatusTopic || t == MeterTopic || t == TxTopic || t == HeartbeatTopic;
  }

  lemma AdvancePhases(s: State, t: Topic, ph: Phase, store: Store, done: bool)
    requires Busy(PhaseOf(s, t))
    ensures forall u :: PhaseOf(Advance(s, t, ph, store, done), u) == if u == t then ph else PhaseOf(s, u)
  {
  }

  lemma StepShape(ph: Phase, s: Store, fault: Fault)
    requires Busy(ph)
    ensures var ph' := Step(ph, s, fault).0;
            && (ph'.Idle? || ph'.event == ph.event)
            && (SetsKey(ph, s.locks, !fault.Refused?) ==> ph'.AtHistory? || ph'.Idle?)
            && (InFlight(ph') ==> InFlight(ph) || SetsKey(ph, s.locks, !fault.Refused?))
            && (InFlight(ph) && !InFlight(ph') ==> ph'.Idle? || ph'.Handled?)
  {
  }

  lemma DoTally(y: Tally, ph: Phase, ph': Phase, enters: bool, at: (Part, nat), now: Nanos, e: Event)
    requires Busy(ph) && (ph'.Idle? || ph'.event == ph.event)
    requires enters ==> ph.AtDedup? && (ph'.AtHistory? || ph'.Idle?)
    requires InFlight(ph') ==> InFlight(ph) || enters
    requires InFlight(ph) && !InFlight(ph') ==> ph'.Idle? || ph'.Handled?
    ensures var y' := TallyAfter(y, ph, ph', enters, at, now);
            y'.entered[e] + y.applied[e] + y.lost[e] + Count(ph, e)
            == y.entered[e] + y'.applied[e] + y'.lost[e] + Count(ph', e)
  {
  }

  lemma AdvanceBalanced(s: State, t: Topic, ph': Phase, store: Store, done: bool, e: Event)
    requires Busy(PhaseOf(s, t)) && BalancedAt(s, e)
    requires ph'.Idle? || ph'.event == PhaseOf(s, t).event
    requires SetsKey(PhaseOf(s, t), s.store.locks, done) ==> ph'.AtHistory? || ph'.Idle?
    requires InFlight(ph') ==> InFlight(PhaseOf(s, t)) || SetsKey(PhaseOf(s, t), s.store.locks, done)
    requires InFlight(PhaseOf(s, t)) && !InFlight(ph') ==> ph'.Idle? || ph'.Handled?
    ensures BalancedAt(Advance(s, t, ph', store, done), e)
  {
    var s' := Advance(s, t, ph', store, done);
    var r := ReaderOf(s, t);
    AdvancePhases(s, t, ph', store, done);
    OpenAfter(s, s', t, e);
    DoTally(s.tally, r.phase, ph', SetsKey(r.phase, s.store.locks, done), (r.part, r.offset), s.clock, e);
  }

  lemma SameOpen(s: State, s': State, e: Event)
    requires BalancedAt(s, e)
    requires forall u :: InFlight(PhaseOf(s', u)) == InFlight(PhaseOf(s, u))
                         && (InFlight(PhaseOf(s, u)) ==> PhaseOf(s', u) == PhaseOf(s, u))
    requires s'.tally.entered == s.tally.entered && s'.tally.applied == s.tally.applied && s'.tally.lost == s.tally.lost
    ensures BalancedAt(s', e)
  {
    forall u ensures Count(PhaseOf(s', u), e) == Count(PhaseOf(s, u), e) {
    }
  }

  lemma CrashBalanced(s: State, e: Event)
    requires BalancedAt(s, e)
    ensures BalancedAt(CrashStep(s), e)
  {
    OpenCount(s, e);
    assert CrashStep(s).tally.lost[e] == s.tally.lost[e] + Open(s)[e];
  }

  lemma NextBalanced(logs: Logs, s: State, lb: Label, e: Event)
    requires BalancedAt(s, e)
    ensures BalancedAt(Next(logs, s, lb), e)
  {
    if Enabled(logs, s, lb) {
      match lb
      case Do(t, fault) =>
        var (ph, store) := Step(PhaseOf(s, t), s.store, fault);
        StepShape(PhaseOf(s, t), s.store, fault);
        AdvanceBalanced(s, t, ph, store, !fault.Refused?, e);
      case Fetch(p) => SameOpen(s, FetchStep(logs, s, p), e);
      case Commit(t, ok) => SameOpen(s, CommitStep(s, t, ok), e);
      case Crash => CrashBalanced(s, e);
      case Tick(d) => SameOpen(s, TickStep(s, d), e);
    }
  }

  /** No event whose dedup key was set is unaccounted for, in any run. */
  lemma {:induction false} Conservation(logs: Logs, s0: Store, now: Nanos, ls: seq<Label>, e: Event)
    ensures BalancedAt(Run(logs, Init(s0, now), ls), e)
    decreases |ls|
  {
    if ls != [] {
      Conservation(logs, s0, now, ls[..|ls| - 1], e);
      NextBalanced(logs, Run(logs, Init(s0, now), ls[..|ls| - 1]), ls[|ls| - 1], e);
    }
  }

  // ---------------------------------------------------------------- an hour apart

  ghost predicate OnlyTxLifetimes(cmds: seq<Cmd>) {
    forall c :: c in cmds ==> (c.Expire? || c.Del? ==> c.key.TxKey?)
  }

  lemma {:induction false} PlanTxLifetimes(e: Event, s: Store, readFails: bool)
    ensures var d := Plan(e, s, readFails); d.Write? ==> OnlyTxLifetimes(d.cmds)
  {
    hide SessionOf, StatusFields, MeterFields, BootFields, TxFields, SeenOnline, LastSeenOf, Stale;
  }

  ghost predicate ReaderTxLifetimes(s: State, t: Topic) {
    PhaseOf(s, t).Writing? ==> OnlyTxLifetimes(PhaseOf(s, t).cmds)
  }

  /** While its hour lasts, an entry's dedup key is there and will stay to the end of the hour. */
  ghost predicate Guarded(s: State, n: Entry) {
    && n.at <= s.clock
    && (s.clock < n.at + HOUR ==>
          n.event.messageId in s.store.locks && DedupKey(n.event.messageId) in s.ttl
          && s.ttl[DedupKey(n.event.messageId)] >= n.at + HOUR)
  }

  /** Set for this id less than 3600 seconds ago. */
  predicate Young(s: State, n: Entry, m: string) {
    n.event.messageId == m && s.clock < n.at + 3600 * 1_000_000_000
  }

  /** A dedup key that is there was there from the start, without a lifetime, or was set less than
      an hour ago and has just the rest of its hour to live. */
  ghost predicate Owed(s0: Store, s: State, m: string) {
    if m in s0.locks then m in s.store.locks && DedupKey(m) !in s.ttl
    else
      m in s.store.locks ==>
        DedupKey(m) in s.ttl
        && exists n :: n in s.tally.entries && Young(s, n, m) && s.ttl[DedupKey(m)] == n.at + HOUR
  }

  ghost predicate Spaced(ns: seq<Entry>) {
    forall i, j ::
      0 <= i < j < |ns| && ns[i].event.messageId == ns[j].event.messageId ==>
        ns[j].at >= ns[i].at + 3600 * 1_000_000_000
  }

  ghost predicate DedupInv(s0: Store, s: State) {
    && (forall t :: ReaderTxLifetimes(s, t))
    && (forall n :: n in s.tally.entries ==> Guarded(s, n))
    && (forall m :: Owed(s0, s, m))
    && Spaced(s.tally.entries)
  }

  lemma StepLifetimes(ph: Phase, s: Store, fault: Fault)
    requires ph.Writing? ==> OnlyTxLifetimes(ph.cmds)
    ensures var ph' := Step(ph, s, fault).0; ph'.Writing? ==> OnlyTxLifetimes(ph'.cmds)
    ensures Step(ph, s, fault).1.locks ==
              if SetsKey(ph, s.locks, !fault.Refused?) then s.locks + {ph.event.messageId} else s.locks
  {
    if ph.AtUpdate? {
      PlanTxLifetimes(ph.event, s, !fault.Works? && Reads(ph.event.body));
    }
  }

  lemma DedupTtl(ttl: map<Key, Nanos>, ph: Phase, s: Store, now: Nanos, m: string)
    requires ph.Writing? ==> OnlyTxLifetimes(ph.cmds)
    ensures var ttl' := TtlAfter(ttl, ph, s, now); var k := DedupKey(m);
            if ph.AtDedup? && ph.event.messageId == m && m !in s.locks then k in ttl' && ttl'[k] == now + HOUR
            else (k in ttl' <==> k in ttl) && (k in ttl ==> ttl'[k] == ttl[k])
  {
    if ph.Writing? && ph.cmds != [] {
      assert ph.cmds[0] in ph.cmds;
    }
  }

  lemma AdvanceOwed(s0: Store, s: State, t: Topic, ph: Phase, store: Store, done: bool, m: string)
    requires Busy(PhaseOf(s, t)) && DedupInv(s0, s)
    requires store.locks == if SetsKey(PhaseOf(s, t), s.store.locks, done)
                            then s.store.locks + {PhaseOf(s, t).event.messageId} else s.store.locks
    ensures Owed(s0, Advance(s, t, ph, store, done), m)
  {
    var s' := Advance(s, t, ph, store, done);
    var ns := s.tally.entries;
    assert Owed(s0, s, m) && ReaderTxLifetimes(s, t);
    DedupTtl(s.ttl, PhaseOf(s, t), s.store, s.clock, m);
    if SetsKey(PhaseOf(s, t), s.store.locks, done) && PhaseOf(s, t).event.messageId == m {
      assert s'.tally.entries[|ns|] in s'.tally.entries;
    } else if m !in s0.locks && m in s.store.locks {
      var n :| n in ns && Young(s, n, m) && s.ttl[DedupKey(m)] == n.at + HOUR;
      assert n in s'.tally.entries && Young(s', n, m);
    }
  }

  lemma AdvanceDedup(s0: Store, s: State, t: Topic, ph: Phase, store: Store, done: bool)
    requires Busy(PhaseOf(s, t)) && DedupInv(s0, s)
    requires ph.Writing? ==> OnlyTxLifetimes(ph.cmds)
    requires store.locks == if SetsKey(PhaseOf(s, t), s.store.locks, done)
                            then s.store.locks + {PhaseOf(s, t).event.messageId} else s.store.locks
    ensures DedupInv(s0, Advance(s, t, ph, store, done))
  {
    hide Owed;
    var s' := Advance(s, t, ph, store, done);
    AdvancePhases(s, t, ph, store, done);
    assert ReaderTxLifetimes(s, t);
    forall u ensures ReaderTxLifetimes(s', u) {
      assert ReaderTxLifetimes(s, u);
    }
    forall n | n in s'.tally.entries ensures Guarded(s', n) {
      assert n in s.tally.entries ==> Guarded(s, n);
      DedupTtl(s.ttl, PhaseOf(s, t), s.store, s.clock, n.event.messageId);
    }
    forall m ensures Owed(s0, s', m) {
      AdvanceOwed(s0, s, t, ph, store, done, m);
    }
    if SetsKey(PhaseOf(s, t), s.store.locks, done) {
      forall n | n in s.tally.entries && n.event.messageId == PhaseOf(s, t).event.messageId
        ensures s.clock >= n.at + HOUR
      {
        assert Guarded(s, n);
      }
    }
  }

  lemma TickDedup(s0: Store, s: State, d: nat)
    requires DedupInv(s0, s)
    ensures DedupInv(s0, TickStep(s, d))
  {
    var s' := TickStep(s, d);
    forall u ensures ReaderTxLifetimes(s', u) {
      assert ReaderTxLifetimes(s, u);
    }
    forall n | n in s'.tally.entries ensures Guarded(s', n) {
      assert Guarded(s, n);
    }
    forall m ensures Owed(s0, s', m) {
      assert Owed(s0, s, m);
      if m !in s0.locks && m in s'.store.locks {
        var n :| n in s.tally.entries && Young(s, n, m) && s.ttl[DedupKey(m)] == n.at + HOUR;
        assert n in s'.tally.entries && Young(s', n, m);
      }
    }
  }

  lemma SameDedup(s0: Store, s: State, s': State)
    requires DedupInv(s0, s)
    requires s'.store == s.store && s'.ttl == s.ttl && s'.clock == s.clock && s'.tally.entries == s.tally.entries
    requires forall t :: !PhaseOf(s', t).Writing? || PhaseOf(s', t) == PhaseOf(s, t)
    ensures DedupInv(s0, s')
  {
    forall u ensures ReaderTxLifetimes(s', u) {
      assert ReaderTxLifetimes(s, u);
    }
    forall n | n in s'.tally.entries ensures Guarded(s', n) {
      assert Guarded(s, n);
    }
    forall m ensures Owed(s0, s', m) {
      assert Owed(s0, s, m);
      if m !in s0.locks && m in s'.store.locks {
        var n :| n in s.tally.entries && Young(s, n, m) && s.ttl[DedupKey(m)] == n.at + HOUR;
        assert n in s'.tally.entries && Young(s', n, m);
      }
    }
  }

  lemma DedupKept(logs: Logs, s0: Store, s: State, lb: Label)
    requires DedupInv(s0, s)
    ensures DedupInv(s0, Next(logs, s, lb))
  {
    if Enabled(logs, s, lb) {
      match lb
      case Do(t, fault) =>
        assert ReaderTxLifetimes(s, t);
        StepLifetimes(PhaseOf(s, t), s.store, fault);
        var (ph, store) := Step(PhaseOf(s, t), s.store, fault);
        hide Step, DedupInv;
        AdvanceDedup(s0, s, t, ph, store, !fault.Refused?);
      case Tick(d) => TickDedup(s0, s, d);
      case Fetch(p) => SameDedup(s0, s, FetchStep(logs, s, p));
      case Commit(t, ok) => SameDedup(s0, s, CommitStep(s, t, ok));
      case Crash => SameDedup(s0, s, CrashStep(s));
    }
  }

  /** The dedup key of one message id is never set twice within an hour, whatever fails and
      whichever readers race. */
  lemma {:induction false} HourApart(logs: Logs, s0: Store, now: Nanos, ls: seq<Label>)
    ensures DedupInv(s0, Run(logs, Init(s0, now), ls))
    ensures Spaced(Run(logs, Init(s0, now), ls).tally.entries)
    decreases |ls|
  {
    if ls != [] {
      HourApart(logs, s0, now, ls[..|ls| - 1]);
      DedupKept(logs, s0, Run(logs, Init(s0, now), ls[..|ls| - 1]), ls[|ls| - 1]);
    }
  }

  /** In every run: a dedup key the run itself set is there exactly during the hour after it was set. */
  lemma KeyLastsAnHour(logs: Logs, s0: Store, now: Nanos, ls: seq<Label>, m: string)
    requires m !in s0.locks
    ensures var s := Run(logs, Init(s0, now), ls);
            m in s.store.locks <==> exists n :: n in s.tally.entries && Young(s, n, m)
  {
    var s := Run(logs, Init(s0, now), ls);
    HourApart(logs, s0, now, ls);
    assert Owed(s0, s, m);
    forall n | n in s.tally.entries && Young(s, n, m) ensures m in s.store.locks {
      assert Guarded(s, n);
    }
  }

  // ---------------------------------------------------------------- how often a key is set

  function Ids(ns: seq<Entry>): multiset<string> {
    if ns == [] then multiset{} else Ids(ns[..|ns| - 1]) + multiset{ns[|ns| - 1].event.messageId}
  }

  function Setters(ns: seq<Entry>): multiset<Event> {
    if ns == [] then multiset{} else Setters(ns[..|ns| - 1]) + multiset{ns[|ns| - 1].event}
  }

  ghost predicate Recorded(s: State, now: Nanos) {
    && s.tally.entered == Setters(s.tally.entries)
    && now <= s.clock
    && (forall n :: n in s.tally.entries ==> now <= n.at <= s.clock)
  }

  lemma RecordedKept(logs: Logs, s: State, lb: Label, now: Nanos)
    requires Recorded(s, now)
    ensures Recorded(Next(logs, s, lb), now)
  {
    var ns, ns' := s.tally.entries, Next(logs, s, lb).tally.entries;
    assert ns' == ns || (|ns'| == |ns| + 1 && ns'[..|ns'| - 1] == ns);
  }

  lemma {:induction false} RunRecorded(logs: Logs, s0: Store, now: Nanos, ls: seq<Label>)
    ensures Recorded(Run(logs, Init(s0, now), ls), now)
    decreases |ls|
  {
    if ls != [] {
      RunRecorded(logs, s0, now, ls[..|ls| - 1]);
      RecordedKept(logs, Run(logs, Init(s0, now), ls[..|ls| - 1]), ls[|ls| - 1], now);
    }
  }

  lemma EntrySnoc(ns: seq<Entry>, e: Event)
    requires ns != []
    ensures var front, last := ns[..|ns| - 1], ns[|ns| - 1].event;
            && Setters(ns)[e] == Setters(front)[e] + (if last == e then 1 else 0)
            && Ids(ns)[e.messageId] == Ids(front)[e.messageId] + if last.messageId == e.messageId then 1 else 0
  {
  }

  lemma {:induction false} HasEntry(ns: seq<Entry>, e: Event)
    ensures Setters(ns)[e] > 0 <==> exists n :: n in ns && n.event == e
    ensures Setters(ns)[e] <= Ids(ns)[e.messageId]
    decreases |ns|
  {
    if ns != [] {
      HasEntry(ns[..|ns| - 1], e);
      EntrySnoc(ns, e);
      hide Setters, Ids;
      assert ns == ns[..|ns| - 1] + [ns[|ns| - 1]];
      assert forall n :: n in ns <==> n in ns[..|ns| - 1] || n == ns[|ns| - 1];
    }
  }

  /** The key of this id was set in the run, by the handler of some event. */
  ghost predicate WasSet(s: State, m: string) {
    exists e :: e in s.tally.entered && e.messageId == m
  }

  lemma WasSetIff(logs: Logs, s0: Store, now: Nanos, ls: seq<Label>, m: string)
    ensures var s := Run(logs, Init(s0, now), ls);
            WasSet(s, m) <==> exists n :: n in s.tally.entries && n.event.messageId == m
  {
    var s := Run(logs, Init(s0, now), ls);
    RunRecorded(logs, s0, now, ls);
    if e :| e in s.tally.entered && e.messageId == m {
      HasEntry(s.tally.entries, e);
    }
    if n :| n in s.tally.entries && n.event.messageId == m {
      HasEntry(s.tally.entries, n.event);
    }
  }

  /** The c-th setting of a key, after `now`, each an hour after the last. */
  predicate HoursIn(n: Entry, m: string, now: Nanos, c: nat) {
    n.event.messageId == m && c > 0 && now + (c - 1) * HOUR <= n.at
  }

  lemma AnotherHour(n: Entry, n': Entry, m: string, now: Nanos, c: nat)
    requires HoursIn(n, m, now, c) && n'.event.messageId == m && n'.at >= n.at + HOUR
    ensures HoursIn(n', m, now, c + 1)
  {
  }

  lemma FirstHour(n: Entry, m: string, now: Nanos, c: nat)
    ensures HoursIn(n, m, now, c) ==> n.event.messageId == m
    ensures n.event.messageId == m && now <= n.at ==> HoursIn(n, m, now, 1)
  {
  }

  lemma {:induction false} SpacedIds(ns: seq<Entry>, now: Nanos, m: string)
    requires Spaced(ns) && forall n :: n in ns ==> now <= n.at
    ensures Ids(ns)[m] > 0 ==> exists i :: 0 <= i < |ns| && HoursIn(ns[i], m, now, Ids(ns)[m])
    decreases |ns|
  {
    if ns != [] {
      hide HoursIn;
      var before, last := ns[..|ns| - 1], ns[|ns| - 1];
      SpacedIds(before, now, m);
      if Ids(before)[m] > 0 {
        var i :| 0 <= i < |before| && HoursIn(before[i], m, now, Ids(before)[m]);
        assert ns[i] == before[i] && Ids(ns)[m] == Ids(before)[m] + if last.event.messageId == m then 1 else 0;
        if last.event.messageId == m {
          assert before[i].event.messageId == m by {
            FirstHour(before[i], m, now, Ids(before)[m]);
          }
          AnotherHour(before[i], last, m, now, Ids(before)[m]);
          assert HoursIn(ns[|ns| - 1], m, now, Ids(ns)[m]);
        }
      } else if last.event.messageId == m {
        assert last in ns && Ids(ns)[m] == 1;
        FirstHour(last, m, now, 1);
        assert HoursIn(ns[|ns| - 1], m, now, Ids(ns)[m]);
      }
    }
  }

  lemma HoursElapsed(n: Entry, m: string, now: Nanos, c: nat, clock: Nanos)
    requires HoursIn(n, m, now, c) && n.at <= clock
    ensures (c - 1) * HOUR <= clock - now
  {
  }

  lemma IdsBound(ns: seq<Entry>, now: Nanos, clock: Nanos, m: string)
    requires Spaced(ns) && forall n :: n in ns ==> now <= n.at <= clock
    ensures Ids(ns)[m] > 0 ==> (Ids(ns)[m] - 1) * HOUR <= clock - now
  {
    SpacedIds(ns, now, m);
    hide HoursIn, Spaced, Ids;
    if Ids(ns)[m] > 0 {
      var i :| 0 <= i < |ns| && HoursIn(ns[i], m, now, Ids(ns)[m]);
      assert ns[i] in ns;
      HoursElapsed(ns[i], m, now, Ids(ns)[m], clock);
    }
  }

  /** In every run, whatever fails, the key of one id is set at most once for every hour begun, and
      events take effect only as often as their own handlers have set it. */
  lemma OncePerHour(logs: Logs, s0: Store, now: Nanos, ls: seq<Label>, m: string)
    ensures var s := Run(logs, Init(s0, now), ls);
            && s.tally.applied <= s.tally.entered == Setters(s.tally.entries)
            && (Ids(s.tally.entries)[m] > 0 ==>
                  (Ids(s.tally.entries)[m] - 1) * (3600 * 1_000_000_000) <= s.clock - now)
  {
    var s := Run(logs, Init(s0, now), ls);
    HourApart(logs, s0, now, ls);
    RunRecorded(logs, s0, now, ls);
    forall e ensures s.tally.applied[e] <= s.tally.entered[e] {
      Conservation(logs, s0, now, ls, e);
    }
    hide Run, DedupInv, Spaced, Ids, Setters;
    IdsBound(s.tally.entries, now, s.clock, m);
  }
}
