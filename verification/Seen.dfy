/** What `last_seen` holds. Every topic writes it without a guard, so it depends on the schedule: it is
    the whole second of whichever event of the charger was written last. */
module Seen {
  import opened Domain
  import opened Store
  import opened Handler
  import opened Machine
  import opened Dedup
  import ReadView

  /** A command that writes the hash of the event's charger gives last_seen the event's second. */
  predicate Stamps(e: Event, cmd: Cmd) {
    cmd.HSet? && cmd.key.ChargerKey? ==>
      && cmd.key.charger == e.charger
      && LastSeen in cmd.fields && cmd.fields[LastSeen] == Stamp(e.timestamp / 1_000_000_000)
  }

  predicate AllStamp(ph: Phase) {
    ph.Writing? ==> forall i :: 0 <= i < |ph.cmds| ==> Stamps(ph.event, ph.cmds[i])
  }

  lemma PlanStamps(e: Event, s: Store, readFails: bool)
    ensures var d := Plan(e, s, readFails); d.Write? ==> AllStamp(Continue(e, d.cmds))
  {
    hide SessionOf, StatusFields, MeterFields, TxFields, Stale;
  }

  lemma StepStamps(ph: Phase, s: Store, fault: Fault)
    requires AllStamp(ph)
    ensures AllStamp(Step(ph, s, fault).0)
  {
    hide Stamps;
    if ph.AtUpdate? {
      PlanStamps(ph.event, s, !fault.Works? && Reads(ph.event.body));
      hide Plan;
    }
  }

  ghost predicate ReaderStamps(s: State, t: Topic) {
    AllStamp(PhaseOf(s, t)) && ReaderTxLifetimes(s, t)
  }

  /** Nothing gives a charger's hash a lifetime or deletes it. */
  ghost predicate SeenInv(s: State) {
    (forall t :: ReaderStamps(s, t)) && forall c :: ChargerKey(c) !in s.ttl
  }

  lemma PhasesStamp(logs: Logs, s: State, l: Label, t: Topic)
    requires SeenInv(s)
    ensures ReaderStamps(Next(logs, s, l), t)
  {
    assert ReaderStamps(s, t);
    NextPhase(logs, s, l, t);
    if l.Do? {
      StepStamps(PhaseOf(s, t), s.store, l.fault);
      StepLifetimes(PhaseOf(s, t), s.store, l.fault);
    }
    hide Step, Next, AllStamp;
  }

  lemma ChargersLast(logs: Logs, s: State, l: Label, c: string)
    requires SeenInv(s)
    ensures ChargerKey(c) !in Next(logs, s, l).ttl
  {
    if l.Do? && Busy(PhaseOf(s, l.topic)) {
      assert ReaderStamps(s, l.topic);
      hide Step, TallyAfter;
    } else {
      hide DoStep;
    }
  }

  lemma {:induction false} RunStamps(logs: Logs, s0: Store, now: Nanos, ls: seq<Label>)
    ensures SeenInv(Run(logs, Init(s0, now), ls))
    decreases |ls|
  {
    if ls == [] {
      forall t ensures ReaderStamps(Init(s0, now), t) {
      }
    } else {
      var before, l := ls[..|ls| - 1], ls[|ls| - 1];
      RunStamps(logs, s0, now, before);
      var s := Run(logs, Init(s0, now), before);
      hide Next, SeenInv, Run;
      forall t ensures ReaderStamps(Next(logs, s, l), t) {
        PhasesStamp(logs, s, l, t);
      }
      forall c ensures ChargerKey(c) !in Next(logs, s, l).ttl {
        ChargersLast(logs, s, l, c);
      }
      assert SeenInv(Next(logs, s, l));
    }
  }

  // ---------------------------------------------------------------- one label

  /** The server executes a write of the charger's hash. */
  predicate Writes(s: State, l: Label, c: string) {
    l.Do? && !l.fault.Refused?
    && var ph := PhaseOf(s, l.topic);
       ph.Writing? && ph.cmds != [] && ph.cmds[0].HSet? && ph.cmds[0].key == ChargerKey(c)
  }

  function SeenIn(s: State, c: string): Option<Val> {
    Get(s.store, ChargerKey(c), LastSeen)
  }

  lemma StepSeen(ph: Phase, s: Store, fault: Fault, c: string)
    requires Busy(ph) && AllStamp(ph) && (ph.Writing? ==> OnlyTxLifetimes(ph.cmds))
    ensures var v' := Get(Step(ph, s, fault).1, ChargerKey(c), LastSeen);
            if ph.Writing? && ph.cmds != [] && ph.cmds[0].HSet? && ph.cmds[0].key == ChargerKey(c) && !fault.Refused?
            then ph.event.charger == c && v' == Some(Stamp(ph.event.timestamp / 1_000_000_000))
            else v' == Get(s, ChargerKey(c), LastSeen)
  {
    if ph.Writing? && ph.cmds != [] {
      assert Stamps(ph.event, ph.cmds[0]) && ph.cmds[0] in ph.cmds;
    }
    hide Plan, AllStamp;
  }

  lemma DoSeen(s: State, t: Topic, fault: Fault, c: string)
    requires Busy(PhaseOf(s, t)) && AllStamp(PhaseOf(s, t)) && ReaderTxLifetimes(s, t)
    ensures if Writes(s, Do(t, fault), c) then
              && PhaseOf(s, t).event.charger == c
              && SeenIn(DoStep(s, t, fault), c) == Some(Stamp(PhaseOf(s, t).event.timestamp / 1_000_000_000))
            else SeenIn(DoStep(s, t, fault), c) == SeenIn(s, c)
  {
    StepSeen(PhaseOf(s, t), s.store, fault, c);
    hide TallyAfter, TtlAfter, Step, AllStamp, ReaderTxLifetimes, Get;
  }

  lemma NextSeen(logs: Logs, s: State, l: Label, c: string)
    requires SeenInv(s)
    ensures if Writes(s, l, c) then
              && PhaseOf(s, l.topic).event.charger == c
              && SeenIn(Next(logs, s, l), c) == Some(Stamp(PhaseOf(s, l.topic).event.timestamp / 1_000_000_000))
            else SeenIn(Next(logs, s, l), c) == SeenIn(s, c)
  {
    if l.Do? && Busy(PhaseOf(s, l.topic)) {
      assert ReaderStamps(s, l.topic);
      DoSeen(s, l.topic, l.fault, c);
      hide DoStep;
    } else {
      hide DoStep;
    }
  }

  // ---------------------------------------------------------------- every run

  /** At label k a handler of the event e writes the charger's hash. */
  ghost predicate WritesAt(logs: Logs, s: State, ls: seq<Label>, k: nat, c: string, e: Event) {
    && k < |ls| && Writes(Run(logs, s, ls[..k]), ls[k], c)
    && PhaseOf(Run(logs, s, ls[..k]), ls[k].topic).event == e
  }

  ghost predicate LastWrite(logs: Logs, s: State, ls: seq<Label>, k: nat, c: string, e: Event) {
    && WritesAt(logs, s, ls, k, c, e)
    && forall m, f :: k < m < |ls| ==> !WritesAt(logs, s, ls, m, c, f)
  }

  ghost predicate Unwritten(logs: Logs, s: State, ls: seq<Label>, c: string) {
    forall m, f :: 0 <= m < |ls| ==> !WritesAt(logs, s, ls, m, c, f)
  }

  lemma WritesEarlier(logs: Logs, s: State, ls: seq<Label>, m: nat, c: string, e: Event)
    requires ls != [] && m < |ls| - 1
    ensures WritesAt(logs, s, ls[..|ls| - 1], m, c, e) <==> WritesAt(logs, s, ls, m, c, e)
  {
    assert ls[..|ls| - 1][..m] == ls[..m];
    hide Run, Writes;
  }

  /** One more label: if it writes the hash it is the last write, else the last write stays. */
  lemma LastWriteMoves(logs: Logs, s: State, ls: seq<Label>, c: string, k: nat, e: Event)
    requires ls != []
    ensures var n := |ls| - 1; var b := Run(logs, s, ls[..n]);
            LastWrite(logs, s, ls, k, c, e)
            <==> if Writes(b, ls[n], c) then k == n && e == PhaseOf(b, ls[n].topic).event
                 else k < n && LastWrite(logs, s, ls[..n], k, c, e)
  {
    var n := |ls| - 1;
    forall m: nat, f | m < n ensures WritesAt(logs, s, ls[..n], m, c, f) <==> WritesAt(logs, s, ls, m, c, f) {
      WritesEarlier(logs, s, ls, m, c, f);
    }
    if Writes(Run(logs, s, ls[..n]), ls[n], c) {
      assert WritesAt(logs, s, ls, n, c, PhaseOf(Run(logs, s, ls[..n]), ls[n].topic).event);
    }
    hide Run, Writes;
  }

  lemma UnwrittenMoves(logs: Logs, s: State, ls: seq<Label>, c: string)
    requires ls != []
    ensures Unwritten(logs, s, ls, c)
            <==> Unwritten(logs, s, ls[..|ls| - 1], c) && !Writes(Run(logs, s, ls[..|ls| - 1]), ls[|ls| - 1], c)
  {
    var n := |ls| - 1;
    forall m: nat, f | m < n ensures WritesAt(logs, s, ls[..n], m, c, f) <==> WritesAt(logs, s, ls, m, c, f) {
      WritesEarlier(logs, s, ls, m, c, f);
    }
    if Writes(Run(logs, s, ls[..n]), ls[n], c) {
      assert WritesAt(logs, s, ls, n, c, PhaseOf(Run(logs, s, ls[..n]), ls[n].topic).event);
    }
    hide Run, Writes;
  }

  /** `last_seen`, in every state of every run, whatever fails: it is the whole second of the event whose
      handler executed the last write of the charger's hash, an event of that charger ... */
  lemma {:induction false} LastSeenIsLastWritten(logs: Logs, s0: Store, now: Nanos, ls: seq<Label>, c: string,
                                                 k: nat, e: Event)
    requires LastWrite(logs, Init(s0, now), ls, k, c, e)
    ensures e.charger == c
    ensures SeenIn(Run(logs, Init(s0, now), ls), c) == Some(Stamp(e.timestamp / 1_000_000_000))
    decreases |ls|
  {
    var s := Init(s0, now);
    var n := |ls| - 1;
    LastWriteMoves(logs, s, ls, c, k, e);
    RunStamps(logs, s0, now, ls[..n]);
    NextSeen(logs, Run(logs, s, ls[..n]), ls[n], c);
    hide Next, Writes, SeenInv, LastWrite, SeenIn;
    if k < n {
      LastSeenIsLastWritten(logs, s0, now, ls[..n], c, k, e);
    }
  }

  /** ... and what it was at the start if there was no such write. */
  lemma {:induction false} UnwrittenSeen(logs: Logs, s0: Store, now: Nanos, ls: seq<Label>, c: string)
    requires Unwritten(logs, Init(s0, now), ls, c)
    ensures SeenIn(Run(logs, Init(s0, now), ls), c) == Get(s0, ChargerKey(c), LastSeen)
    decreases |ls|
  {
    if ls != [] {
      var s := Init(s0, now);
      var n := |ls| - 1;
      UnwrittenMoves(logs, s, ls, c);
      RunStamps(logs, s0, now, ls[..n]);
      NextSeen(logs, Run(logs, s, ls[..n]), ls[n], c);
      hide Next, Writes, SeenInv, Unwritten, SeenIn;
      UnwrittenSeen(logs, s0, now, ls[..n], c);
    }
  }

  /** One of the two always holds. */
  lemma {:induction false} WrittenOrNot(logs: Logs, s0: Store, now: Nanos, ls: seq<Label>, c: string)
    returns (k: nat, e: Event)
    requires !Unwritten(logs, Init(s0, now), ls, c)
    ensures LastWrite(logs, Init(s0, now), ls, k, c, e)
    decreases |ls|
  {
    var s := Init(s0, now);
    if ls == [] {
      assert false;
    } else {
      var n := |ls| - 1;
      var b := Run(logs, s, ls[..n]);
      UnwrittenMoves(logs, s, ls, c);
      if Writes(b, ls[n], c) {
        k, e := n, PhaseOf(b, ls[n].topic).event;
      } else {
        k, e := WrittenOrNot(logs, s0, now, ls[..n], c);
      }
      LastWriteMoves(logs, s, ls, c, k, e);
      hide LastWrite, Run, Unwritten;
    }
  }

  /** And that is what the read API shows. */
  lemma LastSeenIsShown(logs: Logs, s0: Store, now: Nanos, ls: seq<Label>, c: string, k: nat, e: Event,
                        v: ReadView.ChargerState)
    requires LastWrite(logs, Init(s0, now), ls, k, c, e)
    requires ReadView.IsView(Run(logs, Init(s0, now), ls).store, c, v)
    ensures v.lastSeen == Stamp(e.timestamp / 1_000_000_000)
  {
    LastSeenIsLastWritten(logs, s0, now, ls, c, k, e);
    hide Run, LastWrite, ReadView.Views, ReadView.Listing;
  }
}
