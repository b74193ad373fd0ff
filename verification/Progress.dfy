/** Offsets: what a commit vouches for, in every run whatsoever. */
module Progress {
  import opened Domain
  import opened Store
  import opened Handler
  import opened Machine

  ghost predicate PartMarks(logs: Logs, s: State, p: Part) {
    && Committed(s, p) <= Position(s, p) <= High(s, p)
    && (High(s, p) > 0 ==> p in logs && High(s, p) <= |logs[p]|)
  }

  ghost predicate ReaderMarks(s: State, t: Topic) {
    var r := ReaderOf(s, t);
    !r.phase.Idle? ==> r.part.topic == t && r.offset + 1 == Position(s, r.part)
  }

  ghost predicate Marks(logs: Logs, s: State) {
    (forall p :: PartMarks(logs, s, p)) && (forall t :: ReaderMarks(s, t))
  }

  lemma PartMarksKept(logs: Logs, s: State, lb: Label, p: Part)
    requires PartMarks(logs, s, p) && (lb.Commit? ==> ReaderMarks(s, lb.topic))
    ensures PartMarks(logs, Next(logs, s, lb), p)
  {
    hide Step, TtlAfter, Purge, Open;
  }

  lemma ReaderMarksKept(logs: Logs, s: State, lb: Label, t: Topic)
    requires ReaderMarks(s, t)
    ensures ReaderMarks(Next(logs, s, lb), t)
  {
    hide Step, TtlAfter, TallyAfter, Purge, Open;
  }

  lemma MarksKept(logs: Logs, s: State, lb: Label)
    requires Marks(logs, s)
    ensures Marks(logs, Next(logs, s, lb))
  {
    hide Next, PartMarks, ReaderMarks;
    var s' := Next(logs, s, lb);
    assert lb.Commit? ==> ReaderMarks(s, lb.topic);
    forall p ensures PartMarks(logs, s', p) {
      assert PartMarks(logs, s, p);
      PartMarksKept(logs, s, lb, p);
    }
    forall t ensures ReaderMarks(s', t) {
      assert ReaderMarks(s, t);
      ReaderMarksKept(logs, s, lb, t);
    }
  }

  lemma {:induction false} RunMarks(logs: Logs, s0: Store, now: Nanos, ls: seq<Label>)
    ensures Marks(logs, Run(logs, Init(s0, now), ls))
    decreases |ls|
  {
    if ls != [] {
      RunMarks(logs, s0, now, ls[..|ls| - 1]);
      MarksKept(logs, Run(logs, Init(s0, now), ls[..|ls| - 1]), ls[|ls| - 1]);
    }
  }

  /** The handler was given this record and returned. */
  predicate Returned(s: State, p: Part, i: nat) {
    (p, i) in s.tally.handed && (p, i) in s.tally.succeeded + s.tally.failed
  }

  /** A record below the position has been given to the handler, which has returned unless the
      partition's reader is still working on it. */
  ghost predicate DealtWith(s: State, p: Part, i: nat) {
    var r := ReaderOf(s, p.topic);
    i < Position(s, p) ==>
      Returned(s, p, i) || ((p, i) in s.tally.handed && Busy(r.phase) && r.part == p && r.offset == i)
  }

  ghost predicate ReaderVouched(s: State, t: Topic) {
    var r := ReaderOf(s, t);
    r.phase.Handled? ==> (r.part, r.offset) in s.tally.succeeded
  }

  /** What a committed offset says: everything below it was given to the handler and came back,
      and the last record below it came back without an error. */
  ghost predicate Vouched(s: State, p: Part) {
    && (forall i :: 0 <= i < Committed(s, p) ==> Returned(s, p, i))
    && (Committed(s, p) > 0 ==> (p, Committed(s, p) - 1) in s.tally.succeeded)
  }

  ghost predicate CommitsVouch(s: State) {
    && (forall p, i: nat :: DealtWith(s, p, i))
    && (forall t :: ReaderVouched(s, t))
    && (forall p :: Vouched(s, p))
  }

  lemma ReturnedKept(logs: Logs, s: State, lb: Label, p: Part, i: nat)
    requires Returned(s, p, i)
    ensures Returned(Next(logs, s, lb), p, i)
  {
  }

  lemma DealtKept(logs: Logs, s: State, lb: Label, p: Part, i: nat)
    requires Marks(logs, s) && DealtWith(s, p, i) && Vouched(s, p)
    ensures DealtWith(Next(logs, s, lb), p, i)
  {
    assert PartMarks(logs, s, p) && ReaderMarks(s, p.topic);
    hide TtlAfter, Purge, Open, Plan;
    if Returned(s, p, i) {
      ReturnedKept(logs, s, lb, p, i);
    }
  }

  lemma VouchedKept(logs: Logs, s: State, lb: Label, p: Part)
    requires Marks(logs, s) && Vouched(s, p)
    requires forall i: nat :: DealtWith(s, p, i)
    requires lb.Commit? ==> ReaderVouched(s, lb.topic)
    ensures Vouched(Next(logs, s, lb), p)
  {
    var s' := Next(logs, s, lb);
    assert PartMarks(logs, s, p) && ReaderMarks(s, p.topic);
    if lb.Commit? {
      assert ReaderMarks(s, lb.topic);
    }
    hide Step, TtlAfter, Purge, Open;
    forall i: nat | i < Committed(s', p) ensures Returned(s', p, i) {
      assert DealtWith(s, p, i);
      assert Returned(s, p, i);
      ReturnedKept(logs, s, lb, p, i);
    }
  }

  lemma VouchKept(logs: Logs, s: State, lb: Label)
    requires Marks(logs, s) && CommitsVouch(s)
    ensures CommitsVouch(Next(logs, s, lb))
  {
    var s' := Next(logs, s, lb);
    forall p, i: nat ensures DealtWith(s', p, i) {
      assert DealtWith(s, p, i) && Vouched(s, p);
      DealtKept(logs, s, lb, p, i);
    }
    forall t ensures ReaderVouched(s', t) {
      assert ReaderVouched(s, t);
    }
    if lb.Commit? {
      assert ReaderVouched(s, lb.topic);
    }
    forall p ensures Vouched(s', p) {
      assert Vouched(s, p);
      forall i: nat ensures DealtWith(s, p, i) {
      }
      VouchedKept(logs, s, lb, p);
    }
  }

  /** Commit safety, over every run: faults, crashes, failed commits and expiries included. A
      committed offset can pass a record only if the handler was given it and returned; so it can
      pass an unhandled record only if the handler returned an error for it. */
  lemma {:induction false} CommitSafety(logs: Logs, s0: Store, now: Nanos, ls: seq<Label>)
    ensures var s := Run(logs, Init(s0, now), ls);
            && CommitsVouch(s)
            && (forall p, i: nat :: i < Committed(s, p) ==>
                  Returned(s, p, i) && ((p, i) !in s.tally.failed ==> (p, i) in s.tally.succeeded))
    decreases |ls|
  {
    var s := Run(logs, Init(s0, now), ls);
    if ls != [] {
      var before := Run(logs, Init(s0, now), ls[..|ls| - 1]);
      CommitSafety(logs, s0, now, ls[..|ls| - 1]);
      RunMarks(logs, s0, now, ls[..|ls| - 1]);
      VouchKept(logs, before, ls[|ls| - 1]);
    }
    forall p, i: nat | i < Committed(s, p)
      ensures Returned(s, p, i) && ((p, i) !in s.tally.failed ==> (p, i) in s.tally.succeeded)
    {
      assert Vouched(s, p);
    }
  }

  // ---------------------------------------------------------------- where a restart goes on

  /** The reader is working on the record it says, which is not committed yet. */
  ghost predicate ReaderHolds(logs: Logs, s: State, t: Topic) {
    var r := ReaderOf(s, t);
    Busy(r.phase) || r.phase.Handled? ==>
      r.part.topic == t && Holds(logs, r.part, r.offset, r.phase.event) && Committed(s, r.part) <= r.offset
  }

  lemma SameEvent(ph: Phase, s: Store, fault: Fault)
    requires Busy(ph)
    ensures var ph' := Step(ph, s, fault).0; ph'.Idle? || ph'.event == ph.event
  {
    hide Plan;
  }

  lemma DoHolds(logs: Logs, s: State, u: Topic, fault: Fault, t: Topic)
    requires ReaderHolds(logs, s, t) && Busy(PhaseOf(s, u))
    ensures ReaderHolds(logs, DoStep(s, u, fault), t)
  {
    SameEvent(PhaseOf(s, u), s.store, fault);
    hide Step, TtlAfter, TallyAfter, Holds;
  }

  lemma FetchHolds(logs: Logs, s: State, p: Part, t: Topic)
    requires ReaderHolds(logs, s, t) && PartMarks(logs, s, p) && Available(logs, s, p)
    ensures ReaderHolds(logs, FetchStep(logs, s, p), t)
  {
  }

  lemma CommitHolds(logs: Logs, s: State, u: Topic, ok: bool, t: Topic)
    requires ReaderHolds(logs, s, t) && ReaderMarks(s, u) && PhaseOf(s, u).Handled?
    ensures ReaderHolds(logs, CommitStep(s, u, ok), t)
  {
    hide Holds;
  }

  lemma RestHolds(logs: Logs, s: State, l: Label, t: Topic)
    requires ReaderHolds(logs, s, t) && (l.Crash? || l.Tick?)
    ensures ReaderHolds(logs, Next(logs, s, l), t)
  {
    hide Holds, Purge, Open;
  }

  lemma HoldsKept(logs: Logs, s: State, l: Label, t: Topic)
    requires ReaderHolds(logs, s, t) && Marks(logs, s)
    ensures ReaderHolds(logs, Next(logs, s, l), t)
  {
    if l.Do? {
      if Busy(PhaseOf(s, l.topic)) {
        DoHolds(logs, s, l.topic, l.fault, t);
        hide ReaderHolds, DoStep;
      }
    } else {
      assert l.Fetch? ==> PartMarks(logs, s, l.part);
      assert l.Commit? ==> ReaderMarks(s, l.topic);
      hide ReaderHolds, DoStep, FetchStep, CommitStep, CrashStep, TickStep, Marks, PartMarks;
      match l
      case Fetch(p) => if Enabled(logs, s, l) { FetchHolds(logs, s, p, t); }
      case Commit(u, ok) => if Enabled(logs, s, l) { CommitHolds(logs, s, u, ok, t); }
      case _ => RestHolds(logs, s, l, t);
    }
  }

  lemma {:induction false} RunHolds(logs: Logs, s0: Store, now: Nanos, ls: seq<Label>, t: Topic)
    ensures ReaderHolds(logs, Run(logs, Init(s0, now), ls), t)
    decreases |ls|
  {
    if ls != [] {
      RunHolds(logs, s0, now, ls[..|ls| - 1], t);
      RunMarks(logs, s0, now, ls[..|ls| - 1]);
      HoldsKept(logs, Run(logs, Init(s0, now), ls[..|ls| - 1]), ls[|ls| - 1], t);
    }
  }

  lemma CommitMoves(logs: Logs, b: State, t: Topic, ok: bool)
    requires PhaseOf(b, t).Handled?
    ensures var r, s1 := ReaderOf(b, t), Next(logs, b, Commit(t, ok));
            forall p :: Committed(s1, p) == if ok && p == r.part then r.offset + 1 else Committed(b, p)
  {
  }

  lemma CrashMoves(logs: Logs, s: State)
    ensures var s' := Next(logs, s, Crash);
            && (forall p :: Committed(s', p) == Committed(s, p) && Position(s', p) == Committed(s, p))
            && forall t :: PhaseOf(s', t).Idle?
  {
  }

  lemma FetchMoves(logs: Logs, s: State, p: Part)
    requires p in logs && Position(s, p) < |logs[p]| && PhaseOf(s, p.topic).Idle?
    ensures var n := Position(s, p); var s' := Next(logs, s, Fetch(p)); var r := ReaderOf(s', p.topic);
            && r.part == p && r.offset == n && Position(s', p) == n + 1
            && (logs[p][n].Rec? ==> r.phase == AtDedup(logs[p][n].event))
  {
  }

  /** What a commit moves: in every run, when the handler of an event has returned nil, the event is in the
      log, and a commit that works leaves the committed offset right after it; one that fails leaves it
      where it was, at or before the event. The process then dying, the first record it reads of the
      partition is the one at that offset: the event again only if the commit did not work. */
  lemma RestartsAfterCommitted(logs: Logs, s0: Store, now: Nanos, ls: seq<Label>, t: Topic, ok: bool)
    requires PhaseOf(Run(logs, Init(s0, now), ls), t).Handled?
    ensures var b := Run(logs, Init(s0, now), ls); var r := ReaderOf(b, t);
            var s1 := Next(logs, b, Commit(t, ok)); var s2 := Next(logs, s1, Crash);
            var n := Committed(s2, r.part); var s3 := Next(logs, s2, Fetch(r.part));
            && Holds(logs, r.part, r.offset, r.phase.event)
            && n == (if ok then r.offset + 1 else Committed(b, r.part)) && (!ok ==> n <= r.offset)
            && (forall p :: p != r.part ==> Committed(s2, p) == Committed(b, p))
            && (n < |logs[r.part]| ==>
                  && ReaderOf(s3, t).part == r.part && ReaderOf(s3, t).offset == n && Position(s3, r.part) == n + 1
                  && (logs[r.part][n].Rec? ==> PhaseOf(s3, t) == AtDedup(logs[r.part][n].event)))
  {
    RunHolds(logs, s0, now, ls, t);
    RunMarks(logs, s0, now, ls);
    var b := Run(logs, Init(s0, now), ls);
    assert PartMarks(logs, b, ReaderOf(b, t).part) && ReaderMarks(b, t);
    var p := ReaderOf(b, t).part;
    var s1 := Next(logs, b, Commit(t, ok));
    var s2 := Next(logs, s1, Crash);
    CommitMoves(logs, b, t, ok);
    CrashMoves(logs, s1);
    if Committed(s2, p) < |logs[p]| {
      FetchMoves(logs, s2, p);
    }
    hide Next, Run, Committed, Position;
  }
}
