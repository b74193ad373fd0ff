/** One reader's loop as the program it is, and its place among the schedules of the machine. */
module Consumer {
  import opened Domain
  import opened Store
  import opened Handler
  import opened Machine
  import opened Processor
  import opened Dedup
  import opened Delivery

  // ---------------------------------------------------------------- the specification

  datatype Progress = Progress(position: nat, committed: nat, store: Store, faults: Faults)

  /** One turn of the loop: fetch, handle, and commit if the handler returned nil and the commit
      works. After an error the loop simply goes on to the next record. */
  function Turn(log: seq<Record>, g: Progress, commits: bool): Progress
    requires g.position < |log|
  {
    var r := log[g.position];
    var o := if r.Rec? then Drive(AtDedup(r.event), g.store, g.faults) else Outcome(g.store, true, g.faults);
    Progress(g.position + 1, if !o.failed && commits then g.position + 1 else g.committed, o.store, o.faults)
  }

  /** The loop over a partition's log, until the log or the given commit outcomes run out. */
  function Turns(log: seq<Record>, g: Progress, commits: seq<bool>): Progress
    decreases |commits|
  {
    if commits == [] || g.position >= |log| then g else Turns(log, Turn(log, g, commits[0]), commits[1..])
  }

  // ---------------------------------------------------------------- the loop

  class Reader {
    const log: seq<Record>
    const handler: StateProcessor
    var position: nat
    var committed: nat

    constructor (log: seq<Record>, handler: StateProcessor, committed: nat)
      ensures this.log == log && this.handler == handler
      ensures position == committed && this.committed == committed
    {
      this.log, this.handler := log, handler;
      this.position, this.committed := committed, committed;
    }

    function State(): Progress
      reads this, handler
    {
      Progress(position, committed, handler.Contents(), handler.faults)
    }

    method Run(commits: seq<bool>)
      modifies this, handler
      ensures State() == Turns(log, old(State()), commits)
    {
      var n := 0;
      while n < |commits| && position < |log|
        invariant 0 <= n <= |commits|
        invariant Turns(log, State(), commits[n..]) == Turns(log, old(State()), commits)
      {
        ghost var before := State();
        assert commits[n..][1..] == commits[n + 1..];
        var m := log[position];
        position := position + 1;
        var err := handler.HandleMessage(m);
        if !err {
          if commits[n] {
            committed := position;
          }
        }
        assert State() == Turn(log, before, commits[n]);
        n := n + 1;
      }
    }
  }

  // ---------------------------------------------------------------- one schedule among all

  lemma OneDo(logs: Logs, s: Machine.State, t: Topic, fault: Fault)
    requires Busy(PhaseOf(s, t))
    ensures var s' := Next(logs, s, Do(t, fault)); var (ph, store) := Step(PhaseOf(s, t), s.store, fault);
            && ReaderOf(s', t) == ReaderOf(s, t).(phase := ph) && s'.store == store
            && s'.position == s.position && s'.committed == s.committed
  {
  }

  lemma DriveStep(ph: Phase, s: Store, fs: Faults)
    requires Busy(ph)
    ensures var (ph', s') := Step(ph, s, if Issues(ph) then First(fs) else Works);
            && Drive(ph, s, fs) == Drive(ph', s', if Issues(ph) then Rest(fs) else fs)
            && (!Busy(ph') ==> Drive(ph, s, fs).store == s' && Drive(ph, s, fs).failed == ph'.Idle?
                               && (ph'.Idle? || ph'.Handled?))
  {
    StepShape(ph, s, if Issues(ph) then First(fs) else Works);
  }

  lemma StepDecreases(ph: Phase, s: Store, fault: Fault)
    requires Busy(ph)
    ensures var ph' := Step(ph, s, fault).0;
            Stage(ph') < Stage(ph) || (Stage(ph') == Stage(ph) && Pending(ph') < Pending(ph))
  {
  }

  lemma {:induction false} RunFrom(logs: Logs, s: Machine.State, a: seq<Label>, b: seq<Label>)
    ensures Machine.Run(logs, s, a + b) == Machine.Run(logs, Machine.Run(logs, s, a), b)
    decreases |b|
  {
    if b == [] {
      assert a + b == a;
    } else {
      assert (a + b)[..|a + b| - 1] == a + b[..|b| - 1];
      RunFrom(logs, s, a, b[..|b| - 1]);
    }
  }

  /** Left to itself, a busy reader of the machine ends its handler as Drive says. */
  lemma {:induction false} DriveIsRun(logs: Logs, s: Machine.State, t: Topic, fs: Faults) returns (ls: seq<Label>)
    requires Busy(PhaseOf(s, t))
    ensures var s' := Machine.Run(logs, s, ls); var o := Drive(PhaseOf(s, t), s.store, fs);
            && s'.store == o.store && (if o.failed then PhaseOf(s', t).Idle? else PhaseOf(s', t).Handled?)
            && ReaderOf(s', t).part == ReaderOf(s, t).part && ReaderOf(s', t).offset == ReaderOf(s, t).offset
            && s'.position == s.position && s'.committed == s.committed
    decreases Stage(PhaseOf(s, t)), Pending(PhaseOf(s, t))
  {
    var ph := PhaseOf(s, t);
    var fault := if Issues(ph) then First(fs) else Works;
    OneDo(logs, s, t, fault);
    DriveStep(ph, s.store, fs);
    RunSnoc(logs, s, [], Do(t, fault));
    ls := [] + [Do(t, fault)];
    var s1 := Machine.Run(logs, s, ls);
    StepDecreases(ph, s.store, fault);
    hide Drive, Next, Step, Machine.Run;
    if Busy(PhaseOf(s1, t)) {
      var more := DriveIsRun(logs, s1, t, if Issues(ph) then Rest(fs) else fs);
      RunFrom(logs, s, ls, more);
      ls := ls + more;
    }
  }

  ghost predicate Stands(s: Machine.State, p: Part, g: Progress) {
    PhaseOf(s, p.topic).Idle? && s.store == g.store && Position(s, p) == g.position && Committed(s, p) == g.committed
  }

  lemma TurnIsRun(logs: Logs, s: Machine.State, p: Part, g: Progress, commits: bool) returns (ls: seq<Label>)
    requires p in logs && g.position < |logs[p]| && Stands(s, p, g)
    ensures Stands(Machine.Run(logs, s, ls), p, Turn(logs[p], g, commits))
  {
    var s1 := Next(logs, s, Fetch(p));
    RunSnoc(logs, s, [], Fetch(p));
    assert [] + [Fetch(p)] == [Fetch(p)];
    ls := [Fetch(p)];
    if logs[p][g.position].Rec? {
      var more := DriveIsRun(logs, s1, p.topic, g.faults);
      RunFrom(logs, s, ls, more);
      ls := ls + more;
      var s2 := Machine.Run(logs, s, ls);
      if PhaseOf(s2, p.topic).Handled? {
        RunSnoc(logs, s, ls, Commit(p.topic, commits));
        ls := ls + [Commit(p.topic, commits)];
      }
    }
  }

  /** The loop of one reader is one of the machine's schedules: what holds of every run of the
      machine holds of it. */
  lemma {:induction false} LoopIsRun(logs: Logs, s: Machine.State, p: Part, g: Progress,
                                     commits: seq<bool>) returns (ls: seq<Label>)
    requires p in logs && Stands(s, p, g)
    ensures Stands(Machine.Run(logs, s, ls), p, Turns(logs[p], g, commits))
    decreases |commits|
  {
    ls := [];
    if commits != [] && g.position < |logs[p]| {
      ls := TurnIsRun(logs, s, p, g, commits[0]);
      var more := LoopIsRun(logs, Machine.Run(logs, s, ls), p, Turn(logs[p], g, commits[0]), commits[1..]);
      RunFrom(logs, s, ls, more);
      ls := ls + more;
    }
  }
}
