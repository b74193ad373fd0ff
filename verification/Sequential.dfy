/** The handler run alone on a sequence of events: duplicates drop out and the rest apply in turn. */
module Sequential {
  import opened Domain
  import opened Store
  import opened Handler

  function MessageIds(es: seq<Event>): set<string> {
    set e | e in es :: e.messageId
  }

  /** The events that pass the dedup test: the first with each message id not yet locked. */
  function Fresh(locks: set<string>, es: seq<Event>): seq<Event> {
    if es == [] then []
    else
      var front, e := es[..|es| - 1], es[|es| - 1];
      if e.messageId in locks + MessageIds(front) then Fresh(locks, front) else Fresh(locks, front) + [e]
  }

  function ApplySeq(s: Store, es: seq<Event>): Store {
    if es == [] then s else Apply(ApplySeq(s, es[..|es| - 1]), es[|es| - 1])
  }

  lemma {:induction false} ExecAllLocks(s: Store, cs: seq<Cmd>)
    ensures ExecAll(s, cs).locks == s.locks
    decreases |cs|
  {
    if cs != [] {
      ExecAllLocks(Exec(s, cs[0]), cs[1..]);
    }
  }

  lemma ApplyLocks(s: Store, e: Event)
    ensures Apply(s, e).locks == s.locks + {e.messageId}
  {
    var s1 := Remember(Lock(s, e.messageId), e);
    var d := Plan(e, s1, false);
    if d.Write? {
      ExecAllLocks(s1, d.cmds);
    }
  }

  lemma {:induction false} LocksAfter(s: Store, es: seq<Event>)
    ensures HandleSeq(s, es).locks == s.locks + MessageIds(es)
  {
    if es != [] {
      var front, e := es[..|es| - 1], es[|es| - 1];
      LocksAfter(s, front);
      HandleIsApply(HandleSeq(s, front), e);
      ApplyLocks(HandleSeq(s, front), e);
      assert forall x :: x in es <==> x in front || x == e;
      assert MessageIds(es) == MessageIds(front) + {e.messageId};
    }
  }

  /** Handling a sequence is applying its fresh events one after another. */
  lemma {:induction false} HandleSeqIsApplySeq(s: Store, es: seq<Event>)
    ensures HandleSeq(s, es) == ApplySeq(s, Fresh(s.locks, es))
  {
    if es != [] {
      var front, e := es[..|es| - 1], es[|es| - 1];
      HandleSeqIsApplySeq(s, front);
      LocksAfter(s, front);
      HandleIsApply(HandleSeq(s, front), e);
      if e.messageId !in HandleSeq(s, front).locks {
        assert Fresh(s.locks, es)[..|Fresh(s.locks, es)| - 1] == Fresh(s.locks, front);
      }
    }
  }

  /** With message ids that are distinct and not yet locked, nothing drops out. */
  lemma {:induction false} AllFresh(locks: set<string>, es: seq<Event>)
    requires forall i, j :: 0 <= i < j < |es| ==> es[i].messageId != es[j].messageId
    requires forall i :: 0 <= i < |es| ==> es[i].messageId !in locks
    ensures Fresh(locks, es) == es
  {
    if es != [] {
      AllFresh(locks, es[..|es| - 1]);
    }
  }

  lemma {:induction false} FreshSubset(locks: set<string>, es: seq<Event>)
    ensures forall e :: e in Fresh(locks, es) ==> e in es
  {
    if es != [] {
      FreshSubset(locks, es[..|es| - 1]);
    }
  }
}
