/** event_history after a concurrent run: the first delivery of every message, and nothing else. */
module History {
  import opened Domain
  import opened Store
  import opened Handler
  import opened Machine
  import opened Ownership
  import opened Interleaving
  import opened Confluence
  import opened Sequential
  import opened Cdr

  lemma {:induction false} ExecAllHistory(s: Store, cs: seq<Cmd>)
    ensures ExecAll(s, cs).history == s.history
    decreases |cs|
  {
    if cs != [] {
      ExecAllHistory(Exec(s, cs[0]), cs[1..]);
    }
  }

  lemma ApplyRemembers(s: Store, e: Event)
    ensures Apply(s, e).history == Remember(s, e).history
  {
    hide Plan;
    var b := Remember(Lock(s, e.messageId), e);
    var d := Plan(e, b, false);
    if d.Write? {
      ExecAllHistory(b, d.cmds);
    }
  }

  /** The row is that of one of the events. */
  ghost predicate RowOf(es: seq<Event>, id: string, row: Event) {
    row in es && row.eventId == id
  }

  lemma {:induction false} HistoryAlone(s: Store, es: seq<Event>, id: string)
    ensures var h := ApplySeq(s, es).history;
            && (id in s.history ==> id in h && h[id] == s.history[id])
            && (id !in s.history ==> (id in h <==> exists e :: e in es && e.eventId == id))
            && (id !in s.history && id in h ==> RowOf(es, id, h[id]))
  {
    hide Apply;
    if es != [] {
      var front, e := es[..|es| - 1], es[|es| - 1];
      HistoryAlone(s, front, id);
      ApplyRemembers(ApplySeq(s, front), e);
      assert forall x :: x in es <==> x in front || x == e;
    }
  }

  /** The first delivery of a message that was not locked before the run, on its lane. */
  ghost predicate FirstDelivery(logs: Logs, s0: Store, e: Event) {
    e in Fresh(s0.locks, LaneEvents(logs, LaneOf(e)))
  }

  lemma LoggedLane(logs: Logs, s0: Store, e: Event)
    requires Orderly(logs) && FirstDelivery(logs, s0, e) && CleanLane(logs, LaneOf(e))
    ensures EventLane(logs, e.eventId) == LaneOf(e)
  {
    FreshSubset(s0.locks, LaneEvents(logs, LaneOf(e)));
    LaneEventLogged(logs, LaneOf(e), e);
    var p, i :| Holds(logs, p, i, e);
    EventHome(logs, p, i, e);
  }

  ghost predicate HistoryCell(logs: Logs, s0: Store, end: Store, id: string) {
    var es := Fresh(s0.locks, LaneEvents(logs, EventLane(logs, id)));
    && (id in s0.history ==> id in end.history && end.history[id] == s0.history[id])
    && (id !in s0.history ==> (id in end.history <==> exists e :: e in es && e.eventId == id))
    && (id !in s0.history && id in end.history ==> RowOf(es, id, end.history[id]))
  }

  lemma CellOfLane(logs: Logs, s0: Store, end: Store, id: string)
    requires Look(end, Hist(id)) == Look(HandleSeq(s0, LaneEvents(logs, EventLane(logs, id))), Hist(id))
    ensures HistoryCell(logs, s0, end, id)
  {
    var es := LaneEvents(logs, EventLane(logs, id));
    HandleSeqIsApplySeq(s0, es);
    HistoryAlone(s0, Fresh(s0.locks, es), id);
  }

  lemma InLane(logs: Logs, s0: Store, l: Lane, e: Event)
    requires Routed(logs) && e in Fresh(s0.locks, LaneEvents(logs, l))
    ensures LaneOf(e) == l && exists p, i :: Holds(logs, p, i, e)
  {
    FreshSubset(s0.locks, LaneEvents(logs, l));
    LaneEventLogged(logs, l, e);
  }

  lemma OneEvent(logs: Logs, s0: Store, l: Lane, e: Event, f: Event)
    requires Routed(logs) && UniqueEventIds(logs) && e.eventId == f.eventId
    requires e in Fresh(s0.locks, LaneEvents(logs, l)) && f in Fresh(s0.locks, LaneEvents(logs, l))
    ensures e == f
  {
    InLane(logs, s0, l, e);
    InLane(logs, s0, l, f);
  }

  /** After any gentle run event_history holds its old rows and, for every lane that shares no id with
      another one, exactly one row for each first delivery of a message, with that event in it:
      nothing is overwritten, lost or made up. */
  lemma HistoryIsFirstDeliveries(logs: Logs, s0: Store, now: Nanos, ls: seq<Label>)
    requires Orderly(logs) && UniqueEventIds(logs)
    requires Gentle(logs, Init(s0, now), ls) && Drained(logs, Run(logs, Init(s0, now), ls))
    ensures var h := Run(logs, Init(s0, now), ls).store.history;
            && (forall id :: id in s0.history ==> id in h && h[id] == s0.history[id])
            && (forall e :: FirstDelivery(logs, s0, e) && CleanLane(logs, LaneOf(e)) ==>
                  e.eventId in h && (e.eventId !in s0.history ==> h[e.eventId] == e))
            && (forall id :: id in h && id !in s0.history && CleanLane(logs, EventLane(logs, id)) ==>
                  FirstDelivery(logs, s0, h[id]) && h[id].eventId == id)
  {
    RunRetains(logs, Init(s0, now), ls);
    hide Gentle, Drained, Fresh, LaneEvents, Run, CleanLane;
    var end := Run(logs, Init(s0, now), ls).store;
    RunsAreMerges(logs, s0, now, ls);
    forall id | CleanLane(logs, EventLane(logs, id)) ensures HistoryCell(logs, s0, end, id) {
      assert HomeOf(logs, Hist(id)) == Owned(EventLane(logs, id));
      CellOfLane(logs, s0, end, id);
    }
    forall e | FirstDelivery(logs, s0, e) && CleanLane(logs, LaneOf(e))
      ensures e.eventId in end.history && (e.eventId !in s0.history ==> end.history[e.eventId] == e)
    {
      LoggedLane(logs, s0, e);
      assert HistoryCell(logs, s0, end, e.eventId);
      assert e in Fresh(s0.locks, LaneEvents(logs, EventLane(logs, e.eventId)));
      if e.eventId !in s0.history {
        OneEvent(logs, s0, EventLane(logs, e.eventId), e, end.history[e.eventId]);
      }
    }
    forall id | id in end.history && id !in s0.history && CleanLane(logs, EventLane(logs, id))
      ensures FirstDelivery(logs, s0, end.history[id]) && end.history[id].eventId == id
    {
      assert HistoryCell(logs, s0, end, id);
      InLane(logs, s0, EventLane(logs, id), end.history[id]);
    }
  }
}
