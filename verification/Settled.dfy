/** What the last events of a charger leave behind after any gentle run from empty stores: the pieces
    of the end-to-end result that concern the state processor. */
module Settled {
  import opened Domain
  import opened Store
  import opened Handler
  import opened Machine
  import opened Ownership
  import opened Interleaving
  import opened Confluence
  import opened Sequential
  import opened LastWriter
  import opened Connectors
  import opened Cdr

  /** A complete run of the processor: everything fetched and handled, from empty stores. */
  ghost predicate Processed(logs: Logs, now: Nanos, ls: seq<Label>) {
    && Orderly(logs) && UniqueEventIds(logs) && PlainLogs(logs)
    && Gentle(logs, Init(EMPTY, now), ls) && Drained(logs, Run(logs, Init(EMPTY, now), ls))
  }

  function EndOf(logs: Logs, now: Nanos, ls: seq<Label>): Store {
    Run(logs, Init(EMPTY, now), ls).store
  }

  /** New messages: ids distinct and not seen in `past`. */
  predicate NewTo(past: seq<Event>, es: seq<Event>) {
    && (forall i :: 0 <= i < |es| ==> es[i].messageId !in MessageIds(past))
    && (forall i, j :: 0 <= i < j < |es| ==> es[i].messageId != es[j].messageId)
  }

  lemma NewToFront(past: seq<Event>, es: seq<Event>)
    requires NewTo(past, es) && es != []
    ensures NewTo(past, es[..|es| - 1])
  {
  }

  lemma NotSeen(past: seq<Event>, es: seq<Event>)
    requires NewTo(past, es) && es != []
    ensures es[|es| - 1].messageId !in MessageIds(past + es[..|es| - 1])
  {
    var n := |es| - 1;
    forall x | x in past + es[..n] ensures x.messageId != es[n].messageId {
      if x in past {
        assert x.messageId in MessageIds(past);
      }
    }
  }

  lemma FreshSnoc(es: seq<Event>, e: Event)
    requires e.messageId !in MessageIds(es)
    ensures Fresh({}, es + [e]) == Fresh({}, es) + [e]
  {
    assert (es + [e])[..|es|] == es;
  }

  lemma {:induction false} FreshAppend(past: seq<Event>, es: seq<Event>)
    requires NewTo(past, es)
    ensures Fresh({}, past + es) == Fresh({}, past) + es
  {
    hide Fresh, NewTo, MessageIds;
    if es == [] {
      assert past + es == past;
      assert Fresh({}, past) + es == Fresh({}, past);
    } else {
      var n := |es| - 1;
      NewToFront(past, es);
      FreshAppend(past, es[..n]);
      NotSeen(past, es);
      FreshSnoc(past + es[..n], es[n]);
      assert past + es == past + es[..n] + [es[n]];
      assert Fresh({}, past) + es == Fresh({}, past) + es[..n] + [es[n]];
    }
  }

  // ---------------------------------------------------------------- the transaction

  lemma CdrsSnoc(es: seq<Event>, start: Event, stop: Event)
    requires start.body.Start? && stop.body.Stop?
    ensures Cdrs(es + [start, stop]) == Cdrs(es) + [CdrOf(start, stop)]
  {
    var all := es + [start, stop];
    assert all[..|all| - 1] == es + [start] && (es + [start])[..|es|] == es;
    assert PairAt(all, |es|) && (|es| > 0 ==> !PairAt(es + [start], |es| - 1));
    assert Cdrs(es + [start]) == Cdrs(es);
  }

  /** A Start and its Stop, the last of their charger, add exactly one CDR, theirs. */
  lemma BilledOnce(logs: Logs, now: Nanos, ls: seq<Label>, c: string, past: seq<Event>, start: Event, stop: Event)
    requires Processed(logs, now, ls) && CleanLane(logs, Lane(TxTopic, c))
    requires LaneEvents(logs, Lane(TxTopic, c)) == past + [start, stop]
    requires start.body.Start? && stop.body.Stop? && NewTo(past, [start, stop])
    ensures Transactions(logs, EMPTY, c) == Fresh({}, past) + [start, stop]
    ensures Cdrs(Transactions(logs, EMPTY, c)) == Cdrs(Fresh({}, past)) + [CdrOf(start, stop)]
    ensures var rows := EndOf(logs, now, ls).sessions; stop.eventId in rows && rows[stop.eventId] == CdrOf(start, stop)
  {
    FreshAppend(past, [start, stop]);
    CdrsSnoc(Fresh({}, past), start, stop);
    SessionsAreAdjacentPairs(logs, EMPTY, now, ls);
    var cdrs := Cdrs(Transactions(logs, EMPTY, c));
    assert cdrs[|cdrs| - 1] == CdrOf(start, stop);
    assert IsCdr(logs, EMPTY, c, CdrOf(start, stop));
  }

  /** A connector's flag at the end is the one its charger's transactions, run alone, leave. */
  lemma FlagAtEnd(logs: Logs, now: Nanos, ls: seq<Label>, c: string, n: int)
    requires Processed(logs, now, ls) && CleanLane(logs, Lane(TxTopic, c))
    ensures Get(EndOf(logs, now, ls), ConnKey(c, n), ActiveTransaction)
         == Get(ApplySeq(EMPTY, Transactions(logs, EMPTY, c)), ConnKey(c, n), ActiveTransaction)
  {
    hide Gentle, Drained, Run, LaneEvents, HandleSeq, PlainLogs;
    var l := Lane(TxTopic, c);
    var cell := H(ConnKey(c, n), ActiveTransaction);
    RunsAreMerges(logs, EMPTY, now, ls);
    assert HomeOf(logs, cell) == Owned(l);
    assert Look(EndOf(logs, now, ls), cell) == Look(HandleSeq(EMPTY, LaneEvents(logs, l)), cell);
    HandleSeqIsApplySeq(EMPTY, LaneEvents(logs, l));
  }

  lemma FrontFits(es: seq<Event>, c: string)
    requires es != [] && TxEvents(es, c) && DistinctIds(es)
    ensures TxEvents(es[..|es| - 1], c) && DistinctIds(es[..|es| - 1]) && es[|es| - 1].charger == c
  {
  }

  lemma StopClears(a: Store, front: seq<Event>, stop: Event, c: string)
    requires front != [] && front[|front| - 1].body.Start? && front[|front| - 1].body.connector > 0
    requires stop.body.Stop? && stop.charger == c && Hash(a, TxKey(c)) == TxAfter(front)
    ensures Get(Apply(a, stop), ConnKey(c, front[|front| - 1].body.connector), ActiveTransaction) == Some(Text("false"))
  {
    ApplyTx(a, stop, c);
    StopFlags(Remember(Lock(a, stop.messageId), stop), stop, TxAfter(front), front[|front| - 1].body.connector);
  }

  /** A Start and its Stop leave the connector's flag cleared. */
  lemma FlagCleared(logs: Logs, now: Nanos, ls: seq<Label>, c: string, past: seq<Event>, start: Event, stop: Event)
    requires Processed(logs, now, ls) && CleanLane(logs, Lane(TxTopic, c))
    requires LaneEvents(logs, Lane(TxTopic, c)) == past + [start, stop]
    requires start.body.Start? && stop.body.Stop? && NewTo(past, [start, stop]) && start.body.connector > 0
    ensures Get(EndOf(logs, now, ls), ConnKey(c, start.body.connector), ActiveTransaction) == Some(Text("false"))
  {
    var es := Transactions(logs, EMPTY, c);
    var front := Fresh({}, past) + [start];
    FreshAppend(past, [start, stop]);
    assert es == front + [stop];
    TransactionsFit(logs, EMPTY, c);
    FlagAtEnd(logs, now, ls, c, start.body.connector);
    assert es[..|es| - 1] == front && es[|es| - 1] == stop;
    hide Processed, LaneEvents, NewTo, Transactions, Fresh, EndOf, Get;
    FrontFits(es, c);
    PairedAlone(EMPTY, front, c);
    StopClears(ApplySeq(EMPTY, front), front, stop, c);
  }

  // ---------------------------------------------------------------- the last update of a connector

  lemma {:induction false} UpdateTimes(es: seq<Event>, n: int, limit: Nanos)
    requires forall e :: e in es && Updates(e, n) ==> FloorSec(e.timestamp) * SECOND < limit
    ensures var m := MaxSec(UpdatesOf(es, n)); m.Some? ==> m.value * SECOND < limit
  {
    if es != [] {
      var front, e := es[..|es| - 1], es[|es| - 1];
      assert forall x :: x in front ==> x in es;
      UpdateTimes(front, n, limit);
      if Updates(e, n) {
        assert e in es;
        assert UpdatesOf(es, n)[..|UpdatesOf(es, n)| - 1] == UpdatesOf(front, n);
      }
    }
  }

  lemma LastPushWins(us: seq<Update>, u: Update)
    requires var m := MaxSec(us); m.Some? ==> m.value * SECOND < u.at
    ensures Replay(BLANK, us + [u]).fields == Replay(BLANK, us).fields + u.fields
  {
    assert (us + [u])[..|us|] == us;
    SecIsMax(us);
  }

  lemma ReceivedLast(logs: Logs, c: string, t: Topic, past: seq<Event>, e: Event, n: int)
    requires LaneEvents(logs, Lane(t, c)) == past + [e] && NewTo(past, [e]) && Updates(e, n)
    ensures Received(logs, EMPTY, c, n, t) == UpdatesOf(Fresh({}, past), n) + [UpdateOf(e)]
  {
    FreshAppend(past, [e]);
    var front := Fresh({}, past);
    assert (front + [e])[..|front|] == front;
  }

  lemma UpdateAt(e: Event)
    requires e.body.Status? || (e.body.Meter? && e.body.readings != [])
    ensures UpdateOf(e).at == e.timestamp
  {
  }

  /** A status or meter event that is later than every whole second of its connector's earlier ones
      has its fields in the hash at the end. */
  lemma LastUpdateStays(logs: Logs, now: Nanos, ls: seq<Label>, c: string, t: Topic, past: seq<Event>, e: Event,
                        n: int, f: Field)
    requires Processed(logs, now, ls) && CleanLane(logs, Lane(t, c)) && LaneEvents(logs, Lane(t, c)) == past + [e]
    requires (t == StatusTopic || t == MeterTopic) && ConnTopic(f) == t && NewTo(past, [e]) && Updates(e, n)
    requires forall x :: x in past && Updates(x, n) ==> FloorSec(x.timestamp) * SECOND < e.timestamp
    requires f in UpdateOf(e).fields
    ensures Get(EndOf(logs, now, ls), ConnKey(c, n), f) == Some(UpdateOf(e).fields[f])
  {
    hide Orderly, Gentle, Drained, PlainLogs, UniqueEventIds, UpdateOf, Run, LaneEvents;
    FreshSubset({}, past);
    UpdateTimes(Fresh({}, past), n, e.timestamp);
    var us := UpdatesOf(Fresh({}, past), n);
    ReceivedLast(logs, c, t, past, e, n);
    ConnectorsReplay(logs, EMPTY, now, ls, c, n, t);
    assert RegisterOf(EMPTY, c, n, t) == BLANK;
    UpdateAt(e);
    LastPushWins(us, UpdateOf(e));
    assert f in RegisterOf(EndOf(logs, now, ls), c, n, t).fields;
  }
}
