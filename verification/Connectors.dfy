/** Connector hashes as guarded registers: what the status and the meter readers leave behind after
    any concurrent run. */
module Connectors {
  import opened Domain
  import opened Store
  import opened Handler
  import opened Machine
  import opened Ownership
  import opened Interleaving
  import opened Confluence
  import opened LastWriter
  import opened Sequential

  /** The timestamp field that guards a topic's part of a connector hash. */
  function TsField(t: Topic): Field {
    if t == StatusTopic then StatusTs else MeterTs
  }

  /** The part of a connector hash that one topic owns. */
  function RegisterOf(s: Store, c: string, n: int, t: Topic): Register {
    var h := Hash(s, ConnKey(c, n));
    var own := map f | f in h && ConnTopic(f) == t :: h[f];
    Register(if TsField(t) in own && own[TsField(t)].Stamp? then Some(own[TsField(t)].sec) else None, own)
  }

  predicate Stamped(s: Store, c: string, n: int, t: Topic) {
    var h := Hash(s, ConnKey(c, n));
    TsField(t) in h ==> h[TsField(t)].Stamp?
  }

  /** Whether an event writes the topic's part of connector n, and with which fields. A sample whose
      measurand is "ts" would overwrite the guard itself. */
  predicate Updates(e: Event, n: int) {
    || (e.body.Status? && e.body.connector == n)
    || (e.body.Meter? && e.body.connector == n && e.body.readings != [])
  }

  predicate Plain(e: Event) {
    e.body.Meter? && e.body.readings != [] ==>
      var last := e.body.readings[|e.body.readings| - 1];
      forall i :: 0 <= i < |last| ==> last[i].measurand != "ts"
  }

  function UpdateOf(e: Event): Update
    requires e.body.Status? || (e.body.Meter? && e.body.readings != [])
  {
    Update(e.timestamp, if e.body.Status? then StatusFields(e) else MeterFields(e))
  }

  function UpdatesOf(es: seq<Event>, n: int): seq<Update> {
    if es == [] then []
    else
      var e := es[|es| - 1];
      var us := UpdatesOf(es[..|es| - 1], n);
      if Updates(e, n) then us + [UpdateOf(e)] else us
  }

  // ---------------------------------------------------------------- one event

  lemma {:induction false} SamplesKeepTs(fields: map<Field, Val>, samples: seq<Sample>)
    requires forall i :: 0 <= i < |samples| ==> samples[i].measurand != "ts"
    requires MeterTs in fields
    ensures MeterTs in AddSamples(fields, samples) && AddSamples(fields, samples)[MeterTs] == fields[MeterTs]
    decreases |samples|
  {
    if samples != [] {
      SamplesKeepTs(fields[FieldOf(samples[0].measurand) := samples[0].value], samples[1..]);
    }
  }

  lemma {:induction false} NoSampleFor(fields: map<Field, Val>, samples: seq<Sample>, f: Field)
    requires forall i :: 0 <= i < |samples| ==> FieldOf(samples[i].measurand) != f
    ensures var r := AddSamples(fields, samples); (f in r <==> f in fields) && (f in r ==> r[f] == fields[f])
    decreases |samples|
  {
    hide FieldOf;
    if samples != [] {
      NoSampleFor(fields[FieldOf(samples[0].measurand) := samples[0].value], samples[1..], f);
    }
  }

  predicate LastSampleFor(samples: seq<Sample>, f: Field, i: int) {
    && 0 <= i < |samples| && FieldOf(samples[i].measurand) == f
    && forall j :: i < j < |samples| ==> FieldOf(samples[j].measurand) != f
  }

  /** Within a reading, a field takes the value of the last sample for it. */
  lemma {:induction false} LastSampleWins(fields: map<Field, Val>, samples: seq<Sample>, f: Field, i: nat)
    requires LastSampleFor(samples, f, i)
    ensures var r := AddSamples(fields, samples); f in r && r[f] == samples[i].value
    decreases |samples|
  {
    hide FieldOf;
    var next, rest := fields[FieldOf(samples[0].measurand) := samples[0].value], samples[1..];
    if i == 0 {
      NoSampleFor(next, rest, f);
    } else {
      LastSampleWins(next, rest, f, i - 1);
    }
  }

  lemma {:induction false} SomeLast(samples: seq<Sample>, f: Field, i: nat)
    requires i < |samples| && FieldOf(samples[i].measurand) == f
    ensures exists j :: LastSampleFor(samples, f, j)
    decreases |samples| - i
  {
    hide FieldOf;
    if j: nat :| i < j < |samples| && FieldOf(samples[j].measurand) == f {
      SomeLast(samples, f, j);
    } else {
      assert LastSampleFor(samples, f, i);
    }
  }

  /** A field that a reading adds has a last sample in it. */
  lemma {:induction false} HasLastSample(fields: map<Field, Val>, samples: seq<Sample>, f: Field)
    requires f in AddSamples(fields, samples) && f !in fields
    ensures exists i :: LastSampleFor(samples, f, i)
    decreases |samples|
  {
    hide FieldOf;
    var next, rest := fields[FieldOf(samples[0].measurand) := samples[0].value], samples[1..];
    if i :| 0 <= i < |rest| && FieldOf(rest[i].measurand) == f {
      SomeLast(rest, f, i);
      var j :| LastSampleFor(rest, f, j);
      assert forall h :: 0 <= h < |rest| ==> samples[h + 1] == rest[h];
      assert forall h :: j + 1 < h < |samples| ==> samples[h] == rest[h - 1];
      assert LastSampleFor(samples, f, j + 1);
    } else {
      NoSampleFor(next, rest, f);
      assert forall h :: 0 < h < |samples| ==> samples[h] == rest[h - 1];
      assert LastSampleFor(samples, f, 0);
    }
  }

  lemma UpdateFields(e: Event, n: int)
    requires Updates(e, n) && Plain(e)
    ensures var fields := UpdateOf(e).fields; var ts := TsField(TopicOf(e.body));
            && ts in fields && fields[ts] == Stamp(FloorSec(e.timestamp))
            && forall f :: f in fields ==> ConnTopic(f) == TopicOf(e.body)
  {
    if e.body.Meter? {
      var last := e.body.readings[|e.body.readings| - 1];
      SamplesKeepTs(map[MeterTs := Stamp(FloorSec(e.timestamp))], last);
      SamplesStayMeter(map[MeterTs := Stamp(FloorSec(e.timestamp))], last);
    }
  }

  /** The four commands of an accepted status or meter event, seen from a connector hash. */
  lemma ConnCmdsHash(s: Store, e: Event, n: int, fields: map<Field, Val>, seen: map<Field, Val>, c: string, k: int)
    ensures Hash(ExecAll(s, ConnCmds(e, n, fields, seen)), ConnKey(c, k))
         == if e.charger == c && n == k then Hash(s, ConnKey(c, k)) + fields else Hash(s, ConnKey(c, k))
  {
    var cmds := ConnCmds(e, n, fields, seen);
    var s1 := Exec(s, cmds[0]);
    var s2 := Exec(s1, cmds[1]);
    var s3 := Exec(s2, cmds[2]);
    var s4 := Exec(s3, cmds[3]);
    assert ExecAll(s, cmds) == ExecAll(s1, cmds[1..]);
    assert ExecAll(s1, cmds[1..]) == ExecAll(s2, cmds[2..]);
    assert ExecAll(s2, cmds[2..]) == ExecAll(s3, cmds[3..]);
    assert ExecAll(s3, cmds[3..]) == ExecAll(s4, []);
  }

  lemma PushCase(s: Store, e: Event, c: string, n: int, t: Topic)
    requires Updates(e, n) && Plain(e) && TopicOf(e.body) == t && Stamped(s, c, n, t)
    ensures var h := Hash(s, ConnKey(c, n)); var fields := UpdateOf(e).fields;
            && (Stale(e, if TsField(t) in h then Some(h[TsField(t)]) else None) <==>
                  Push(RegisterOf(s, c, n, t), UpdateOf(e)) == RegisterOf(s, c, n, t)
                  && RegisterOf(s, c, n, t).sec.Some? && e.timestamp <= RegisterOf(s, c, n, t).sec.value * SECOND)
            && (var own := map f | f in h + fields && ConnTopic(f) == t :: (h + fields)[f];
                own == RegisterOf(s, c, n, t).fields + fields)
            && TsField(t) in fields && fields[TsField(t)] == Stamp(FloorSec(e.timestamp))
  {
    UpdateFields(e, n);
  }

  /** An applied status or meter event is a push on the register of its own connector. */
  lemma ApplyPushes(s: Store, e: Event, c: string, n: int, t: Topic)
    requires (t == StatusTopic || t == MeterTopic) && TopicOf(e.body) == t && e.charger == c && Plain(e)
    requires Stamped(s, c, n, t)
    ensures Stamped(Apply(s, e), c, n, t)
    ensures RegisterOf(Apply(s, e), c, n, t)
         == if Updates(e, n) then Push(RegisterOf(s, c, n, t), UpdateOf(e)) else RegisterOf(s, c, n, t)
  {
    hide SeenOnline, LastSeenOf, ConnCmds, SessionOf;
    var s1 := Remember(Lock(s, e.messageId), e);
    var k := ConnKey(c, n);
    assert Hash(s1, k) == Hash(s, k);
    match e.body
    case Status(m, _, _, _) =>
      ConnCmdsHash(s1, e, m, StatusFields(e), SeenOnline(e), c, n);
      if m == n {
        PushCase(s, e, c, n, t);
      }
    case Meter(m, readings) =>
      if readings != [] {
        ConnCmdsHash(s1, e, m, MeterFields(e), LastSeenOf(e), c, n);
        if m == n {
          UpdateFields(e, n);
          PushCase(s, e, c, n, t);
        }
      }
    case _ =>
  }

  // ---------------------------------------------------------------- a lane, then a concurrent run

  ghost predicate LaneOfTopic(es: seq<Event>, c: string, t: Topic) {
    forall e :: e in es ==> TopicOf(e.body) == t && e.charger == c && Plain(e)
  }

  lemma {:induction false} ReplayedAlone(s: Store, es: seq<Event>, c: string, n: int, t: Topic)
    requires (t == StatusTopic || t == MeterTopic) && LaneOfTopic(es, c, t) && Stamped(s, c, n, t)
    ensures Stamped(ApplySeq(s, es), c, n, t)
    ensures RegisterOf(ApplySeq(s, es), c, n, t) == Replay(RegisterOf(s, c, n, t), UpdatesOf(es, n))
  {
    if es != [] {
      var front, e := es[..|es| - 1], es[|es| - 1];
      assert forall x :: x in front ==> x in es;
      ReplayedAlone(s, front, c, n, t);
      ApplyPushes(ApplySeq(s, front), e, c, n, t);
      if Updates(e, n) {
        var us := UpdatesOf(front, n);
        assert (us + [UpdateOf(e)])[..|us|] == us;
      }
    }
  }

  lemma RegistersAgree(logs: Logs, a: Store, b: Store, c: string, n: int, t: Topic)
    requires SameData(logs, a, b, Lane(t, c)) && CleanLane(logs, Lane(t, c))
    ensures RegisterOf(a, c, n, t) == RegisterOf(b, c, n, t)
  {
    var k := ConnKey(c, n);
    forall f | ConnTopic(f) == t
      ensures f in Hash(a, k) <==> f in Hash(b, k)
      ensures f in Hash(a, k) && f in Hash(b, k) ==> Hash(a, k)[f] == Hash(b, k)[f]
    {
      assert HomeOf(logs, H(k, f)) == Owned(Lane(t, c));
      assert Look(a, H(k, f)) == Look(b, H(k, f));
    }
  }

  lemma {:induction false} LaneLogMembers(rs: seq<Record>, c: string, e: Event)
    requires e in LaneLog(rs, c)
    ensures e.charger == c && exists i :: 0 <= i < |rs| && rs[i] == Rec(e)
  {
    if e in LaneLog(rs[..|rs| - 1], c) {
      LaneLogMembers(rs[..|rs| - 1], c, e);
    } else {
      assert rs[|rs| - 1] == Rec(e);
    }
  }

  ghost predicate PlainLogs(logs: Logs) {
    forall p, i, e :: Holds(logs, p, i, e) ==> Plain(e)
  }

  lemma LaneEventsOfTopic(logs: Logs, c: string, t: Topic)
    requires Routed(logs) && PlainLogs(logs)
    ensures LaneOfTopic(LaneEvents(logs, Lane(t, c)), c, t)
  {
    var p := HomePart(logs, Lane(t, c));
    HomeTopic(logs, Lane(t, c));
    forall e | e in LaneEvents(logs, Lane(t, c)) ensures TopicOf(e.body) == t && e.charger == c && Plain(e) {
      LaneLogMembers(logs[p], c, e);
      var i :| 0 <= i < |logs[p]| && logs[p][i] == Rec(e);
      assert Holds(logs, p, i, e);
    }
  }

  /** The updates a connector receives on one topic: from the first delivery of each message. */
  ghost function Received(logs: Logs, s0: Store, c: string, n: int, t: Topic): seq<Update> {
    UpdatesOf(Fresh(s0.locks, LaneEvents(logs, Lane(t, c))), n)
  }

  /** After any gentle run the status part and the meter part of a connector hash are what the
      guarded register makes of that connector's updates, in their own topic's order. */
  lemma ConnectorsReplay(logs: Logs, s0: Store, now: Nanos, ls: seq<Label>, c: string, n: int, t: Topic)
    requires Orderly(logs) && CleanLane(logs, Lane(t, c)) && PlainLogs(logs) && Gentle(logs, Init(s0, now), ls)
    requires Drained(logs, Run(logs, Init(s0, now), ls))
    requires (t == StatusTopic || t == MeterTopic) && Stamped(s0, c, n, t)
    ensures RegisterOf(Run(logs, Init(s0, now), ls).store, c, n, t)
         == Replay(RegisterOf(s0, c, n, t), Received(logs, s0, c, n, t))
  {
    var l := Lane(t, c);
    var es := LaneEvents(logs, l);
    var end := Run(logs, Init(s0, now), ls).store;
    RunsAreMerges(logs, s0, now, ls);
    RegistersAgree(logs, end, HandleSeq(s0, es), c, n, t);
    HandleSeqIsApplySeq(s0, es);
    LaneEventsOfTopic(logs, c, t);
    FreshSubset(s0.locks, es);
    ReplayedAlone(s0, Fresh(s0.locks, es), c, n, t);
  }

  /** Last writer wins, for a connector seen for the first time, after any gentle run: the stored
      second is the greatest floored time received, and each stored field is that of the last
      update carrying it that was strictly later than the running maximum. */
  lemma LastWriterWins(logs: Logs, s0: Store, now: Nanos, ls: seq<Label>, c: string, n: int, t: Topic, f: Field)
    requires Orderly(logs) && CleanLane(logs, Lane(t, c)) && PlainLogs(logs) && Gentle(logs, Init(s0, now), ls)
    requires Drained(logs, Run(logs, Init(s0, now), ls))
    requires (t == StatusTopic || t == MeterTopic) && ConnTopic(f) == t && ConnKey(c, n) !in s0.hashes
    ensures var us := Received(logs, s0, c, n, t);
            var end := Run(logs, Init(s0, now), ls).store;
            && Get(end, ConnKey(c, n), TsField(t)) == (if us == [] then None else Some(Stamp(MaxSec(us).value)))
            && (forall k: nat :: LastCarrying(us, f, k) ==> Get(end, ConnKey(c, n), f) == Some(us[k].fields[f]))
            && (Get(end, ConnKey(c, n), f).Some? ==> exists k: nat :: LastCarrying(us, f, k))
  {
    hide Orderly, PlainLogs, Gentle, Drained, Run, Received, Wins;
    var us := Received(logs, s0, c, n, t);
    var end := Run(logs, Init(s0, now), ls).store;
    ConnectorsReplay(logs, s0, now, ls, c, n, t);
    Exactness(us, f);
    MaxSecIsMax(us);
    assert RegisterOf(end, c, n, t) == Replay(BLANK, us);
    assert us == [] ==> Replay(BLANK, us).fields == map[];
  }

  /** Order independence across runs: two gentle runs, over logs that deliver the same set of
      updates to a connector in whatever order and multiplicity, leave the same register, provided
      the updates are settled. */
  lemma DeliveryOrderIrrelevant(logsA: Logs, logsB: Logs, s0: Store, now: Nanos, lsA: seq<Label>, lsB: seq<Label>,
                                c: string, n: int, t: Topic)
    requires Orderly(logsA) && CleanLane(logsA, Lane(t, c)) && PlainLogs(logsA) && Gentle(logsA, Init(s0, now), lsA)
    requires Orderly(logsB) && CleanLane(logsB, Lane(t, c)) && PlainLogs(logsB) && Gentle(logsB, Init(s0, now), lsB)
    requires Drained(logsA, Run(logsA, Init(s0, now), lsA)) && Drained(logsB, Run(logsB, Init(s0, now), lsB))
    requires (t == StatusTopic || t == MeterTopic) && ConnKey(c, n) !in s0.hashes
    requires forall u :: u in Received(logsA, s0, c, n, t) <==> u in Received(logsB, s0, c, n, t)
    requires Settled(Received(logsA, s0, c, n, t))
    ensures RegisterOf(Run(logsA, Init(s0, now), lsA).store, c, n, t)
         == RegisterOf(Run(logsB, Init(s0, now), lsB).store, c, n, t)
  {
    ConnectorsReplay(logsA, s0, now, lsA, c, n, t);
    ConnectorsReplay(logsB, s0, now, lsB, c, n, t);
    assert RegisterOf(s0, c, n, t) == BLANK;
    hide Orderly, CleanLane, PlainLogs, Gentle, Drained, Run, RegisterOf, Received, Settled, Replay;
    SettledOrder(Received(logsA, s0, c, n, t), Received(logsB, s0, c, n, t));
  }
}
