/** The state processor as the program it is: an object whose methods issue commands that may fail.
    Each method does exactly what the handler's step machine does on the same failures. */
module Processor {
  import opened Domain
  import opened Store
  import opened Handler
  import opened Machine
  import Decimal

  // ---------------------------------------------------------------- the specification

  /** How the coming commands go; past the end they all work. */
  type Faults = seq<Fault>

  function First(fs: Faults): Fault {
    if fs == [] then Works else fs[0]
  }

  function Rest(fs: Faults): Faults {
    if fs == [] then [] else fs[1..]
  }

  /** Whether this phase talks to a server. */
  predicate Issues(ph: Phase) {
    ph.AtDedup? || ph.AtHistory? || (ph.AtUpdate? && Reads(ph.event.body)) || (ph.Writing? && ph.cmds != [])
  }

  datatype Outcome = Outcome(store: Store, failed: bool, faults: Faults)

  /** The step machine run to the end of its handler, nobody else running, under these faults. */
  function Drive(ph: Phase, s: Store, fs: Faults): Outcome
    decreases Stage(ph), Pending(ph)
  {
    if !Busy(ph) then Outcome(s, ph.Idle?, fs)
    else
      var (ph', s') := Step(ph, s, if Issues(ph) then First(fs) else Works);
      Drive(ph', s', if Issues(ph) then Rest(fs) else fs)
  }

  lemma DriveContinue(e: Event, cmds: seq<Cmd>, s: Store, fs: Faults)
    ensures cmds == [] ==> Drive(Continue(e, cmds), s, fs) == Outcome(s, false, fs)
    ensures cmds != [] ==>
              Drive(Continue(e, cmds), s, fs) ==
              var s' := if First(fs).Refused? then s else Exec(s, cmds[0]);
              if First(fs).Works? || cmds[0].InsertSession? then Drive(Continue(e, cmds[1..]), s', Rest(fs))
              else Outcome(s', true, Rest(fs))
  {
  }

  lemma DriveHistory(e: Event, s: Store, fs: Faults)
    ensures Drive(AtHistory(e), s, fs) ==
            var s' := if First(fs).Refused? then s else Remember(s, e);
            if First(fs).Works? then Drive(AtUpdate(e), s', Rest(fs)) else Outcome(s', true, Rest(fs))
  {
  }

  /** The two commands every transaction event ends with. */
  function SeenTail(e: Event): seq<Cmd> {
    [HSet(ChargerKey(e.charger), LastSeenOf(e)), SAdd(ChargersKey, e.charger)]
  }

  lemma DriveUpdate(e: Event, s: Store, fs: Faults)
    requires e.body.Start? || e.body.Stop?
    ensures Drive(AtUpdate(e), s, fs) ==
            if e.body.Start? then Drive(Continue(e, StartCmds(e)), s, fs)
            else
              var tx := if First(fs).Works? then Hash(s, TxKey(e.charger)) else map[];
              Drive(Continue(e, StopCmds(e, tx)), s, Rest(fs))
  {
  }

  /** With no fault to come the handler does what Handle says, and fails exactly if it gets as far as
      decoding a payload that does not decode: never on a readable event. */
  lemma {:induction false} DriveWithoutFaults(ph: Phase, s: Store)
    ensures Drive(ph, s, []).store == Finish(ph, s) && Drive(ph, s, []).faults == []
    ensures Busy(ph) ==>
              (Drive(ph, s, []).failed <==>
               !Readable(ph.event) && !ph.Writing? && !(ph.AtDedup? && ph.event.messageId in s.locks))
    decreases Stage(ph), Pending(ph)
  {
    if Busy(ph) {
      var (ph', s') := Step(ph, s, Works);
      DriveWithoutFaults(ph', s');
      if ph.AtUpdate? {
        PlanRejects(ph.event, s, false);
      }
    }
  }

  // ---------------------------------------------------------------- the object

  class StateProcessor {
    var hashes: map<Key, map<Field, Val>>
    var sets: map<Key, set<string>>
    var locks: set<string>
    var history: map<string, Event>
    var sessions: map<string, Session>
    var faults: Faults

    constructor (s: Store, fs: Faults)
      ensures Contents() == s && faults == fs
    {
      hashes, sets, locks, history, sessions := s.hashes, s.sets, s.locks, s.history, s.sessions;
      faults := fs;
    }

    function Contents(): Store
      reads this
    {
      Store(hashes, sets, locks, history, sessions)
    }

    function Now(failed: bool): Outcome
      reads this
    {
      Outcome(Contents(), failed, faults)
    }

    // -------------------------------------------------------------- commands

    /** How the next command goes. */
    method NextFault() returns (fault: Fault)
      modifies `faults
      ensures fault == First(old(faults)) && faults == Rest(old(faults))
    {
      fault := Works;
      if faults != [] {
        fault := faults[0];
        faults := faults[1..];
      }
    }

    method SetNX(messageId: string) returns (wasSet: bool, err: bool)
      modifies `locks, `faults
      ensures err == !First(old(faults)).Works? && faults == Rest(old(faults))
      ensures wasSet == (!err && messageId !in old(locks))
      ensures locks == if First(old(faults)).Refused? then old(locks) else old(locks) + {messageId}
    {
      var fault := NextFault();
      err := !fault.Works?;
      wasSet := !err && messageId !in locks;
      if !fault.Refused? {
        locks := locks + {messageId};
      }
    }

    method HGet(key: Key, field: Field) returns (v: Option<Val>, err: bool)
      modifies `faults
      ensures err == !First(old(faults)).Works? && faults == Rest(old(faults))
      ensures v == if err then None else Get(Contents(), key, field)
    {
      var fault := NextFault();
      err := !fault.Works?;
      v := None;
      if !err && key in hashes && field in hashes[key] {
        v := Some(hashes[key][field]);
      }
    }

    method HGetAll(key: Key) returns (h: map<Field, Val>, err: bool)
      modifies `faults
      ensures err == !First(old(faults)).Works? && faults == Rest(old(faults))
      ensures h == if err then map[] else Hash(Contents(), key)
    {
      var fault := NextFault();
      err := !fault.Works?;
      h := map[];
      if !err && key in hashes {
        h := hashes[key];
      }
    }

    /** One write command; an error does not tell whether it was executed. */
    method Send(c: Cmd) returns (err: bool)
      modifies this
      ensures err == !First(old(faults)).Works? && faults == Rest(old(faults))
      ensures Contents() == if First(old(faults)).Refused? then old(Contents()) else Exec(old(Contents()), c)
    {
      var fault := NextFault();
      err := !fault.Works?;
      if !fault.Refused? {
        match c
        case HSet(k, fields) =>
          var before := map[];
          if k in hashes {
            before := hashes[k];
          }
          hashes := hashes[k := before + fields];
        case SAdd(k, m) =>
          var before := {};
          if k in sets {
            before := sets[k];
          }
          sets := sets[k := before + {m}];
        case Expire(_, _) =>
        case Del(k) => hashes := hashes - {k};
        case InsertSession(r) =>
          if r.sessionId !in sessions {
            sessions := sessions[r.sessionId := r];
          }
      }
    }

    /** `pipe.Exec`: the queued commands one after another, up to the first error. */
    method ExecPipeline(ghost e: Event, pipe: seq<Cmd>) returns (err: bool)
      requires forall i :: 0 <= i < |pipe| ==> !pipe[i].InsertSession?
      modifies this
      ensures Now(err) == Drive(Continue(e, pipe), old(Contents()), old(faults))
    {
      err := false;
      var i := 0;
      while i < |pipe|
        invariant 0 <= i <= |pipe|
        invariant Drive(Continue(e, pipe[i..]), Contents(), faults)
               == Drive(Continue(e, pipe), old(Contents()), old(faults))
      {
        DriveContinue(e, pipe[i..], Contents(), faults);
        assert pipe[i..][1..] == pipe[i + 1..];
        err := Send(pipe[i]);
        if err {
          return;
        }
        i := i + 1;
      }
      DriveContinue(e, pipe[i..], Contents(), faults);
    }

    // -------------------------------------------------------------- handlers

    method Deduplicate(messageId: string) returns (deduped: bool, err: bool)
      modifies `locks, `faults
      ensures err == !First(old(faults)).Works? && faults == Rest(old(faults))
      ensures deduped == (!err && messageId in old(locks))
      ensures locks == if First(old(faults)).Refused? then old(locks) else old(locks) + {messageId}
    {
      var firstTime;
      firstTime, err := SetNX(messageId);
      deduped := !err && !firstTime;
    }

    method WriteHistory(e: Event) returns (err: bool)
      modifies `history, `faults
      ensures err == !First(old(faults)).Works? && faults == Rest(old(faults))
      ensures Contents() == if First(old(faults)).Refused? then old(Contents()) else Remember(old(Contents()), e)
    {
      var fault := NextFault();
      err := !fault.Works?;
      if !fault.Refused? && e.eventId !in history {
        history := history[e.eventId := e];
      }
    }

    method UpdateBootState(e: Event) returns (err: bool)
      requires e.body.Boot?
      modifies this
      ensures Now(err) == Drive(AtUpdate(e), old(Contents()), old(faults))
    {
      err := ExecPipeline(e, [HSet(ChargerKey(e.charger), BootFields(e))]);
    }

    method UpdateHeartbeat(e: Event) returns (err: bool)
      requires e.body.Heartbeat?
      modifies this
      ensures Now(err) == Drive(AtUpdate(e), old(Contents()), old(faults))
    {
      err := ExecPipeline(e, [HSet(ChargerKey(e.charger), SeenOnline(e))]);
    }

    method UpdateConnectorStatus(e: Event) returns (err: bool)
      requires e.body.Status?
      modifies this
      ensures Now(err) == Drive(AtUpdate(e), old(Contents()), old(faults))
    {
      var connKey := ConnKey(e.charger, e.body.connector);
      var existing, getErr := HGet(connKey, StatusTs);
      if !getErr && NonEmpty(existing) {
        var existingTime := ParseTime(existing.value);
        if e.timestamp <= existingTime {
          return false;
        }
      }
      var pipe := [HSet(connKey, StatusFields(e))];
      pipe := pipe + [HSet(ChargerKey(e.charger), SeenOnline(e))];
      pipe := pipe + [SAdd(ConnectorsKey(e.charger), Decimal.Print(e.body.connector))];
      pipe := pipe + [SAdd(ChargersKey, e.charger)];
      assert pipe == ConnCmds(e, e.body.connector, StatusFields(e), SeenOnline(e));
      err := ExecPipeline(e, pipe);
    }

    method UpdateMeterValues(e: Event) returns (err: bool)
      requires e.body.Meter?
      modifies this
      ensures Now(err) == Drive(AtUpdate(e), old(Contents()), old(faults))
    {
      if |e.body.readings| == 0 {
        return false;
      }
      var mv := e.body.readings[|e.body.readings| - 1];
      var connKey := ConnKey(e.charger, e.body.connector);
      var existing, getErr := HGet(connKey, MeterTs);
      if !getErr && NonEmpty(existing) {
        var existingTime := ParseTime(existing.value);
        if e.timestamp <= existingTime {
          return false;
        }
      }
      var fields := map[MeterTs := Stamp(FloorSec(e.timestamp))];
      var i := 0;
      while i < |mv|
        invariant 0 <= i <= |mv|
        invariant AddSamples(fields, mv[i..]) == MeterFields(e)
      {
        assert mv[i..][1..] == mv[i + 1..];
        match mv[i].measurand {
          case "Energy.Active.Import.Register" => fields := fields[EnergyWh := mv[i].value];
          case "Power.Active.Import" => fields := fields[PowerW := mv[i].value];
          case "SoC" => fields := fields[SocPercent := mv[i].value];
          case "Voltage" => fields := fields[VoltageV := mv[i].value];
          case "Current.Import" => fields := fields[CurrentA := mv[i].value];
          case m => fields := fields[FieldOf(m) := mv[i].value];
        }
        i := i + 1;
      }
      var pipe := [HSet(connKey, fields)];
      pipe := pipe + [HSet(ChargerKey(e.charger), LastSeenOf(e))];
      pipe := pipe + [SAdd(ConnectorsKey(e.charger), Decimal.Print(e.body.connector))];
      pipe := pipe + [SAdd(ChargersKey, e.charger)];
      assert pipe == ConnCmds(e, e.body.connector, MeterFields(e), LastSeenOf(e));
      err := ExecPipeline(e, pipe);
    }

    /** The Start branch: the commands it queues. */
    method QueueStart(e: Event) returns (pipe: seq<Cmd>)
      requires e.body.Start?
      ensures pipe + SeenTail(e) == StartCmds(e)
    {
      var txKey := TxKey(e.charger);
      pipe := [HSet(ConnKey(e.charger, e.connector),
                    map[ActiveTransaction := Text("true"), TxIdTag := Text(e.body.idTag)])];
      pipe := pipe + [SAdd(ConnectorsKey(e.charger), Decimal.Print(e.body.connector))];
      pipe := pipe + [HSet(txKey, TxFields(e))];
      pipe := pipe + [Expire(txKey, DAY)];
    }

    /** The Stop branch: read the pairing record, insert the CDR (ignoring an error), and queue
        what remains to be written. */
    method SettleStop(e: Event) returns (pipe: seq<Cmd>)
      requires e.body.Stop?
      modifies this
      ensures Drive(AtUpdate(e), old(Contents()), old(faults)) == Drive(Continue(e, pipe + SeenTail(e)), Contents(),
              faults)
      ensures forall i :: 0 <= i < |pipe| ==> !pipe[i].InsertSession?
    {
      var txKey := TxKey(e.charger);
      var startData, getErr := HGetAll(txKey);
      DriveUpdate(e, old(Contents()), old(faults));
      var connId := 0;
      if ConnectorId in startData {
        connId := ScanInt(startData[ConnectorId]);
      }
      if connId > 0 {
        pipe := [HSet(ConnKey(e.charger, connId), map[ActiveTransaction := Text("false")])];
      } else {
        pipe := [HSet(ConnKey(e.charger, e.connector), map[ActiveTransaction := Text("false")])];
      }
      if StartTime in startData && startData[StartTime] != Text("") {
        var row := SessionOf(e, startData);
        ghost var cmds := StopCmds(e, startData);
        DriveContinue(e, cmds, Contents(), faults);
        assert cmds[0] == InsertSession(row) && cmds[1..] == pipe + [Del(txKey)] + SeenTail(e);
        var insertErr := Send(InsertSession(row));
        pipe := pipe + [Del(txKey)];
      } else {
        assert StopCmds(e, startData) == pipe + SeenTail(e);
      }
    }

    method UpdateTransaction(e: Event) returns (err: bool)
      requires e.body.Start? || e.body.Stop?
      modifies this
      ensures Now(err) == Drive(AtUpdate(e), old(Contents()), old(faults))
    {
      var pipe: seq<Cmd>;
      if e.body.Start? {
        DriveUpdate(e, Contents(), faults);
        pipe := QueueStart(e);
      } else {
        pipe := SettleStop(e);
      }
      ghost var queued := pipe;
      pipe := pipe + [HSet(ChargerKey(e.charger), LastSeenOf(e))];
      pipe := pipe + [SAdd(ChargersKey, e.charger)];
      assert pipe == queued + SeenTail(e);
      assert e.body.Start? ==> forall i :: 0 <= i < |pipe| ==> pipe[i] == StartCmds(e)[i];
      err := ExecPipeline(e, pipe);
    }

    method UpdateLatestState(e: Event) returns (err: bool)
      modifies this
      ensures Now(err) == Drive(AtUpdate(e), old(Contents()), old(faults))
    {
      match e.body {
        case Boot(_, _, _, _) => err := UpdateBootState(e);
        case Status(_, _, _, _) => err := UpdateConnectorStatus(e);
        case Meter(_, _) => err := UpdateMeterValues(e);
        case Heartbeat => err := UpdateHeartbeat(e);
        case Start(_, _, _) => err := UpdateTransaction(e);
        case Stop(_, _, _) => err := UpdateTransaction(e);
        case Other => err := false;
        case _ => err := true;
      }
    }

    /** The handler as a whole, with its four ways out: undecodable, failed, duplicate, applied. */
    method HandleMessage(r: Record) returns (err: bool)
      modifies this
      ensures r.Garbage? ==> err && Contents() == old(Contents()) && faults == old(faults)
      ensures r.Rec? ==> Now(err) == Drive(AtDedup(r.event), old(Contents()), old(faults))
    {
      if r.Garbage? {
        return true;
      }
      var e := r.event;
      var deduped, dedupErr := Deduplicate(e.messageId);
      if dedupErr {
        return true;
      }
      if deduped {
        assert Contents() == old(Contents());
        return false;
      }
      assert Contents() == Lock(old(Contents()), e.messageId);
      assert Drive(AtDedup(e), old(Contents()), old(faults)) == Drive(AtHistory(e), Contents(), faults);
      DriveHistory(e, Contents(), faults);
      var historyErr := WriteHistory(e);
      assert Drive(AtDedup(e), old(Contents()), old(faults))
          == if historyErr then Now(true) else Drive(AtUpdate(e), Contents(), faults);
      if historyErr {
        return true;
      }
      err := UpdateLatestState(e);
    }
  }
}
