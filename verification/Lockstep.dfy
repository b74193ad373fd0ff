/** The simulated charge point's sendAndWait against the gateway's loop, over two FIFO channels. The
    client never looks at the id of the response it takes. */
module Lockstep {
  import opened Domain
  import opened Json
  import opened Framing
  import opened Ocpp
  import opened Gateway

  /** `alone` records whether no other call was outstanding when the client sent this one; the client
      itself does not know. */
  datatype Client = Ready | Waiting(messageId: Text, alone: bool)

  /** A response taken by the client: the id of the call it was waiting on, the id it carried, and
      whether the call had been alone. */
  datatype Exchange = Exchange(asked: Text, got: Text, alone: bool)

  datatype Net = Net(client: Client, up: seq<Text>, down: seq<Text>, closed: bool, log: seq<Exchange>)

  datatype Label =
    | Send(messageId: Text, action: Text, payload: Text)   // the next sendAndWait, up to its write
    | Serve(at: Moment, txId: int)                         // the gateway handles the next frame
    | Receive                                              // the client takes a response
    | Timeout                                              // the client stops waiting; the caller goes on

  const QUIET := Net(Ready, [], [], false, [])

  function Frames(acts: seq<Act>): seq<Text> {
    if acts == [] then [] else (if acts[0].Wrote? then [acts[0].frame] else []) + Frames(acts[1..])
  }

  function AfterSend(k: Codec, s: Net, id: Text, action: Text, payload: Text): Net {
    match MakeCall(id, action, if Parse(payload).Some? then Some(payload) else None, k.prints)
    case None => s
    case Some(frame) => s.(client := Waiting(id, s.up == [] && s.down == []), up := s.up + [frame])
  }

  function AfterServe(k: Codec, charger: string, s: Net, at: Moment, txId: int): Net
    requires s.up != []
  {
    var (acts, ends) := OnFrame(k, charger, s.up[0], at, txId);
    s.(up := s.up[1..], down := s.down + Frames(acts), closed := ends)
  }

  function AfterReceive(s: Net): Net
    requires s.client.Waiting? && s.down != []
  {
    match ParseMessage(s.down[0])
    case Failed(_) => s.(client := Ready, down := s.down[1..])
    case Parsed(m) =>
      s.(client := Ready, down := s.down[1..],
         log := s.log + [Exchange(s.client.messageId, m.messageId, s.client.alone)])
  }

  /** A label that is not enabled does nothing. */
  function Next(k: Codec, charger: string, s: Net, l: Label): Net {
    match l
    case Send(id, action, payload) =>
      if s.client.Ready? && !s.closed then AfterSend(k, s, id, action, payload) else s
    case Serve(at, txId) =>
      if s.up != [] && !s.closed then AfterServe(k, charger, s, at, txId) else s
    case Receive =>
      if s.client.Waiting? && s.down != [] then AfterReceive(s) else s
    case Timeout => if s.client.Waiting? then s.(client := Ready) else s
  }

  function Run(k: Codec, charger: string, ls: seq<Label>): Net {
    if ls == [] then QUIET else Next(k, charger, Run(k, charger, ls[..|ls| - 1]), ls[|ls| - 1])
  }

  /** A frame in flight to the gateway holds the call the client waits on ... */
  ghost predicate Asks(k: Codec, data: Text, id: Text) {
    CallIn(data).Some? && CallIn(data).value.messageId == id && Quotable(id, k.prints)
  }

  /** ... and one in flight to the client is the response to it. */
  ghost predicate Answers(data: Text, id: Text) {
    var p := ParseMessage(data);
    p.Parsed? && p.message.typeId == CALL_RESULT && p.message.messageId == id
  }

  ghost predicate InStep(k: Codec, s: Net) {
    && (forall e :: e in s.log ==> e.asked == e.got)
    && (match s.client
        case Ready => s.up == [] && s.down == []
        case Waiting(id, _) =>
          || (|s.up| == 1 && s.down == [] && Asks(k, s.up[0], id))
          || (s.up == [] && |s.down| == 1 && Answers(s.down[0], id))
          || (s.up == [] && s.down == [] && s.closed))
  }

  lemma SendInStep(k: Codec, charger: string, s: Net, l: Label)
    requires Sound(k) && InStep(k, s) && l.Send?
    ensures InStep(k, Next(k, charger, s, l))
  {
    if Parse(l.payload).Some? {
      CallRoundTrip(l.messageId, l.action, l.payload, k.prints);
    }
  }

  lemma BlockFrames(k: Codec, charger: string, acts: seq<Act>, x: Asked, ends: bool)
    requires if ends then acts == [] else IsBlock(k, charger, acts, x)
    ensures ends ==> Frames(acts) == []
    ensures !ends ==> |Frames(acts)| == 1 && Answers(Frames(acts)[0], x.message.messageId)
  {
    if !ends {
      if |acts| == 2 {
        assert Frames(acts[1..]) == [] + Frames(acts[1..][1..]);
        assert |acts[1..][1..]| == 0;
      } else {
        assert |acts[1..]| == 0;
      }
    }
  }

  lemma ServeInStep(k: Codec, charger: string, s: Net, l: Label)
    requires Sound(k) && InStep(k, s) && l.Serve?
    ensures InStep(k, Next(k, charger, s, l))
  {
    if s.up != [] && !s.closed {
      var id := s.client.messageId;
      FrameActs(k, charger, s.up[0], l.at, l.txId);
      var x := Asked(CallIn(s.up[0]).value, l.at, l.txId);
      assert AnswerableIn(k, s.up[0], l.at, l.txId) == [x];
      var (acts, ends) := OnFrame(k, charger, s.up[0], l.at, l.txId);
      BlockFrames(k, charger, acts, x, ends);
      assert s.up[1..] == [];
    }
  }

  lemma ReceiveInStep(k: Codec, charger: string, s: Net)
    requires InStep(k, s)
    ensures InStep(k, Next(k, charger, s, Receive))
  {
  }

  /** In every run without a timeout, whatever the client calls with and however the two sides are
      scheduled, at most one call is outstanding, and every response taken is the one to the call just
      sent, although sendAndWait never compares ids. */
  lemma {:induction false} OneOutstandingCall(k: Codec, charger: string, ls: seq<Label>)
    requires Sound(k) && forall i :: 0 <= i < |ls| ==> !ls[i].Timeout?
    ensures InStep(k, Run(k, charger, ls))
    ensures var s := Run(k, charger, ls);
            |s.up| + |s.down| <= 1 && forall i :: 0 <= i < |s.log| ==> s.log[i].asked == s.log[i].got
  {
    hide Next;
    if ls != [] {
      var front, l := ls[..|ls| - 1], ls[|ls| - 1];
      OneOutstandingCall(k, charger, front);
      var s := Run(k, charger, front);
      match l
      case Send(_, _, _) => SendInStep(k, charger, s, l);
      case Serve(_, _) => ServeInStep(k, charger, s, l);
      case Receive => ReceiveInStep(k, charger, s);
    }
    var s := Run(k, charger, ls);
    assert forall i :: 0 <= i < |s.log| ==> s.log[i] in s.log;
  }

  // ---------------------------------------------------------------- with timeouts

  function UpId(data: Text): Text {
    match CallIn(data)
    case Some(m) => m.messageId
    case None => []
  }

  function DownId(data: Text): Text {
    match ParseMessage(data)
    case Parsed(m) => m.messageId
    case Failed(_) => []
  }

  function UpIds(up: seq<Text>): seq<Text> {
    seq(|up|, i requires 0 <= i < |up| => UpId(up[i]))
  }

  function DownIds(down: seq<Text>): seq<Text> {
    seq(|down|, i requires 0 <= i < |down| => DownId(down[i]))
  }

  /** The ids of the calls whose response the client can still be given, in the order it will be. */
  function Owed(s: Net): seq<Text> {
    DownIds(s.down) + if s.closed then [] else UpIds(s.up)
  }

  function SentIds(ls: seq<Label>): seq<Text> {
    if ls == [] then []
    else SentIds(ls[..|ls| - 1]) + if ls[|ls| - 1].Send? then [ls[|ls| - 1].messageId] else []
  }

  ghost predicate Distinct(ids: seq<Text>) {
    forall i, j :: 0 <= i < j < |ids| ==> ids[i] != ids[j]
  }

  ghost predicate InFlight(k: Codec, s: Net) {
    && (forall i :: 0 <= i < |s.up| ==> Asks(k, s.up[i], UpId(s.up[i])))
    && (forall i :: 0 <= i < |s.down| ==> Answers(s.down[i], DownId(s.down[i])))
  }

  ghost predicate AllAlone(log: seq<Exchange>) {
    forall i :: 0 <= i < |log| ==> log[i].alone
  }

  /** A response is the awaited one just when its call was alone; and no call is alone after one that
      was not. */
  ghost predicate Explained(log: seq<Exchange>) {
    && (forall i :: 0 <= i < |log| ==> (log[i].asked == log[i].got <==> log[i].alone))
    && (forall i, j :: 0 <= i < j < |log| && log[j].alone ==> log[i].alone)
  }

  /** The client and its log, in terms of the calls outstanding: the first response to come is the
      awaited one just when the call was alone; once a call has been left behind, the client is never
      alone again. */
  ghost predicate Fits(client: Client, log: seq<Exchange>, closed: bool, q: seq<Text>) {
    && Explained(log)
    && (match client
        case Ready => q == [] && !closed ==> AllAlone(log)
        case Waiting(id, alone) =>
          if alone then (q == [id] || (q == [] && closed)) && AllAlone(log)
          else (closed || |q| > 1) && (q != [] ==> q[0] != id))
  }

  ghost predicate Queued(k: Codec, s: Net, ids: seq<Text>) {
    && InFlight(k, s)
    && Fits(s.client, s.log, s.closed, Owed(s))
    && (forall i :: 0 <= i < |Owed(s)| ==> Owed(s)[i] in ids)
  }

  lemma FitsSend(log: seq<Exchange>, q: seq<Text>, id: Text)
    requires Fits(Ready, log, false, q) && id !in q
    ensures Fits(Waiting(id, q == []), log, false, q + [id])
  {
    assert q != [] ==> q[0] in q;
  }

  lemma FitsReceive(id: Text, alone: bool, log: seq<Exchange>, closed: bool, q: seq<Text>)
    requires Fits(Waiting(id, alone), log, closed, q) && q != []
    ensures Fits(Ready, log + [Exchange(id, q[0], alone)], closed, q[1..])
  {
  }

  lemma FitsClose(client: Client, log: seq<Exchange>, q: seq<Text>, rest: seq<Text>)
    requires Fits(client, log, false, q + rest)
    requires client.Waiting? && client.alone ==> rest != []
    ensures Fits(client, log, true, q)
  {
    if client.Waiting? && client.alone {
      assert |q| == 0;
    } else if q != [] {
      assert (q + rest)[0] == q[0];
    }
  }

  lemma OwedSend(k: Codec, s: Net, s': Net, f: Text, id: Text)
    requires InFlight(k, s) && !s.closed && s.client.Ready? && Asks(k, f, id)
    requires s' == s.(client := Waiting(id, s.up == [] && s.down == []), up := s.up + [f])
    ensures Owed(s') == Owed(s) + [id] && InFlight(k, s') && s'.client.alone == (Owed(s) == [])
  {
    assert UpId(f) == id;
    hide Asks, Answers, UpId, DownId;
    assert UpIds(s'.up) == UpIds(s.up) + [id];
  }

  lemma SendQueued(k: Codec, charger: string, s: Net, l: Label, ids: seq<Text>)
    requires Sound(k) && Queued(k, s, ids) && l.Send? && l.messageId !in ids
    ensures Queued(k, Next(k, charger, s, l), ids + [l.messageId])
  {
    var s' := Next(k, charger, s, l);
    if s' != s {
      assert Asks(k, s'.up[|s.up|], l.messageId) by {
        CallRoundTrip(l.messageId, l.action, l.payload, k.prints);
      }
      OwedSend(k, s, s', s'.up[|s.up|], l.messageId);
      hide Next, CallIn, Asks, Owed, Fits, InFlight, AfterSend;
      FitsSend(s.log, Owed(s), l.messageId);
    }
  }

  lemma MovesOver(up: seq<Text>, down: seq<Text>, frame: Text)
    requires up != [] && DownId(frame) == UpId(up[0])
    ensures DownIds(down + [frame]) + UpIds(up[1..]) == DownIds(down) + UpIds(up)
  {
    hide UpId, DownId;
    assert DownIds(down + [frame]) == DownIds(down) + [UpId(up[0])];
    assert UpIds(up) == [UpId(up[0])] + UpIds(up[1..]);
  }

  lemma StillInFlight(k: Codec, s: Net, s': Net, frames: seq<Text>)
    requires InFlight(k, s) && s.up != [] && s'.up == s.up[1..] && s'.down == s.down + frames
    requires forall i :: 0 <= i < |frames| ==> Answers(frames[i], DownId(frames[i]))
    ensures InFlight(k, s')
  {
    hide Asks, Answers, UpId, DownId;
  }

  /** The gateway answers the oldest frame, or its loop ends with that frame. */
  lemma Served(k: Codec, charger: string, s: Net, l: Label) returns (frames: seq<Text>)
    requires Sound(k) && InFlight(k, s) && l.Serve? && s.up != [] && !s.closed
    ensures var s' := Next(k, charger, s, l);
            && s' == s.(up := s.up[1..], down := s.down + frames, closed := s'.closed)
            && if s'.closed then frames == [] else |frames| == 1 && Answers(frames[0], UpId(s.up[0]))
  {
    assert Asks(k, s.up[0], UpId(s.up[0]));
    FrameActs(k, charger, s.up[0], l.at, l.txId);
    var x := Asked(CallIn(s.up[0]).value, l.at, l.txId);
    assert AnswerableIn(k, s.up[0], l.at, l.txId) == [x];
    var (acts, ends) := OnFrame(k, charger, s.up[0], l.at, l.txId);
    BlockFrames(k, charger, acts, x, ends);
    frames := Frames(acts);
  }

  lemma Moves(k: Codec, s: Net, s': Net, frame: Text, ids: seq<Text>)
    requires Queued(k, s, ids) && !s.closed && s.up != [] && Answers(frame, UpId(s.up[0]))
    requires s' == s.(up := s.up[1..], down := s.down + [frame])
    ensures Queued(k, s', ids)
  {
    assert DownId(frame) == UpId(s.up[0]);
    hide Fits, InFlight, UpId, DownId, UpIds, DownIds, Answers;
    StillInFlight(k, s, s', [frame]);
    MovesOver(s.up, s.down, frame);
    assert Owed(s') == Owed(s);
    hide Owed;
  }

  lemma Closes(k: Codec, s: Net, s': Net, ids: seq<Text>)
    requires Queued(k, s, ids) && !s.closed && s.up != []
    requires s' == s.(up := s.up[1..], down := s'.down, closed := true) && s'.down == s.down + []
    ensures Queued(k, s', ids)
  {
    StillInFlight(k, s, s', []);
    hide Fits, InFlight, UpId, DownIds;
    assert s'.down == s.down;
    assert Owed(s) == DownIds(s.down) + UpIds(s.up) && Owed(s') == DownIds(s.down);
    FitsClose(s.client, s.log, DownIds(s.down), UpIds(s.up));
    assert forall i :: 0 <= i < |Owed(s')| ==> Owed(s')[i] == Owed(s)[i];
  }

  lemma ServeQueued(k: Codec, charger: string, s: Net, l: Label, ids: seq<Text>)
    requires Sound(k) && Queued(k, s, ids) && l.Serve?
    ensures Queued(k, Next(k, charger, s, l), ids)
  {
    hide Fits, AfterServe, InFlight, Owed, Answers;
    if s.up != [] && !s.closed {
      var s' := Next(k, charger, s, l);
      var frames := Served(k, charger, s, l);
      hide Next, Queued;
      if s'.closed {
        Closes(k, s, s', ids);
      } else {
        Moves(k, s, s', frames[0], ids);
      }
    }
  }

  lemma Received(s: Net, id: Text)
    requires s.client.Waiting? && s.down != [] && Answers(s.down[0], id)
    ensures AfterReceive(s) == s.(client := Ready, down := s.down[1..],
                                  log := s.log + [Exchange(s.client.messageId, id, s.client.alone)])
  {
    hide ParseMessage;
  }

  lemma ReceiveQueued(k: Codec, charger: string, s: Net, ids: seq<Text>)
    requires Queued(k, s, ids)
    ensures Queued(k, Next(k, charger, s, Receive), ids)
  {
    hide AfterReceive, Answers, DownId, Fits, UpIds, Asks;
    var s' := Next(k, charger, s, Receive);
    if s.client.Waiting? && s.down != [] {
      var id := DownId(s.down[0]);
      assert Answers(s.down[0], id);
      Received(s, id);
      hide Next;
      assert DownIds(s'.down) == DownIds(s.down)[1..];
      assert Owed(s)[0] == id && Owed(s') == Owed(s)[1..];
      hide Owed;
      FitsReceive(s.client.messageId, s.client.alone, s.log, s.closed, Owed(s));
    }
  }

  lemma TimeoutQueued(k: Codec, charger: string, s: Net, ids: seq<Text>)
    requires Queued(k, s, ids)
    ensures Queued(k, Next(k, charger, s, Timeout), ids)
  {
    assert Owed(Next(k, charger, s, Timeout)) == Owed(s);
    hide Owed;
  }

  lemma {:induction false} RunQueued(k: Codec, charger: string, ls: seq<Label>)
    requires Sound(k) && Distinct(SentIds(ls))
    ensures Queued(k, Run(k, charger, ls), SentIds(ls))
    decreases |ls|
  {
    if ls != [] {
      var front, l := ls[..|ls| - 1], ls[|ls| - 1];
      var ids := SentIds(ls);
      assert SentIds(front) == ids[..|SentIds(front)|];
      assert l.Send? ==> ids[|ids| - 1] == l.messageId && ids == SentIds(front) + [l.messageId];
      assert forall i, j :: 0 <= i < j < |SentIds(front)| ==> ids[i] != ids[j];
      RunQueued(k, charger, front);
      var s := Run(k, charger, front);
      hide Next, SentIds, Queued;
      match l
      case Send(_, _, _) => SendQueued(k, charger, s, l, SentIds(front));
      case Serve(_, _) => ServeQueued(k, charger, s, l, SentIds(front));
      case Receive => ReceiveQueued(k, charger, s, SentIds(front));
      case Timeout => TimeoutQueued(k, charger, s, SentIds(front));
    }
  }

  /** The exact condition, over every run with any timeouts: if calls carry distinct ids, a response
      taken is the answer to the call just sent if and only if nothing else was outstanding when that
      call was sent. And step is never found again: after one response to another call, every later
      response is one to another call. */
  lemma MatchesIffAlone(k: Codec, charger: string, ls: seq<Label>)
    requires Sound(k) && Distinct(SentIds(ls))
    ensures var log := Run(k, charger, ls).log;
            && (forall i :: 0 <= i < |log| ==> (log[i].asked == log[i].got <==> log[i].alone))
            && (forall i, j :: 0 <= i < j < |log| && log[j].asked == log[j].got ==> log[i].asked == log[i].got)
  {
    RunQueued(k, charger, ls);
  }

  lemma SendStep(k: Codec, charger: string, s: Net, id: Text, action: Text, payload: Text) returns (frame: Text)
    requires GoPrints(k.prints) && Quotable(id, k.prints) && Quotable(action, k.prints) && Parse(payload).Some?
    requires s.client.Ready? && !s.closed
    ensures Next(k, charger, s, Send(id, action, payload))
            == s.(client := Waiting(id, s.up == [] && s.down == []), up := s.up + [frame])
    ensures Asks(k, frame, id)
  {
    CallRoundTrip(id, action, payload, k.prints);
    frame := MakeCall(id, action, Some(payload), k.prints).value;
  }

  lemma ServeStep(k: Codec, charger: string, s: Net, id: Text, at: Moment, txId: int) returns (frame: Text)
    requires Sound(k) && s.up != [] && !s.closed && Asks(k, s.up[0], id) && at.writeOk
    ensures Next(k, charger, s, Serve(at, txId)) == s.(up := s.up[1..], down := s.down + [frame])
    ensures Answers(frame, id)
  {
    FrameActs(k, charger, s.up[0], at, txId);
    var x := Asked(CallIn(s.up[0]).value, at, txId);
    assert AnswerableIn(k, s.up[0], at, txId) == [x];
    var acts := OnFrame(k, charger, s.up[0], at, txId).0;
    BlockFrames(k, charger, acts, x, false);
    frame := Frames(acts)[0];
    assert Frames(acts) == [frame];
  }

  lemma LateTimeout(k: Codec, charger: string, frame: Text, a: Text)
    ensures Next(k, charger, Net(Waiting(a, true), [frame], [], false, []), Timeout)
            == Net(Ready, [frame], [], false, [])
  {
  }

  lemma LateReceive(k: Codec, charger: string, s: Net, a: Text, b: Text)
    requires s.client == Waiting(b, false) && |s.down| == 1 && Answers(s.down[0], a) && s.log == []
    ensures Next(k, charger, s, Receive).log == [Exchange(b, a, false)]
  {
    Received(s, a);
  }

  lemma Unroll(k: Codec, charger: string, ls: seq<Label>)
    requires |ls| == 5
    ensures Run(k, charger, ls)
         == Next(k, charger, Next(k, charger, Next(k, charger, Next(k, charger, Next(k, charger, QUIET, ls[0]),
             ls[1]), ls[2]), ls[3]), ls[4])
  {
    hide Next;
    assert ls[..4][..3] == ls[..3] && ls[..3][..2] == ls[..2] && ls[..2][..1] == ls[..1];
    assert Run(k, charger, ls[..1]) == Next(k, charger, Run(k, charger, ls[..1][..0]), ls[0]);
    assert Run(k, charger, ls[..2]) == Next(k, charger, Run(k, charger, ls[..1]), ls[1]);
    assert Run(k, charger, ls[..3]) == Next(k, charger, Run(k, charger, ls[..2]), ls[2]);
    assert Run(k, charger, ls[..4]) == Next(k, charger, Run(k, charger, ls[..3]), ls[3]);
  }

  /** With one timeout that a caller ignores, the client takes the late response for the next one: any
      two calls with different ids show it. */
  lemma TimeoutBreaksStep(k: Codec, charger: string, a: Text, b: Text, action: Text, payload: Text, at: Moment)
    requires Sound(k) && Quotable(a, k.prints) && Quotable(b, k.prints) && Quotable(action, k.prints) && a != b
    requires Parse(payload).Some? && at.writeOk
    ensures Run(k, charger, [Send(a, action, payload), Timeout, Send(b, action, payload), Serve(at, 0),
            Receive]).log == [Exchange(b, a, false)]
  {
    hide Next, Answers, Asks;
    Unroll(k, charger, [Send(a, action, payload), Timeout, Send(b, action, payload), Serve(at, 0), Receive]);
    var fa := SendStep(k, charger, QUIET, a, action, payload);
    var s1 := Net(Ready, [fa], [], false, []);
    LateTimeout(k, charger, fa, a);
    var fb := SendStep(k, charger, s1, b, action, payload);
    var s2 := Net(Waiting(b, false), [fa, fb], [], false, []);
    var r := ServeStep(k, charger, s2, a, at, 0);
    LateReceive(k, charger, Net(Waiting(b, false), [fb], [r], false, []), a, b);
    assert [fa, fb][1..] == [fb] && [] + [r] == [r] && [fa] + [fb] == [fa, fb] && [] + [fa] == [fa];
  }
}
