/** The gateway: one loop per charge point connection that reads frames, answers the calls among them
    and publishes an event for each supported action. */
module Gateway {
  import opened Domain
  import opened Json
  import opened Framing
  import opened Ocpp

  /** The payload of a response. */
  datatype Reply = BootConf(at: Nanos) | HeartbeatConf(at: Nanos) | StartConf(transactionId: int) | StopConf | EmptyConf

  /** What decoding finds in the payload of an action: the two fields the gateway reads (0 for a
      missing connector, None for a missing or unreadable timestamp) and the payload as the state
      processor will decode it. */
  datatype Content = Content(connectorId: int, timestamp: Option<Nanos>, body: Body)

  /** The library functions the gateway relies on: strconv.IsPrint, json.Marshal of a response, and
      the decoding of a payload. */
  datatype Codec = Codec(prints: Unit -> bool, marshal: Reply -> Text, decode: (Text, Text) -> Content)

  ghost predicate Sound(k: Codec) {
    GoPrints(k.prints) && forall r :: Parse(k.marshal(r)).Some?
  }

  /** What the world contributes while one frame is handled. */
  datatype Moment = Moment(replyAt: Nanos, eventAt: Nanos, receivedAt: Nanos, uuid: string, writeOk: bool,
      publishOk: bool)

  datatype Act =
    | Wrote(messageId: Text, reply: Reply, frame: Text)
    | Sent(topic: Topic, event: Event, ok: bool)

  /** A string as json.Marshal writes it into an event: invalid bytes become U+FFFD. */
  function ToString(t: Text): (s: string)
    ensures |s| == |t|
  {
    seq(|t|, i requires 0 <= i < |t| => (if t[i] < BAD then t[i] else REPLACEMENT) as char)
  }

  /** The same characters. */
  predicate SameText(s: string, t: Text) {
    |s| == |t| && forall i :: 0 <= i < |s| ==> s[i] as int == t[i]
  }

  lemma CleanText(t: Text)
    requires Clean(t)
    ensures SameText(ToString(t), t)
  {
  }

  /** The second result of processCall and the payload of its first. */
  function Route(action: Text, replyAt: Nanos, txId: int): (Reply, Option<Topic>) {
    var topic := TopicFor(action);
    if action == BOOT_NOTIFICATION then (BootConf(replyAt), topic)
    else if action == HEARTBEAT then (HeartbeatConf(replyAt), topic)
    else if action == START_TRANSACTION then (StartConf(txId), topic)
    else if action == STOP_TRANSACTION then (StopConf, topic)
    else (EmptyConf, topic)
  }

  /** The reply each action is due: the time for a BootNotification and a Heartbeat, the transaction id
      for a StartTransaction, nothing for any other. */
  predicate Due(action: Text, replyAt: Nanos, txId: int, reply: Reply) {
    && (action == Ascii("BootNotification") ==> reply == BootConf(replyAt))
    && (action == Ascii("Heartbeat") ==> reply == HeartbeatConf(replyAt))
    && (action == Ascii("StartTransaction") ==> reply == StartConf(txId))
    && (action == Ascii("StopTransaction") ==> reply == StopConf)
    && (action !in {Ascii("BootNotification"), Ascii("Heartbeat"), Ascii("StartTransaction"), Ascii("StopTransaction")}
        ==> reply == EmptyConf)
  }

  /** The topic it is published to; a Start and a Stop share one. */
  predicate Bound(action: Text, topic: Option<Topic>) {
    && (action == Ascii("BootNotification") ==> topic == Some(BootTopic))
    && (action == Ascii("StatusNotification") ==> topic == Some(StatusTopic))
    && (action == Ascii("MeterValues") ==> topic == Some(MeterTopic))
    && (action == Ascii("Heartbeat") ==> topic == Some(HeartbeatTopic))
    && (action in {Ascii("StartTransaction"), Ascii("StopTransaction")} ==> topic == Some(TxTopic))
    && (topic.Some? ==> action in {Ascii("BootNotification"), Ascii("StatusNotification"), Ascii("MeterValues"),
            Ascii("Heartbeat"), Ascii("StartTransaction"), Ascii("StopTransaction")})
  }

  lemma RouteTopic(action: Text, at: Nanos, txId: int)
    ensures Route(action, at, txId).1 == TopicFor(action)
  {
  }

  lemma RouteIsDue(action: Text, at: Nanos, txId: int)
    ensures Due(action, at, txId, Route(action, at, txId).0) && Bound(action, TopicFor(action))
  {
    ActionsDiffer();
  }

  function MakeEvent(k: Codec, charger: string, m: Message, t: Moment): Event {
    var c := k.decode(m.action, m.payload);
    var stamped := c.timestamp.Some? && c.timestamp.value != 0;
    Event(t.uuid, ToString(m.messageId), charger, c.connectorId, if stamped then c.timestamp.value else t.eventAt,
          t.receivedAt, c.body)
  }

  /** The CALL a frame holds, if it holds one. */
  function CallIn(data: Text): Option<Message> {
    match ParseMessage(data)
    case Failed(_) => None
    case Parsed(m) => if m.typeId == CALL then Some(m) else None
  }

  /** A frame whose handling takes a transaction id. */
  predicate TakesId(data: Text) {
    CallIn(data).Some? && CallIn(data).value.action == START_TRANSACTION
  }

  function Report(k: Codec, charger: string, m: Message, t: Moment, topic: Option<Topic>): seq<Act> {
    if topic.Some? then [Sent(topic.value, MakeEvent(k, charger, m, t), t.publishOk)] else []
  }

  /** The acts for one frame when its transaction id, if it takes one, is txId; and whether the
      connection is given up. */
  function OnFrame(k: Codec, charger: string, data: Text, t: Moment, txId: int): (seq<Act>, bool) {
    match CallIn(data)
    case None => ([], false)
    case Some(m) =>
      var (reply, topic) := Route(m.action, t.replyAt, txId);
      match MakeCallResult(m.messageId, Some(k.marshal(reply)), k.prints)
      case None => ([], false)
      case Some(frame) =>
        if !t.writeOk then ([], true)
        else ([Wrote(m.messageId, reply, frame)] + Report(k, charger, m, t, topic), false)
  }

  /** A frame as it is read, with the moment at which it is handled. */
  datatype Inbound = Inbound(data: Text, at: Moment)

  /** One connection. */
  datatype Link = Link(charger: string, inbound: seq<Inbound>)

  /** The loop over the first n frames, with the given transaction ids. */
  function Serve(k: Codec, x: Link, n: nat, ids: seq<int>): (seq<Act>, bool)
    requires n <= |x.inbound| && n <= |ids|
  {
    if n == 0 then ([], false)
    else
      var (acts, closed) := Serve(k, x, n - 1, ids);
      if closed then (acts, true)
      else
        var (more, ends) := OnFrame(k, x.charger, x.inbound[n - 1].data, x.inbound[n - 1].at, ids[n - 1]);
        (acts + more, ends)
  }

  // ---------------------------------------------------------------- the loop

  const MAX64: int := 0x7FFF_FFFF_FFFF_FFFF

  /** atomic.AddInt64(&counter, 1). */
  function Increase(counter: int): int {
    if counter == MAX64 then -MAX64 - 1 else counter + 1
  }

  /** It stays a signed 64-bit number, and is one more modulo 2^64. */
  lemma IncreaseWraps(counter: int)
    requires -0x8000_0000_0000_0000 <= counter < 0x8000_0000_0000_0000
    ensures -0x8000_0000_0000_0000 <= Increase(counter) < 0x8000_0000_0000_0000
    ensures (Increase(counter) - (counter + 1)) % 0x1_0000_0000_0000_0000 == 0
  {
  }

  /** The ids a connection gets that is alone on the gateway, and the counter afterwards. */
  function IdsAlone(inbound: seq<Inbound>, counter: int): (r: (seq<int>, int))
    ensures |r.0| == |inbound|
  {
    if inbound == [] then ([], counter)
    else
      var n := |inbound| - 1;
      var (ids, c) := IdsAlone(inbound[..n], counter);
      var c' := if TakesId(inbound[n].data) then Increase(c) else c;
      (ids + [c'], c')
  }

  /** Only the ids of the frames served matter. */
  lemma {:induction false} ServeIds(k: Codec, x: Link, n: nat, ids: seq<int>, more: seq<int>)
    requires n <= |x.inbound| && n <= |ids| <= |more| && ids[..n] == more[..n]
    ensures Serve(k, x, n, ids) == Serve(k, x, n, more)
  {
    if n > 0 {
      assert ids[..n - 1] == ids[..n][..n - 1] && more[..n - 1] == more[..n][..n - 1];
      assert ids[n - 1] == ids[..n][n - 1] && more[n - 1] == more[..n][n - 1];
      ServeIds(k, x, n - 1, ids, more);
    }
  }

  /** One more frame served alone. */
  lemma ServeOne(k: Codec, x: Link, n: nat, c0: int)
    requires n < |x.inbound| && !Serve(k, x, n, IdsAlone(x.inbound[..n], c0).0).1
    ensures var c := IdsAlone(x.inbound[..n], c0).1; var c' := IdsAlone(x.inbound[..n + 1], c0).1;
            var (more, ends) := OnFrame(k, x.charger, x.inbound[n].data, x.inbound[n].at, c');
            && c' == (if TakesId(x.inbound[n].data) then Increase(c) else c)
            && Serve(k, x, n + 1, IdsAlone(x.inbound[..n + 1], c0).0)
            == (Serve(k, x, n, IdsAlone(x.inbound[..n], c0).0).0 + more, ends)
  {
    assert x.inbound[..n + 1][..n] == x.inbound[..n];
    ServeIds(k, x, n, IdsAlone(x.inbound[..n], c0).0, IdsAlone(x.inbound[..n + 1], c0).0);
  }

  class Hub {
    var txCounter: int
    const codec: Codec

    constructor (codec: Codec)
      ensures this.codec == codec && txCounter == 0
    {
      this.codec := codec;
      txCounter := 0;
    }

    method ProcessCall(m: Message, t: Moment) returns (reply: Reply, topic: Option<Topic>)
      modifies this`txCounter
      ensures txCounter == if m.action == START_TRANSACTION then Increase(old(txCounter)) else old(txCounter)
      ensures (reply, topic) == Route(m.action, t.replyAt, txCounter)
      ensures Due(m.action, t.replyAt, txCounter, reply) && Bound(m.action, topic)
    {
      hide Due, Bound;
      ActionsDiffer();
      if m.action == BOOT_NOTIFICATION {
        reply, topic := BootConf(t.replyAt), Some(BootTopic);
      } else if m.action == STATUS_NOTIFICATION {
        reply, topic := EmptyConf, Some(StatusTopic);
      } else if m.action == METER_VALUES {
        reply, topic := EmptyConf, Some(MeterTopic);
      } else if m.action == HEARTBEAT {
        reply, topic := HeartbeatConf(t.replyAt), Some(HeartbeatTopic);
      } else if m.action == START_TRANSACTION {
        txCounter := Increase(txCounter);
        reply, topic := StartConf(txCounter), Some(TxTopic);
      } else if m.action == STOP_TRANSACTION {
        reply, topic := StopConf, Some(TxTopic);
      } else {
        reply, topic := EmptyConf, None;
      }
      RouteTopic(m.action, t.replyAt, txCounter);
      RouteIsDue(m.action, t.replyAt, txCounter);
    }

    /** The body of the loop: one frame read. */
    method OnRead(charger: string, data: Text, t: Moment) returns (acts: seq<Act>, closed: bool)
      modifies this`txCounter
      ensures txCounter == if TakesId(data) then Increase(old(txCounter)) else old(txCounter)
      ensures (acts, closed) == OnFrame(codec, charger, data, t, txCounter)
    {
      hide Route, ParseMessage, MakeCallResult, MakeEvent;
      acts, closed := [], false;
      var parsed := ParseMessage(data);
      if parsed.Failed? {
        return;
      }
      var m := parsed.message;
      if m.typeId != CALL {
        return;
      }
      var reply, topic := ProcessCall(m, t);
      var frame := MakeCallResult(m.messageId, Some(codec.marshal(reply)), codec.prints);
      if frame.None? {
        return;
      }
      if !t.writeOk {
        return [], true;
      }
      acts := [Wrote(m.messageId, reply, frame.value)];
      if topic.Some? {
        acts := acts + [Sent(topic.value, MakeEvent(codec, charger, m, t), t.publishOk)];
      }
      assert acts == [Wrote(m.messageId, reply, frame.value)] + Report(codec, charger, m, t, topic);
    }

    /** handleOCPP from the accepted connection to the end of its frames or to a failed write. */
    method HandleOCPP(x: Link) returns (acts: seq<Act>, closed: bool, served: nat)
      modifies this`txCounter
      ensures served <= |x.inbound| && (closed || served == |x.inbound|)
      ensures (acts, closed) == Serve(codec, x, served, IdsAlone(x.inbound[..served], old(txCounter)).0)
      ensures txCounter == IdsAlone(x.inbound[..served], old(txCounter)).1
    {
      acts, closed, served := [], false, 0;
      ghost var c0 := txCounter;
      while served < |x.inbound| && !closed
        invariant served <= |x.inbound|
        invariant (acts, closed) == Serve(codec, x, served, IdsAlone(x.inbound[..served], c0).0)
        invariant txCounter == IdsAlone(x.inbound[..served], c0).1
        decreases |x.inbound| - served
      {
        var more;
        more, closed := OnRead(x.charger, x.inbound[served].data, x.inbound[served].at);
        ServeOne(codec, x, served, c0);
        acts := acts + more;
        served := served + 1;
      }
    }
  }

  // ---------------------------------------------------------------- what a trace looks like

  /** A call, the moment at which it is handled, and the counter's value then. */
  datatype Asked = Asked(message: Message, at: Moment, txId: int)

  /** The call of a frame, if it can be answered. */
  function AnswerableIn(k: Codec, data: Text, at: Moment, txId: int): seq<Asked> {
    var m := CallIn(data);
    if m.Some? && Quotable(m.value.messageId, k.prints) then [Asked(m.value, at, txId)] else []
  }

  /** The calls among the frames that can be answered, in order. */
  function Answerable(k: Codec, inbound: seq<Inbound>, ids: seq<int>): seq<Asked>
    requires |inbound| <= |ids|
  {
    if inbound == [] then []
    else
      var n := |inbound| - 1;
      Answerable(k, inbound[..n], ids) + AnswerableIn(k, inbound[n].data, inbound[n].at, ids[n])
  }

  function Responses(acts: seq<Act>): seq<Act> {
    if acts == [] then []
    else Responses(acts[..|acts| - 1]) + if acts[|acts| - 1].Wrote? then [acts[|acts| - 1]] else []
  }

  function Publications(acts: seq<Act>): seq<Act> {
    if acts == [] then []
    else Publications(acts[..|acts| - 1]) + if acts[|acts| - 1].Sent? then [acts[|acts| - 1]] else []
  }

  function Supported(ms: seq<Asked>): seq<Asked> {
    if ms == [] then []
    else Supported(ms[..|ms| - 1]) + if TopicFor(ms[|ms| - 1].message.action).Some? then [ms[|ms| - 1]] else []
  }

  /** The response to a call: it is the reply due, and reads back as a CALLRESULT with the call's id. */
  ghost predicate Responds(k: Codec, a: Act, x: Asked) {
    && a.Wrote? && a.messageId == x.message.messageId && Due(x.message.action, x.at.replyAt, x.txId, a.reply)
    && Compact(k.marshal(a.reply)).Some?
    && ParseMessage(a.frame)
    == Parsed(Message(CALL_RESULT, x.message.messageId, [], Compact(k.marshal(a.reply)).value))
  }

  /** The event of a call: on the action's topic, under an id of its own, with the call's id, charger,
      connector and payload; at the time its payload gives, or else at the gateway's. */
  ghost predicate Reports(k: Codec, charger: string, a: Act, x: Asked) {
    && a.Sent? && Bound(x.message.action, Some(a.topic)) && a.ok == x.at.publishOk
    && a.event.eventId == x.at.uuid && a.event.receivedAt == x.at.receivedAt
    && a.event.messageId == ToString(x.message.messageId) && SameText(a.event.messageId, x.message.messageId)
    && a.event.charger == charger
    && (var c := k.decode(x.message.action, x.message.payload);
        && a.event.connector == c.connectorId && a.event.body == c.body
        && (c.timestamp.None? || c.timestamp.value == 0 ==> a.event.timestamp == x.at.eventAt)
        && (c.timestamp.Some? && c.timestamp.value != 0 ==> a.event.timestamp == c.timestamp.value))
  }

  ghost predicate RespondsAll(k: Codec, acts: seq<Act>, ms: seq<Asked>) {
    |acts| == |ms| && forall i :: 0 <= i < |acts| ==> Responds(k, acts[i], ms[i])
  }

  ghost predicate ReportsAll(k: Codec, charger: string, acts: seq<Act>, ms: seq<Asked>) {
    |acts| == |ms| && forall i :: 0 <= i < |acts| ==> Reports(k, charger, acts[i], ms[i])
  }

  /** Every publication comes right after the response to its own call. */
  ghost predicate ResponseFirst(acts: seq<Act>) {
    forall i :: 0 <= i < |acts| && acts[i].Sent? ==>
      i > 0 && acts[i - 1].Wrote? && ToString(acts[i - 1].messageId) == acts[i].event.messageId
  }

  /** A response, and an event if the action is a supported one. */
  ghost predicate IsBlock(k: Codec, charger: string, acts: seq<Act>, x: Asked) {
    if TopicFor(x.message.action).Some? then |acts| == 2 && Responds(k, acts[0], x) && Reports(k, charger, acts[1], x)
    else |acts| == 1 && Responds(k, acts[0], x)
  }

  lemma EventReports(k: Codec, charger: string, x: Asked)
    requires TopicFor(x.message.action).Some? && Clean(x.message.messageId)
    ensures Reports(k, charger, Sent(TopicFor(x.message.action).value, MakeEvent(k, charger, x.message, x.at),
        x.at.publishOk), x)
  {
    RouteIsDue(x.message.action, x.at.replyAt, x.txId);
    CleanText(x.message.messageId);
    hide Bound, TopicFor, SameText, ToString;
  }

  lemma FrameResponds(k: Codec, x: Asked, frame: Text)
    requires Sound(k)
    requires var reply := Route(x.message.action, x.at.replyAt, x.txId).0;
             MakeCallResult(x.message.messageId, Some(k.marshal(reply)), k.prints) == Some(frame)
    ensures Responds(k, Wrote(x.message.messageId, Route(x.message.action, x.at.replyAt, x.txId).0, frame), x)
  {
    var reply := Route(x.message.action, x.at.replyAt, x.txId).0;
    RouteIsDue(x.message.action, x.at.replyAt, x.txId);
    CallResultRoundTrip(x.message.messageId, k.marshal(reply), k.prints);
    hide Route, Due, Bound, TopicFor, ParseMessage, MakeCallResult, Parse, Quotable;
  }

  /** The response and the report of one call. */
  lemma BlockOf(k: Codec, charger: string, x: Asked, frame: Text)
    requires Sound(k) && Clean(x.message.messageId)
    requires var reply := Route(x.message.action, x.at.replyAt, x.txId).0;
             MakeCallResult(x.message.messageId, Some(k.marshal(reply)), k.prints) == Some(frame)
    ensures var reply := Route(x.message.action, x.at.replyAt, x.txId).0;
            IsBlock(k, charger, [Wrote(x.message.messageId, reply, frame)]
                                + Report(k, charger, x.message, x.at, TopicFor(x.message.action)), x)
  {
    FrameResponds(k, x, frame);
    hide Route, TopicFor, MakeCallResult, MakeEvent, Responds, Reports, Clean, Sound;
    if TopicFor(x.message.action).Some? {
      EventReports(k, charger, x);
    }
  }

  /** What one frame adds. */
  lemma FrameActs(k: Codec, charger: string, data: Text, t: Moment, txId: int)
    requires Sound(k)
    ensures var ms := AnswerableIn(k, data, t, txId); var (acts, ends) := OnFrame(k, charger, data, t, txId);
            && |ms| <= 1 && (ends <==> ms != [] && !t.writeOk)
            && (if ms != [] && t.writeOk then IsBlock(k, charger, acts, ms[0]) else acts == [])
  {
    var m := CallIn(data);
    if m.Some? {
      var reply := Route(m.value.action, t.replyAt, txId).0;
      var frame := MakeCallResult(m.value.messageId, Some(k.marshal(reply)), k.prints);
      RouteTopic(m.value.action, t.replyAt, txId);
      CallsAreClean(data);
      CallResultRoundTrip(m.value.messageId, k.marshal(reply), k.prints);
      if frame.Some? {
        BlockOf(k, charger, Asked(m.value, t, txId), frame.value);
      }
      hide Route, TopicFor, ParseMessage, MakeCallResult, Report, Compact, Parse, Quotable, IsBlock, SameMeaning, Clean;
    }
  }

  /** The frame is read as a CALL whose id can be quoted. */
  ghost predicate HoldsCall(k: Codec, data: Text) {
    exists id, action, payload ::
      ParseMessage(data) == Parsed(Message(2, id, action, payload)) && Quotable(id, k.prints)
  }

  /** Every other frame is passed over: text that is no message, a response, a message of an unknown type,
      a call that cannot be answered. */
  lemma SilentIff(k: Codec, charger: string, data: Text, t: Moment, txId: int)
    requires Sound(k)
    ensures OnFrame(k, charger, data, t, txId) == ([], false) <==> !HoldsCall(k, data)
  {
    FrameActs(k, charger, data, t, txId);
    if CallIn(data).Some? {
      var m := CallIn(data).value;
      assert m == Message(2, m.messageId, m.action, m.payload);
    }
    hide OnFrame, ParseMessage, Quotable, Responds, Reports;
  }

  /** Which calls are answered, frame by frame: every clean id and action can be sent, and is read as
      sent; it is answered and published if and only if the id is quotable and the response can be
      written. A call whose id is not quotable is read, and neither answered nor published, whatever
      its action. */
  lemma AnsweredIff(k: Codec, charger: string, id: Text, action: Text, payload: Tree, t: Moment, txId: int)
    requires Sound(k) && Clean(id) && Clean(action) && WellFormed(payload)
    ensures var data, m := CallFrame(id, action, payload), Message(CALL, id, action, Print(payload));
            var (acts, ends) := OnFrame(k, charger, data, t, txId);
            && ParseMessage(data) == Parsed(m)
            && (acts != [] <==> Quotable(id, k.prints) && t.writeOk)
            && (acts != [] ==> IsBlock(k, charger, acts, Asked(m, t, txId)) && !ends)
            && (!Quotable(id, k.prints) ==> !ends)
  {
    AnyCallReads(id, action, payload);
    FrameActs(k, charger, CallFrame(id, action, payload), t, txId);
  }

  /** Such ids are any with a bell, a vertical tab, a delete or another control character that has no
      letter of its own in JSON. The bell alone: */
  lemma BellIsUnanswerable(k: Codec, charger: string, action: Text, payload: Tree, t: Moment, txId: int)
    requires Sound(k) && Clean(action) && WellFormed(payload)
    ensures var data := CallFrame([0x07], action, payload);
            && ParseMessage(data) == Parsed(Message(CALL, [0x07], action, Print(payload)))
            && (forall r :: MakeCallResult([0x07], Some(k.marshal(r)), k.prints).None?)
            && OnFrame(k, charger, data, t, txId) == ([], false)
  {
    var id: Text := [0x07];
    assert !QuotableUnit(id[0], k.prints);
    AnsweredIff(k, charger, id, action, payload, t, txId);
    forall r ensures MakeCallResult(id, Some(k.marshal(r)), k.prints).None? {
      CallResultRoundTrip(id, k.marshal(r), k.prints);
    }
  }

  lemma OneAct(acts: seq<Act>, a: Act)
    ensures Responses(acts + [a]) == Responses(acts) + if a.Wrote? then [a] else []
    ensures Publications(acts + [a]) == Publications(acts) + if a.Sent? then [a] else []
  {
    assert (acts + [a])[..|acts|] == acts;
  }

  lemma OneMessage(ms: seq<Asked>, m: Asked)
    ensures Supported(ms + [m]) == Supported(ms) + if TopicFor(m.message.action).Some? then [m] else []
  {
    assert (ms + [m])[..|ms|] == ms;
  }

  /** The trace after n frames answers the first `answered` answerable calls, all of them unless the
      connection was given up. */
  ghost predicate TraceOf(k: Codec, charger: string, acts: seq<Act>, ms: seq<Asked>) {
    RespondsAll(k, Responses(acts), ms) && ReportsAll(k, charger, Publications(acts), Supported(ms))
        && ResponseFirst(acts)
  }

  lemma MoreResponses(k: Codec, acts: seq<Act>, ms: seq<Asked>, a: Act, m: Asked)
    requires RespondsAll(k, acts, ms) && Responds(k, a, m)
    ensures RespondsAll(k, acts + [a], ms + [m])
  {
  }

  lemma MoreReports(k: Codec, charger: string, acts: seq<Act>, ms: seq<Asked>, a: Act, m: Asked)
    requires ReportsAll(k, charger, acts, ms) && Reports(k, charger, a, m)
    ensures ReportsAll(k, charger, acts + [a], ms + [m])
  {
  }

  lemma StillFirst(acts: seq<Act>, a: Act, b: Act)
    requires ResponseFirst(acts) && a.Wrote?
    ensures ResponseFirst(acts + [a])
    ensures b.Sent? && ToString(a.messageId) == b.event.messageId ==> ResponseFirst(acts + [a] + [b])
  {
  }

  lemma ExtendSilent(k: Codec, charger: string, acts: seq<Act>, ms: seq<Asked>, a: Act, m: Asked)
    requires TraceOf(k, charger, acts, ms) && Responds(k, a, m) && TopicFor(m.message.action).None?
    ensures TraceOf(k, charger, acts + [a], ms + [m])
  {
    OneMessage(ms, m);
    OneAct(acts, a);
    MoreResponses(k, Responses(acts), ms, a, m);
    StillFirst(acts, a, a);
  }

  lemma ExtendLoud(k: Codec, charger: string, acts: seq<Act>, ms: seq<Asked>, a: Act, b: Act, m: Asked)
    requires TraceOf(k, charger, acts, ms) && Responds(k, a, m) && Reports(k, charger, b, m)
    ensures TraceOf(k, charger, acts + [a] + [b], ms + [m])
  {
    OneMessage(ms, m);
    OneAct(acts, a);
    OneAct(acts + [a], b);
    MoreResponses(k, Responses(acts), ms, a, m);
    MoreReports(k, charger, Publications(acts), Supported(ms), b, m);
    StillFirst(acts, a, b);
  }

  lemma ExtendTrace(k: Codec, charger: string, acts: seq<Act>, ms: seq<Asked>, more: seq<Act>, m: Asked)
    requires TraceOf(k, charger, acts, ms) && IsBlock(k, charger, more, m)
    ensures TraceOf(k, charger, acts + more, ms + [m])
  {
    hide TraceOf, Responds, Reports, TopicFor;
    if |more| == 2 {
      ExtendLoud(k, charger, acts, ms, more[0], more[1], m);
      assert acts + more == acts + [more[0]] + [more[1]];
    } else {
      ExtendSilent(k, charger, acts, ms, more[0], m);
      assert acts + more == acts + [more[0]];
    }
  }

  lemma TraceStep(k: Codec, charger: string, acts: seq<Act>, closed: bool, ms: seq<Asked>, before: nat,
                  more: seq<Act>, ends: bool, call: seq<Asked>)
    returns (answered: nat)
    requires before <= |ms| && TraceOf(k, charger, acts, ms[..before]) && (!closed <==> before == |ms|)
    requires |call| <= 1 && (ends ==> call != [])
    requires if call != [] && !ends then IsBlock(k, charger, more, call[0]) else more == []
    ensures answered <= |ms + call|
    ensures TraceOf(k, charger, if closed then acts else acts + more, (ms + call)[..answered])
    ensures !(closed || ends) <==> answered == |ms + call|
  {
    hide TraceOf, IsBlock;
    answered := before;
    if !closed && call != [] && !ends {
      answered := before + 1;
      assert ms[..before] == ms && (ms + call)[..answered] == ms + [call[0]];
      ExtendTrace(k, charger, acts, ms, more, call[0]);
    } else {
      assert (ms + call)[..answered] == ms[..before];
      assert acts + [] == acts;
    }
  }

  lemma {:induction false} AnswerableFront(k: Codec, inbound: seq<Inbound>, n: nat, ids: seq<int>)
    requires 0 < n <= |inbound| && n <= |ids|
    ensures Answerable(k, inbound[..n], ids)
         == Answerable(k, inbound[..n - 1], ids) + AnswerableIn(k, inbound[n - 1].data, inbound[n - 1].at, ids[n - 1])
  {
    assert inbound[..n][..n - 1] == inbound[..n - 1];
  }

  /** The gateway trace invariant: for any frames, any moments and any transaction ids, the responses
      written are one to one and in order with a prefix of the answerable calls, each carrying its
      call's id and the reply its action is due; the events are in order those of the supported actions
      among them, each with that call's id, connector, payload and time; and no event is published before
      its response is written. Only a failed write cuts the prefix short. */
  lemma {:induction false} TraceInvariant(k: Codec, x: Link, n: nat, ids: seq<int>) returns (answered: nat)
    requires Sound(k) && n <= |x.inbound| && n <= |ids|
    ensures var (acts, closed) := Serve(k, x, n, ids); var ms := Answerable(k, x.inbound[..n], ids);
            answered <= |ms| && TraceOf(k, x.charger, acts, ms[..answered]) && (!closed <==> answered == |ms|)
  {
    hide OnFrame, AnswerableIn, IsBlock;
    answered := 0;
    if n > 0 {
      var (acts, closed) := Serve(k, x, n - 1, ids);
      answered := TraceInvariant(k, x, n - 1, ids);
      var data, at := x.inbound[n - 1].data, x.inbound[n - 1].at;
      AnswerableFront(k, x.inbound, n, ids);
      FrameActs(k, x.charger, data, at, ids[n - 1]);
      var (more, ends) := OnFrame(k, x.charger, data, at, ids[n - 1]);
      hide Answerable, TraceOf;
      answered := TraceStep(k, x.charger, acts, closed, Answerable(k, x.inbound[..n - 1], ids), answered, more, ends,
          AnswerableIn(k, data, at, ids[n - 1]));
    } else {
      assert Answerable(k, x.inbound[..0], ids) == [];
    }
  }
}
