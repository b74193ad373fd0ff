/** A completed charging session, from the simulated charge point through the gateway and the
    concurrent state processor to the stores. */
module EndToEnd {
  import opened Domain
  import opened Store
  import opened Handler
  import opened Machine
  import opened Ownership
  import opened Interleaving
  import opened Confluence
  import opened Sequential
  import opened LastWriter
  import opened Connectors
  import opened Cdr
  import opened Json
  import opened Framing
  import opened Ocpp
  import opened Gateway
  import opened Settled
  import Simulator

  // ---------------------------------------------------------------- requests and events

  function ConnectorField(r: Request): int {
    match r
    case StatusRequest(n, _, _) => n
    case MeterRequest(n, _, _, _, _) => n
    case StartRequest(n, _, _, _) => n
    case _ => 0
  }

  /** The top-level timestamp of a payload; MeterValues has none. */
  function TimeField(r: Request): Option<Nanos> {
    match r
    case StatusRequest(_, _, sec) => Some(sec * SECOND)
    case StartRequest(_, _, _, sec) => Some(sec * SECOND)
    case StopRequest(_, _, _, sec, _) => Some(sec * SECOND)
    case _ => None
  }

  function BodyOf(r: Request): Body {
    match r
    case BootRequest(vendor, model, serial, firmware) => Boot(vendor, model, serial, firmware)
    case StatusRequest(n, status, _) => Status(n, StatusText(status), "NoError", "")
    case MeterRequest(n, _, energy, power, soc) =>
      Meter(n, [[Sample("Energy.Active.Import.Register", Num(energy)), Sample("Power.Active.Import", Num(power)),
                 Sample("SoC", Num(soc))]])
    case HeartbeatRequest => Heartbeat
    case StartRequest(n, idTag, meterStart, _) => Start(n, idTag, meterStart)
    case StopRequest(_, idTag, meterStop, _, reason) => Stop(idTag, meterStop, reason)
  }

  /** Encoding and decoding fit together on this request: it encodes to JSON, and decoding finds its
      fields in any text with the same meaning. Nothing is asked of requests the session does not
      send, such as those with numbers or years a real codec cannot carry. */
  ghost predicate Speaks(k: Codec, encode: Request -> Text, r: Request) {
    && Parse(encode(r)).Some?
    && (forall t :: SameMeaning(t, encode(r)) ==>
          k.decode(ActionOf(r), t) == Content(ConnectorField(r), TimeField(r), BodyOf(r)))
  }

  function EventOf(charger: string, r: Request, id: Text, at: Moment): Event {
    Event(at.uuid, ToString(id), charger, ConnectorField(r),
        if TimeField(r).Some? then TimeField(r).value else at.eventAt,
          at.receivedAt, BodyOf(r))
  }

  predicate TextIs(s: ChargePointStatus, text: string) {
    match s
    case Available => text == "Available"
    case Preparing => text == "Preparing"
    case Charging => text == "Charging"
    case SuspendedEV => text == "SuspendedEV"
    case Finishing => text == "Finishing"
  }

  /** The event says what the request said. A request whose payload has no timestamp of its own, or no
      connector, is dated by the gateway, or has connector 0. */
  predicate Reflects(r: Request, at: Moment, e: Event) {
    match r
    case BootRequest(vendor, model, serial, firmware) =>
      e.body == Boot(vendor, model, serial, firmware) && e.connector == 0 && e.timestamp == at.eventAt
    case StatusRequest(n, status, sec) =>
      && e.body.Status? && e.body.connector == e.connector == n && TextIs(status, e.body.status)
      && e.body.errorCode == "NoError" && e.body.info == "" && e.timestamp == sec * 1_000_000_000
    case MeterRequest(n, _, energy, power, soc) =>
      && e.body == Meter(n, [[Sample("Energy.Active.Import.Register", Num(energy)),
                              Sample("Power.Active.Import", Num(power)), Sample("SoC", Num(soc))]])
      && e.connector == n && e.timestamp == at.eventAt
    case HeartbeatRequest => e.body == Heartbeat && e.connector == 0 && e.timestamp == at.eventAt
    case StartRequest(n, idTag, meterStart, sec) =>
      e.body == Start(n, idTag, meterStart) && e.connector == n && e.timestamp == sec * 1_000_000_000
    case StopRequest(_, idTag, meterStop, sec, reason) =>
      e.body == Stop(idTag, meterStop, reason) && e.connector == 0 && e.timestamp == sec * 1_000_000_000
  }

  lemma EventReflects(charger: string, r: Request, id: Text, at: Moment)
    ensures Reflects(r, at, EventOf(charger, r, id, at))
  {
  }

  lemma TopicsAgree(r: Request)
    ensures TopicFor(ActionOf(r)) == Some(TopicOf(BodyOf(r)))
  {
    ActionsDiffer();
  }

  lemma LettersQuotable(s: string, prints: Unit -> bool)
    requires forall i :: 0 <= i < |s| ==> 'A' <= s[i] <= 'z'
    ensures Quotable(Ascii(s), prints)
  {
  }

  lemma ActionsQuotable(r: Request, prints: Unit -> bool)
    ensures Quotable(ActionOf(r), prints)
  {
    hide QuotableUnit;
    match r
    case BootRequest(_, _, _, _) => LettersQuotable("BootNotification", prints);
    case StatusRequest(_, _, _) => LettersQuotable("StatusNotification", prints);
    case MeterRequest(_, _, _, _, _) => LettersQuotable("MeterValues", prints);
    case HeartbeatRequest => LettersQuotable("Heartbeat", prints);
    case StartRequest(_, _, _, _) => LettersQuotable("StartTransaction", prints);
    case StopRequest(_, _, _, _, _) => LettersQuotable("StopTransaction", prints);
  }

  // ---------------------------------------------------------------- through the gateway

  /** A call on its way: the request, its message id, and the moment at which the gateway handles it. */
  datatype Sending = Sending(request: Request, id: Text, at: Moment)

  /** The call is encoded, written, answered and published without a failure. */
  ghost predicate Smooth(k: Codec, encode: Request -> Text, x: Sending) {
    && Speaks(k, encode, x.request) && Quotable(x.id, k.prints)
    && x.at.writeOk && x.at.publishOk && TimeField(x.request) != Some(0)
  }

  function FrameOf(k: Codec, encode: Request -> Text, x: Sending): Text {
    var f := MakeCall(x.id, ActionOf(x.request), Some(encode(x.request)), k.prints);
    if f.Some? then f.value else []
  }

  function EventFor(charger: string, x: Sending): Event {
    EventOf(charger, x.request, x.id, x.at)
  }

  lemma CallEvent(k: Codec, charger: string, frame: Text, at: Moment, txId: int, m: Message)
    requires Sound(k) && CallIn(frame) == Some(m) && Quotable(m.messageId, k.prints) && at.writeOk
            && TopicFor(m.action).Some?
    ensures var (acts, ends) := OnFrame(k, charger, frame, at, txId);
            && !ends && |acts| == 2 && acts[0].Wrote?
            && acts[1] == Sent(TopicFor(m.action).value, MakeEvent(k, charger, m, at), at.publishOk)
  {
    var reply := Route(m.action, at.replyAt, txId).0;
    RouteTopic(m.action, at.replyAt, txId);
    CallResultRoundTrip(m.messageId, k.marshal(reply), k.prints);
  }

  lemma FrameEvent(k: Codec, encode: Request -> Text, charger: string, x: Sending, txId: int)
    requires Sound(k) && Smooth(k, encode, x)
    ensures var (acts, ends) := OnFrame(k, charger, FrameOf(k, encode, x), x.at, txId);
            && !ends && |acts| == 2 && acts[0].Wrote?
            && acts[1] == Sent(TopicOf(BodyOf(x.request)), EventFor(charger, x), true)
  {
    var r := x.request;
    ActionsQuotable(r, k.prints);
    TopicsAgree(r);
    CallRoundTrip(x.id, ActionOf(r), encode(r), k.prints);
    var frame := FrameOf(k, encode, x);
    var m := Message(CALL, x.id, ActionOf(r), Compact(encode(r)).value);
    assert CallIn(frame) == Some(m);
    assert k.decode(m.action, m.payload) == Content(ConnectorField(r), TimeField(r), BodyOf(r));
    assert MakeEvent(k, charger, m, x.at) == EventFor(charger, x);
    CallEvent(k, charger, frame, x.at, txId, m);
  }

  function LinkOf(k: Codec, encode: Request -> Text, charger: string, xs: seq<Sending>): Link {
    Link(charger, seq(|xs|, i requires 0 <= i < |xs| => Inbound(FrameOf(k, encode, xs[i]), xs[i].at)))
  }

  function Sends(charger: string, xs: seq<Sending>): seq<Act> {
    seq(|xs|, i requires 0 <= i < |xs| => Sent(TopicOf(BodyOf(xs[i].request)), EventFor(charger, xs[i]), true))
  }

  /** A block of a response and an event adds that event. */
  lemma BlockPublishes(front: seq<Act>, acts: seq<Act>)
    requires |acts| == 2 && acts[0].Wrote? && acts[1].Sent?
    ensures Publications(front + acts) == Publications(front) + [acts[1]]
  {
    OneAct(front, acts[0]);
    OneAct(front + [acts[0]], acts[1]);
    assert front + acts == front + [acts[0]] + [acts[1]];
  }

  lemma NoPublications()
    ensures Publications([]) == []
  {
  }

  lemma EventIs(charger: string, x: Sending)
    ensures var e := EventFor(charger, x);
            e.eventId == x.at.uuid && e.charger == charger && Reflects(x.request, x.at, e)
  {
    EventReflects(charger, x.request, x.id, x.at);
    hide Reflects;
  }

  /** The gateway publishes one event per call, in order, whatever transaction ids it hands out. */
  lemma {:induction false} Published(k: Codec, encode: Request -> Text, charger: string, xs: seq<Sending>,
                                     ids: seq<int>, n: nat)
    requires Sound(k) && n <= |xs| && n <= |ids| && forall i :: 0 <= i < n ==> Smooth(k, encode, xs[i])
    ensures var (acts, closed) := Serve(k, LinkOf(k, encode, charger, xs), n, ids);
            !closed && Publications(acts) == Sends(charger, xs)[..n]
    ensures forall i :: 0 <= i < n ==>
              var e := Sends(charger, xs)[i].event;
              e.eventId == xs[i].at.uuid && e.charger == charger && Reflects(xs[i].request, xs[i].at, e)
  {
    hide OnFrame, FrameOf, EventFor, Smooth, Publications, Sound, Reflects;
    var link := LinkOf(k, encode, charger, xs);
    if n > 0 {
      Published(k, encode, charger, xs, ids, n - 1);
      var x := xs[n - 1];
      assert link.inbound[n - 1] == Inbound(FrameOf(k, encode, x), x.at);
      FrameEvent(k, encode, charger, x, ids[n - 1]);
      BlockPublishes(Serve(k, link, n - 1, ids).0, OnFrame(k, charger, FrameOf(k, encode, x), x.at, ids[n - 1]).0);
      assert Sends(charger, xs)[..n] == Sends(charger, xs)[..n - 1] + [Sends(charger, xs)[n - 1]];
      EventIs(charger, x);
    } else {
      assert Publications([]) == [] by {
        NoPublications();
      }
    }
  }

  // ---------------------------------------------------------------- from the gateway to the lanes

  /** What the broker stores of a trace for one topic: the events whose publication succeeded. */
  function EventsOn(acts: seq<Act>, t: Topic): seq<Event> {
    if acts == [] then []
    else
      var a := acts[|acts| - 1];
      EventsOn(acts[..|acts| - 1], t) + if a.Sent? && a.ok && a.topic == t then [a.event] else []
  }

  lemma {:induction false} OnlyPublications(acts: seq<Act>, t: Topic)
    ensures EventsOn(Publications(acts), t) == EventsOn(acts, t)
  {
    if acts != [] {
      var front, a := acts[..|acts| - 1], acts[|acts| - 1];
      OnlyPublications(front, t);
      if a.Sent? {
        assert (Publications(front) + [a])[..|Publications(front)|] == Publications(front);
      } else {
        assert Publications(acts) == Publications(front);
      }
    }
  }

  /** Keyed by charger, the broker keeps each topic's events of this connection in order, after what
      the charger had sent before. */
  ghost predicate Delivered(logs: Logs, charger: string, past: Topic -> seq<Event>, acts: seq<Act>) {
    forall t :: LaneEvents(logs, Lane(t, charger)) == past(t) + EventsOn(acts, t)
  }

  function TopicAt(xs: seq<Sending>, i: int): Topic
    requires 0 <= i < |xs|
  {
    TopicOf(BodyOf(xs[i].request))
  }

  /** The events of the first n sendings on one topic. */
  function Upto(charger: string, xs: seq<Sending>, n: nat, t: Topic): seq<Event>
    requires n <= |xs|
  {
    if n == 0 then []
    else Upto(charger, xs, n - 1, t) + if TopicAt(xs, n - 1) == t then [EventFor(charger, xs[n - 1])] else []
  }

  lemma {:induction false} SendsOn(charger: string, xs: seq<Sending>, n: nat, t: Topic)
    requires n <= |xs|
    ensures EventsOn(Sends(charger, xs)[..n], t) == Upto(charger, xs, n, t)
  {
    if n > 0 {
      SendsOn(charger, xs, n - 1, t);
      assert Sends(charger, xs)[..n][..n - 1] == Sends(charger, xs)[..n - 1];
    }
  }

  lemma {:induction false} Skips(charger: string, xs: seq<Sending>, i: nat, n: nat, t: Topic)
    requires i <= n <= |xs| && forall j :: i <= j < n ==> TopicAt(xs, j) != t
    ensures Upto(charger, xs, n, t) == Upto(charger, xs, i, t)
  {
    if i < n {
      Skips(charger, xs, i, n - 1, t);
    }
  }

  lemma {:induction false} From(charger: string, xs: seq<Sending>, n: nat, t: Topic, e: Event) returns (j: nat)
    requires n <= |xs| && e in Upto(charger, xs, n, t)
    ensures j < n && TopicAt(xs, j) == t && e == EventFor(charger, xs[j])
  {
    if e in Upto(charger, xs, n - 1, t) {
      j := From(charger, xs, n - 1, t, e);
    } else {
      j := n - 1;
    }
  }

  /** What the gateway leaves on each topic of a session. */
  lemma PublishedOn(k: Codec, encode: Request -> Text, charger: string, xs: seq<Sending>, ids: seq<int>, t: Topic)
    requires Sound(k) && |xs| <= |ids| && forall i :: 0 <= i < |xs| ==> Smooth(k, encode, xs[i])
    ensures EventsOn(Serve(k, LinkOf(k, encode, charger, xs), |xs|, ids).0, t) == Upto(charger, xs, |xs|, t)
  {
    Published(k, encode, charger, xs, ids, |xs|);
    OnlyPublications(Serve(k, LinkOf(k, encode, charger, xs), |xs|, ids).0, t);
    SendsOn(charger, xs, |xs|, t);
  }

  // ---------------------------------------------------------------- the session

  /** The sendings of a completed session, each handled by the gateway without a transport failure. */
  ghost predicate Carries(k: Codec, encode: Request -> Text, p: Simulator.Setup, w: Simulator.World, xs: seq<Sending>)
    requires p.startSoc < 100
  {
    && |xs| == |Simulator.Complete(p, w)|
    && forall i :: 0 <= i < |xs| ==> xs[i].request == Simulator.Complete(p, w)[i] && Smooth(k, encode, xs[i])
  }

  /** A request of a session by its place: the Start is second; then come Charging, the loop up to its
      last reading, Finishing, the Stop and Available. */
  ghost predicate Placed(p: Simulator.Setup, w: Simulator.World, xs: seq<Sending>, energy: int) {
    var l := |xs|;
    && l >= 9
    && (forall i :: 0 <= i < l && i != l - 2 ==> Simulator.Fits(p, w, i, xs[i].request))
    && xs[1].request == StartRequest(p.connector, p.idTag, p.meterStart, w.clock(1))
    && xs[l - 4].request.MeterRequest? && xs[l - 4].request.energy == energy
    && xs[l - 3].request.StatusRequest?
    && xs[l - 2].request == StopRequest(0, p.idTag, energy, w.clock(l - 2), p.reason)
    && xs[l - 1].request == StatusRequest(p.connector, Available, w.clock(l - 1))
  }

  lemma SessionPlaced(k: Codec, encode: Request -> Text, p: Simulator.Setup, w: Simulator.World, xs: seq<Sending>)
    requires Simulator.Drawn(p) && Carries(k, encode, p, w, xs)
    ensures Placed(p, w, xs, Simulator.After(p, w, |p.draws|).energy)
  {
    hide Simulator.After, Smooth;
    var s := Simulator.After(p, w, |p.draws|);
    Simulator.SessionShape(p, w, |p.draws|);
    var calls, l := Simulator.Complete(p, w), |xs|;
    assert calls == s.calls + Simulator.Closing(p, w, |s.calls|, s.energy);
    assert l == |s.calls| + 3;
    assert forall i :: 0 <= i < |s.calls| ==> calls[i] == s.calls[i];
    assert calls[l - 3] == Simulator.Closing(p, w, |s.calls|, s.energy)[0];
    assert calls[l - 2] == Simulator.Closing(p, w, |s.calls|, s.energy)[1];
    assert calls[l - 1] == Simulator.Closing(p, w, |s.calls|, s.energy)[2];
    forall i | 0 <= i < l && i != l - 2 ensures Simulator.Fits(p, w, i, xs[i].request) {
      if i < |s.calls| {
        assert xs[i].request == s.calls[i];
      }
    }
    assert xs[1].request == s.calls[1] && Simulator.Fits(p, w, 1, s.calls[1]);
  }

  lemma PlacedTopics(p: Simulator.Setup, w: Simulator.World, xs: seq<Sending>, energy: int)
    requires Placed(p, w, xs, energy)
    ensures var l := |xs|;
            && (forall i :: 0 <= i < l ==> (TopicAt(xs, i) == TxTopic <==> i == 1 || i == l - 2))
            && TopicAt(xs, l - 1) == TopicAt(xs, l - 3) == StatusTopic && TopicAt(xs, l - 4) == MeterTopic
  {
    forall i | 0 <= i < |xs| ensures TopicAt(xs, i) == TxTopic <==> i == 1 || i == |xs| - 2 {
      assert i != |xs| - 2 ==> Simulator.Fits(p, w, i, xs[i].request);
    }
  }

  lemma LastOf(charger: string, xs: seq<Sending>, m: nat, t: Topic)
    requires m < |xs| && TopicAt(xs, m) == t && forall i :: m < i < |xs| ==> TopicAt(xs, i) != t
    ensures Upto(charger, xs, |xs|, t) == Upto(charger, xs, m, t) + [EventFor(charger, xs[m])]
  {
    Skips(charger, xs, m + 1, |xs|, t);
  }

  lemma TwoOf(charger: string, xs: seq<Sending>, a: nat, b: nat, t: Topic)
    requires a < b < |xs| && forall i :: 0 <= i < |xs| ==> (TopicAt(xs, i) == t <==> i == a || i == b)
    ensures Upto(charger, xs, |xs|, t) == [EventFor(charger, xs[a]), EventFor(charger, xs[b])]
  {
    LastOf(charger, xs, b, t);
    Skips(charger, xs, a + 1, b, t);
    Skips(charger, xs, 0, a, t);
    assert Upto(charger, xs, a, t) == [];
    assert Upto(charger, xs, a + 1, t) == [] + [EventFor(charger, xs[a])];
  }

  /** Which events of a session go where: the Start and the Stop; ... ; Available at the end; the last
      reading at the end. */
  lemma SessionLanes(p: Simulator.Setup, w: Simulator.World, xs: seq<Sending>, energy: int, charger: string)
    requires Placed(p, w, xs, energy)
    ensures var l := |xs|;
            && Upto(charger, xs, l, TxTopic) == [EventFor(charger, xs[1]), EventFor(charger, xs[l - 2])]
            && Upto(charger, xs, l, StatusTopic)
            == Upto(charger, xs, l - 1, StatusTopic) + [EventFor(charger, xs[l - 1])]
            && Upto(charger, xs, l, MeterTopic) == Upto(charger, xs, l - 4, MeterTopic) + [EventFor(charger, xs[l - 4])]
  {
    PlacedTopics(p, w, xs, energy);
    hide EventFor, TopicAt, Placed;
    var l := |xs|;
    TwoOf(charger, xs, 1, l - 2, TxTopic);
    LastOf(charger, xs, l - 1, StatusTopic);
    LastOf(charger, xs, l - 4, MeterTopic);
  }

  /** Time as the session needs it: the charge point's clock does not go back, it moves on while the
      cable is still plugged in, and it is past what the charger reported before; the gateway's clock
      moves on from call to call. */
  ghost predicate ClocksAdvance(w: Simulator.World, xs: seq<Sending>, past: Topic -> seq<Event>) {
    var l := |xs|;
    && l >= 9
    && (forall i, j :: 0 <= i <= j < l ==> w.clock(i) <= w.clock(j))
    && w.clock(l - 3) < w.clock(l - 1)
    && (forall e :: e in past(StatusTopic) ==> FloorSec(e.timestamp) < w.clock(l - 1))
    && (forall i, j :: 0 <= i < j < l ==> xs[i].at.eventAt < xs[j].at.eventAt)
    && (forall e :: e in past(MeterTopic) ==> e.timestamp < xs[l - 4].at.eventAt)
  }

  lemma AvailableIsLast(p: Simulator.Setup, w: Simulator.World, xs: seq<Sending>, energy: int, charger: string,
                        past: Topic -> seq<Event>, x: Event)
    requires Placed(p, w, xs, energy) && ClocksAdvance(w, xs, past)
    requires x in past(StatusTopic) + Upto(charger, xs, |xs| - 1, StatusTopic)
    ensures FloorSec(x.timestamp) * SECOND < EventFor(charger, xs[|xs| - 1]).timestamp
  {
    hide Upto;
    var l := |xs|;
    if x in Upto(charger, xs, l - 1, StatusTopic) {
      var j := From(charger, xs, l - 1, StatusTopic, x);
      assert j != l - 2;
      assert Simulator.Fits(p, w, j, xs[j].request) && j <= l - 3;
      assert w.clock(j) <= w.clock(l - 3);
    }
  }

  lemma ReadingIsLast(p: Simulator.Setup, w: Simulator.World, xs: seq<Sending>, energy: int, charger: string,
                      past: Topic -> seq<Event>, x: Event)
    requires Placed(p, w, xs, energy) && ClocksAdvance(w, xs, past)
    requires x in past(MeterTopic) + Upto(charger, xs, |xs| - 4, MeterTopic)
    ensures FloorSec(x.timestamp) * SECOND < EventFor(charger, xs[|xs| - 4]).timestamp
  {
    hide Upto;
    var l := |xs|;
    if x in Upto(charger, xs, l - 4, MeterTopic) {
      var j := From(charger, xs, l - 4, MeterTopic, x);
      assert Simulator.Fits(p, w, j, xs[j].request);
      assert xs[j].at.eventAt < xs[l - 4].at.eventAt;
    }
  }

  lemma Measurands()
    ensures FieldOf("Energy.Active.Import.Register") == EnergyWh && FieldOf("Power.Active.Import") == PowerW
            && FieldOf("SoC") == SocPercent
  {
    assert "Power.Active.Import"[0] == 'P' && "SoC"[0] == 'S';
  }

  lemma ReadingFields(e: Event, n: int, energy: int, power: int, soc: int)
    requires e.body == BodyOf(MeterRequest(n, 0, energy, power, soc))
    ensures MeterFields(e)[MeterTs := Num(0)] == map[MeterTs := Num(0), EnergyWh := Num(energy),
            PowerW := Num(power), SocPercent := Num(soc)]
    ensures EnergyWh in MeterFields(e) && MeterFields(e)[EnergyWh] == Num(energy)
  {
    var f0 := map[MeterTs := Stamp(FloorSec(e.timestamp))];
    var samples := e.body.readings[0];
    assert |samples| == 3;
    var f1 := f0[FieldOf(samples[0].measurand) := samples[0].value];
    var f2 := f1[FieldOf(samples[1].measurand) := samples[1].value];
    var f3 := f2[FieldOf(samples[2].measurand) := samples[2].value];
    assert AddSamples(f0, samples) == AddSamples(f1, samples[1..]);
    assert AddSamples(f1, samples[1..]) == AddSamples(f2, samples[2..]);
    assert AddSamples(f2, samples[2..]) == AddSamples(f3, samples[3..]);
    Measurands();
  }

  /** The CDR of a session's Start and Stop. */
  ghost predicate RightCdr(p: Simulator.Setup, w: Simulator.World, charger: string, xs: seq<Sending>, r: Session)
    requires p.startSoc < 100 && |xs| >= 9
  {
    var added := Simulator.Increments(p, w, |p.draws|);
    && r.sessionId == xs[|xs| - 2].at.uuid && r.charger == charger && r.connector == p.connector && r.idTag == p.idTag
    && r.meterStart == p.meterStart && r.meterStop == p.meterStart + added && r.energyWh == added >= 10 * |p.draws|
    && Simulator.EndsAt(p, w, r.meterStop) && r.reason == p.reason
    && r.startTime == w.clock(1) * 1_000_000_000 && r.endTime == w.clock(|xs| - 2) * 1_000_000_000
    && r.durationSec == w.clock(|xs| - 2) - w.clock(1) >= 0
  }

  /** What a session has left in the stores: one CDR, with the session's connector, id tag, readings
      and times; the connector free, with its last reading and status. */
  ghost predicate Accounted(p: Simulator.Setup, w: Simulator.World, charger: string, xs: seq<Sending>, end: Store,
                            r: Session)
    requires p.startSoc < 100 && |xs| >= 9
  {
    && RightCdr(p, w, charger, xs, r) && r.sessionId in end.sessions && end.sessions[r.sessionId] == r
    && Get(end, ConnKey(charger, p.connector), ActiveTransaction) == Some(Text("false"))
    && Get(end, ConnKey(charger, p.connector), StatusF) == Some(Text("Available"))
    && Get(end, ConnKey(charger, p.connector), EnergyWh) == Some(Num(r.meterStop))
  }

  /** The hypotheses about the run of the processor and the delivery of the session to it. */
  ghost predicate Reached(logs: Logs, now: Nanos, ls: seq<Label>, charger: string, past: Topic -> seq<Event>,
                          acts: seq<Act>)
  {
    && Processed(logs, now, ls) && CleanCharger(logs, charger) && Delivered(logs, charger, past, acts)
    && forall t :: NewTo(past(t), EventsOn(acts, t))
  }

  lemma CdrOfRequests(charger: string, a: Sending, b: Sending, n: int, idTag: string, low: int, from: int, high: int,
                      to: int, reason: string)
    requires a.request == StartRequest(n, idTag, low, from) && b.request == StopRequest(0, idTag, high, to, reason)
    requires idTag != "" && low <= high && from <= to
    ensures var start, stop := EventFor(charger, a), EventFor(charger, b);
            && start.body.Start? && stop.body.Stop? && start.body.connector == n && stop.eventId == b.at.uuid
            && CdrOf(start, stop) == Session(b.at.uuid, charger, n, idTag, from * SECOND, to * SECOND, to - from,
                high - low, low, high, reason)
  {
    DurationIs(from * SECOND, to * SECOND);
  }

  lemma EnergyOf(p: Simulator.Setup, w: Simulator.World)
    requires Simulator.Drawn(p)
    ensures var energy := Simulator.After(p, w, |p.draws|).energy;
            && energy == p.meterStart + Simulator.Increments(p, w, |p.draws|) && Simulator.EndsAt(p, w, energy)
    ensures Simulator.Increments(p, w, |p.draws|) >= 10 * |p.draws|
  {
    Simulator.LoopBounds(p, w, |p.draws|);
    Simulator.LoopEndsAt(p, w, Simulator.After(p, w, |p.draws|).energy);
    hide Simulator.After, Simulator.Increments, Simulator.EndsAt, Simulator.Cap;
  }

  lemma RightIf(p: Simulator.Setup, w: Simulator.World, charger: string, xs: seq<Sending>, energy: int)
    requires p.startSoc < 100 && |xs| >= 9 && Simulator.EndsAt(p, w, energy)
    requires energy == p.meterStart + Simulator.Increments(p, w, |p.draws|)
    requires Simulator.Increments(p, w, |p.draws|) >= 10 * |p.draws| && w.clock(1) <= w.clock(|xs| - 2)
    ensures var from, to := w.clock(1), w.clock(|xs| - 2);
            RightCdr(p, w, charger, xs, Session(
                xs[|xs| - 2].at.uuid, charger, p.connector, p.idTag, from * SECOND, to * SECOND, to - from,
                energy - p.meterStart, p.meterStart, energy, p.reason))
  {
    hide Simulator.Increments, Simulator.EndsAt;
  }

  lemma CdrIsRight(p: Simulator.Setup, w: Simulator.World, charger: string, xs: seq<Sending>)
    requires Simulator.Drawn(p) && p.idTag != "" && Placed(p, w, xs, Simulator.After(p, w, |p.draws|).energy)
    requires w.clock(1) <= w.clock(|xs| - 2)
    ensures var start, stop := EventFor(charger, xs[1]), EventFor(charger, xs[|xs| - 2]);
            && start.body.Start? && stop.body.Stop? && start.body.connector == p.connector
            && stop.eventId == xs[|xs| - 2].at.uuid && RightCdr(p, w, charger, xs, CdrOf(start, stop))
  {
    EnergyOf(p, w);
    var energy := Simulator.After(p, w, |p.draws|).energy;
    RightIf(p, w, charger, xs, energy);
    hide Simulator.After, Simulator.Increments, Simulator.Fits, Simulator.EndsAt, RightCdr, EventFor, CdrOf;
    CdrOfRequests(charger, xs[1], xs[|xs| - 2], p.connector, p.idTag, p.meterStart, w.clock(1), energy,
                  w.clock(|xs| - 2), p.reason);
  }

  lemma Billed(p: Simulator.Setup, w: Simulator.World, charger: string, xs: seq<Sending>, past: Topic -> seq<Event>,
               logs: Logs, now: Nanos, ls: seq<Label>)
    returns (r: Session)
    requires Simulator.Drawn(p) && p.idTag != "" && Placed(p, w, xs, Simulator.After(p, w, |p.draws|).energy)
    requires ClocksAdvance(w, xs, past) && Processed(logs, now, ls) && CleanCharger(logs, charger)
    requires LaneEvents(logs, Lane(TxTopic, charger)) == past(TxTopic) + Upto(charger, xs, |xs|, TxTopic)
    requires NewTo(past(TxTopic), Upto(charger, xs, |xs|, TxTopic))
    ensures var end := EndOf(logs, now, ls);
            && Cdrs(Transactions(logs, EMPTY, charger)) == Cdrs(Fresh({}, past(TxTopic))) + [r]
            && RightCdr(p, w, charger, xs, r) && r.sessionId in end.sessions && end.sessions[r.sessionId] == r
            && Get(end, ConnKey(charger, p.connector), ActiveTransaction) == Some(Text("false"))
  {
    SessionLanes(p, w, xs, Simulator.After(p, w, |p.draws|).energy, charger);
    CdrIsRight(p, w, charger, xs);
    hide EventFor, Placed, Processed, LaneEvents, EndOf, NewTo, Simulator.After, Upto, RightCdr;
    var start, stop := EventFor(charger, xs[1]), EventFor(charger, xs[|xs| - 2]);
    r := CdrOf(start, stop);
    BilledOnce(logs, now, ls, charger, past(TxTopic), start, stop);
    FlagCleared(logs, now, ls, charger, past(TxTopic), start, stop);
  }

  lemma NewToMore(past: seq<Event>, es: seq<Event>, e: Event)
    requires NewTo(past, es + [e])
    ensures NewTo(past + es, [e])
  {
    var all := es + [e];
    assert all[|es|] == e;
    forall x | x in past + es ensures x.messageId != e.messageId {
      if x in past {
        assert x.messageId in MessageIds(past);
      } else {
        var i :| 0 <= i < |es| && es[i] == x;
        assert all[i] == x;
      }
    }
  }

  lemma AvailableEvent(p: Simulator.Setup, w: Simulator.World, charger: string, xs: seq<Sending>, energy: int)
    requires Placed(p, w, xs, energy)
    ensures var e := EventFor(charger, xs[|xs| - 1]);
            Updates(e, p.connector) && StatusF in UpdateOf(e).fields && UpdateOf(e).fields[StatusF] == Text("Available")
  {
    hide Simulator.Fits;
  }

  lemma AvailableAfterAll(p: Simulator.Setup, w: Simulator.World, xs: seq<Sending>, energy: int, charger: string,
                          past: Topic -> seq<Event>)
    requires Placed(p, w, xs, energy) && ClocksAdvance(w, xs, past) && |xs| >= 9
    ensures forall x :: x in past(StatusTopic) + Upto(charger, xs, |xs| - 1, StatusTopic) ==>
              FloorSec(x.timestamp) * SECOND < EventFor(charger, xs[|xs| - 1]).timestamp
  {
    hide Placed, ClocksAdvance, Upto, EventFor, FloorSec;
    forall x | x in past(StatusTopic) + Upto(charger, xs, |xs| - 1, StatusTopic)
      ensures FloorSec(x.timestamp) * SECOND < EventFor(charger, xs[|xs| - 1]).timestamp
    {
      AvailableIsLast(p, w, xs, energy, charger, past, x);
    }
  }

  lemma StatusShown(p: Simulator.Setup, w: Simulator.World, charger: string, xs: seq<Sending>, energy: int,
                    past: Topic -> seq<Event>, logs: Logs, now: Nanos, ls: seq<Label>)
    requires Placed(p, w, xs, energy) && ClocksAdvance(w, xs, past)
    requires Processed(logs, now, ls) && CleanCharger(logs, charger)
    requires LaneEvents(logs, Lane(StatusTopic, charger)) == past(StatusTopic) + Upto(charger, xs, |xs|, StatusTopic)
    requires NewTo(past(StatusTopic), Upto(charger, xs, |xs|, StatusTopic))
    ensures Get(EndOf(logs, now, ls), ConnKey(charger, p.connector), StatusF) == Some(Text("Available"))
  {
    AvailableEvent(p, w, charger, xs, energy);
    SessionLanes(p, w, xs, energy, charger);
    assert |xs| >= 9 && CleanLane(logs, Lane(StatusTopic, charger));
    hide EventFor, Placed, Processed, LaneEvents, EndOf, NewTo, Upto, ClocksAdvance, Updates, UpdateOf, Get, FloorSec,
        CleanLane, CleanCharger;
    var front, e := Upto(charger, xs, |xs| - 1, StatusTopic), EventFor(charger, xs[|xs| - 1]);
    var before := past(StatusTopic) + front;
    NewToMore(past(StatusTopic), front, e);
    AvailableAfterAll(p, w, xs, energy, charger, past);
    assert before + [e] == past(StatusTopic) + (front + [e]);
    LastUpdateStays(logs, now, ls, charger, StatusTopic, before, e, p.connector, StatusF);
  }

  lemma ReadingEvent(p: Simulator.Setup, w: Simulator.World, charger: string, xs: seq<Sending>, energy: int)
    requires Placed(p, w, xs, energy)
    ensures var e := EventFor(charger, xs[|xs| - 4]);
            Updates(e, p.connector) && EnergyWh in UpdateOf(e).fields && UpdateOf(e).fields[EnergyWh] == Num(energy)
  {
    var e, r := EventFor(charger, xs[|xs| - 4]), xs[|xs| - 4].request;
    assert Simulator.Fits(p, w, |xs| - 4, r);
    ReadingFields(e, r.connector, r.energy, r.power, r.soc);
  }

  lemma ReadingAfterAll(p: Simulator.Setup, w: Simulator.World, xs: seq<Sending>, energy: int, charger: string,
                          past: Topic -> seq<Event>)
    requires Placed(p, w, xs, energy) && ClocksAdvance(w, xs, past) && |xs| >= 9
    ensures forall x :: x in past(MeterTopic) + Upto(charger, xs, |xs| - 4, MeterTopic) ==>
              FloorSec(x.timestamp) * SECOND < EventFor(charger, xs[|xs| - 4]).timestamp
  {
    hide Placed, ClocksAdvance, Upto, EventFor, FloorSec;
    forall x | x in past(MeterTopic) + Upto(charger, xs, |xs| - 4, MeterTopic)
      ensures FloorSec(x.timestamp) * SECOND < EventFor(charger, xs[|xs| - 4]).timestamp
    {
      ReadingIsLast(p, w, xs, energy, charger, past, x);
    }
  }

  lemma MeterShown(p: Simulator.Setup, w: Simulator.World, charger: string, xs: seq<Sending>, energy: int,
                   past: Topic -> seq<Event>, logs: Logs, now: Nanos, ls: seq<Label>)
    requires Placed(p, w, xs, energy) && ClocksAdvance(w, xs, past)
    requires Processed(logs, now, ls) && CleanCharger(logs, charger)
    requires LaneEvents(logs, Lane(MeterTopic, charger)) == past(MeterTopic) + Upto(charger, xs, |xs|, MeterTopic)
    requires NewTo(past(MeterTopic), Upto(charger, xs, |xs|, MeterTopic))
    ensures Get(EndOf(logs, now, ls), ConnKey(charger, p.connector), EnergyWh) == Some(Num(energy))
  {
    ReadingEvent(p, w, charger, xs, energy);
    SessionLanes(p, w, xs, energy, charger);
    assert |xs| >= 9 && CleanLane(logs, Lane(MeterTopic, charger));
    hide EventFor, Placed, Processed, LaneEvents, EndOf, NewTo, Upto, ClocksAdvance, Updates, UpdateOf, Get, FloorSec,
        CleanLane, CleanCharger;
    var front, e := Upto(charger, xs, |xs| - 4, MeterTopic), EventFor(charger, xs[|xs| - 4]);
    var before := past(MeterTopic) + front;
    NewToMore(past(MeterTopic), front, e);
    ReadingAfterAll(p, w, xs, energy, charger, past);
    assert before + [e] == past(MeterTopic) + (front + [e]);
    LastUpdateStays(logs, now, ls, charger, MeterTopic, before, e, p.connector, EnergyWh);
  }

  lemma Shown(p: Simulator.Setup, w: Simulator.World, charger: string, xs: seq<Sending>, energy: int,
              past: Topic -> seq<Event>, logs: Logs, now: Nanos, ls: seq<Label>)
    requires Placed(p, w, xs, energy) && ClocksAdvance(w, xs, past)
    requires Processed(logs, now, ls) && CleanCharger(logs, charger)
    requires forall t :: LaneEvents(logs, Lane(t, charger)) == past(t) + Upto(charger, xs, |xs|, t)
    requires forall t :: NewTo(past(t), Upto(charger, xs, |xs|, t))
    ensures Get(EndOf(logs, now, ls), ConnKey(charger, p.connector), StatusF) == Some(Text("Available"))
    ensures Get(EndOf(logs, now, ls), ConnKey(charger, p.connector), EnergyWh) == Some(Num(energy))
  {
    var l := |xs|;
    SessionLanes(p, w, xs, energy, charger);
    StatusShown(p, w, charger, xs, energy, past, logs, now, ls);
    MeterShown(p, w, charger, xs, energy, past, logs, now, ls);
  }

  /** Each topic's lane is what was there before and the session's own events. */
  lemma SessionDelivered(k: Codec, encode: Request -> Text, charger: string, xs: seq<Sending>, ids: seq<int>,
                         past: Topic -> seq<Event>, logs: Logs, now: Nanos, ls: seq<Label>, t: Topic)
    requires Sound(k) && |xs| <= |ids| && forall i :: 0 <= i < |xs| ==> Smooth(k, encode, xs[i])
    requires Reached(logs, now, ls, charger, past, Serve(k, LinkOf(k, encode, charger, xs), |xs|, ids).0)
    ensures LaneEvents(logs, Lane(t, charger)) == past(t) + Upto(charger, xs, |xs|, t)
            && NewTo(past(t), Upto(charger, xs, |xs|, t))
  {
    hide Serve, Processed, NewTo, LaneEvents, Smooth, Upto, Speaks, Sound;
    PublishedOn(k, encode, charger, xs, ids, t);
  }

  lemma MeterStopIs(p: Simulator.Setup, w: Simulator.World, charger: string, xs: seq<Sending>, r: Session)
    requires Simulator.Drawn(p) && |xs| >= 9 && RightCdr(p, w, charger, xs, r)
    ensures r.meterStop == Simulator.After(p, w, |p.draws|).energy
  {
    Simulator.LoopBounds(p, w, |p.draws|);
  }

  /** What a session's events on the lanes lead to. */
  lemma SessionSettled(p: Simulator.Setup, w: Simulator.World, charger: string, xs: seq<Sending>,
                       past: Topic -> seq<Event>, logs: Logs, now: Nanos, ls: seq<Label>)
    returns (r: Session)
    requires Simulator.Drawn(p) && p.idTag != "" && |xs| >= 9
    requires Placed(p, w, xs, Simulator.After(p, w, |p.draws|).energy)
    requires ClocksAdvance(w, xs, past) && Processed(logs, now, ls) && CleanCharger(logs, charger)
    requires forall t :: LaneEvents(logs, Lane(t, charger)) == past(t) + Upto(charger, xs, |xs|, t)
    requires forall t :: NewTo(past(t), Upto(charger, xs, |xs|, t))
    ensures Cdrs(Transactions(logs, EMPTY, charger)) == Cdrs(Fresh({}, past(TxTopic))) + [r]
    ensures Accounted(p, w, charger, xs, EndOf(logs, now, ls), r)
  {
    hide ClocksAdvance, LaneEvents, NewTo, EndOf, RightCdr, Upto, Simulator.After, Placed, Processed, Cdrs, Get;
    r := Billed(p, w, charger, xs, past, logs, now, ls);
    Shown(p, w, charger, xs, Simulator.After(p, w, |p.draws|).energy, past, logs, now, ls);
    MeterStopIs(p, w, charger, xs, r);
  }

  lemma LongEnough(k: Codec, encode: Request -> Text, p: Simulator.Setup, w: Simulator.World, xs: seq<Sending>)
    requires Simulator.Drawn(p) && Carries(k, encode, p, w, xs)
    ensures |xs| >= 9
  {
    SessionPlaced(k, encode, p, w, xs);
  }

  /** End to end, for every random choice: a session run to its end without transport failures, its
      calls framed, served and published by the gateway under any transaction ids, its events
      delivered after anything else the charger had sent, and processed by any gentle run of the five
      readers, adds exactly one CDR to the charger's CDRs and leaves everything accounted for. */
  lemma SessionEndToEnd(k: Codec, encode: Request -> Text, p: Simulator.Setup, w: Simulator.World, charger: string,
                        xs: seq<Sending>, ids: seq<int>, past: Topic -> seq<Event>, logs: Logs, now: Nanos,
                        ls: seq<Label>)
    returns (r: Session)
    requires Sound(k) && Simulator.Drawn(p) && p.idTag != "" && Carries(k, encode, p, w, xs) && |xs| <= |ids|
    requires Reached(logs, now, ls, charger, past, Serve(k, LinkOf(k, encode, charger, xs), |xs|, ids).0)
    requires ClocksAdvance(w, xs, past)
    ensures Cdrs(Transactions(logs, EMPTY, charger)) == Cdrs(Fresh({}, past(TxTopic))) + [r]
    ensures Accounted(p, w, charger, xs, EndOf(logs, now, ls), r)
  {
    SessionPlaced(k, encode, p, w, xs);
    LongEnough(k, encode, p, w, xs);
    hide Serve, ClocksAdvance, LaneEvents, NewTo, Smooth, EndOf, Speaks, Sound, Upto, Simulator.After, Placed,
        Accounted, Cdrs, Transactions, Carries;
    forall t ensures LaneEvents(logs, Lane(t, charger)) == past(t) + Upto(charger, xs, |xs|, t)
             ensures NewTo(past(t), Upto(charger, xs, |xs|, t))
    {
      SessionDelivered(k, encode, charger, xs, ids, past, logs, now, ls, t);
    }
    assert Processed(logs, now, ls) && CleanCharger(logs, charger);
    hide Processed, Reached;
    r := SessionSettled(p, w, charger, xs, past, logs, now, ls);
  }
}
