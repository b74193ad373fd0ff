/** Many connections on one gateway: their loops interleave at every shared step, and the atomic
    transaction counter is the only thing they share. */
module Connections {
  import opened Domain
  import opened Json
  import opened Framing
  import opened Ocpp
  import opened Gateway

  /** Where a loop stands: at its read, with a response to write, or with an event to publish. */
  datatype Stage =
    | Reading
    | Writing(message: Message, reply: Reply, frame: Text, at: Moment)
    | Publishing(topic: Topic, message: Message, at: Moment)

  /** `ids` notes the counter value each frame read so far was handled with. */
  datatype Conn = Conn(stage: Stage, acts: seq<Act>, closed: bool, ids: seq<int>)

  /** `issued` notes, for each transaction id handed out, which frame of which connection took it. */
  datatype State = State(counter: int, conns: seq<Conn>, issued: seq<(nat, nat)>)

  function Start(n: nat): State {
    State(0, seq(n, _ => Conn(Reading, [], false, [])), [])
  }

  predicate CanTake(x: Link, conn: Conn) {
    !conn.closed && conn.stage.Reading? && |conn.ids| < |x.inbound|
  }

  /** After processCall: the response to write, unless the frame calls for none or it cannot be framed. */
  function Taken(k: Codec, conn: Conn, f: Inbound, counter: int): Conn {
    var m := CallIn(f.data);
    var stage :=
      if m.None? then Reading
      else
        var reply := Route(m.value.action, f.at.replyAt, counter).0;
        var frame := MakeCallResult(m.value.messageId, Some(k.marshal(reply)), k.prints);
        if frame.None? then Reading else Writing(m.value, reply, frame.value, f.at);
    conn.(stage := stage, ids := conn.ids + [counter])
  }

  /** The steps that do not touch the counter: write the response, publish the event. */
  function Own(k: Codec, charger: string, conn: Conn): Conn {
    match conn.stage
    case Reading => conn
    case Writing(m, reply, frame, at) =>
      if !at.writeOk then conn.(closed := true, stage := Reading)
      else conn.(acts := conn.acts + [Wrote(m.messageId, reply, frame)],
                 stage := if TopicFor(m.action).Some? then Publishing(TopicFor(m.action).value, m, at) else Reading)
    case Publishing(topic, m, at) =>
      conn.(acts := conn.acts + [Sent(topic, MakeEvent(k, charger, m, at), at.publishOk)], stage := Reading)
  }

  /** The next step of one loop; reading a frame and taking the counter is one step. */
  function Step(k: Codec, xs: seq<Link>, s: State, c: nat): (r: State)
    requires |xs| == |s.conns|
    ensures |r.conns| == |xs|
  {
    if c >= |xs| then s
    else if CanTake(xs[c], s.conns[c]) then
      var i := |s.conns[c].ids|;
      var takes := TakesId(xs[c].inbound[i].data);
      var counter := if takes then Increase(s.counter) else s.counter;
      State(counter, s.conns[c := Taken(k, s.conns[c], xs[c].inbound[i], counter)],
            if takes then s.issued + [(c, i)] else s.issued)
    else s.(conns := s.conns[c := Own(k, xs[c].charger, s.conns[c])])
  }

  function Run(k: Codec, xs: seq<Link>, s: State, cs: seq<nat>): (r: State)
    requires |xs| == |s.conns|
    ensures |r.conns| == |xs|
  {
    if cs == [] then s else Step(k, xs, Run(k, xs, s, cs[..|cs| - 1]), cs[|cs| - 1])
  }

  // ---------------------------------------------------------------- each connection is a loop on its own

  /** What the loop will have done once the frame at hand is finished with. */
  function Settled(k: Codec, charger: string, conn: Conn): (seq<Act>, bool) {
    match conn.stage
    case Reading => (conn.acts, conn.closed)
    case Writing(m, reply, frame, at) =>
      if !at.writeOk then (conn.acts, true)
      else (conn.acts + ([Wrote(m.messageId, reply, frame)] + Report(k, charger, m, at, TopicFor(m.action))),
          conn.closed)
    case Publishing(topic, m, at) =>
      (conn.acts + [Sent(topic, MakeEvent(k, charger, m, at), at.publishOk)], conn.closed)
  }

  /** The connection is in the middle of the plain loop over the frames it has taken. */
  ghost predicate Follows(k: Codec, x: Link, conn: Conn) {
    && |conn.ids| <= |x.inbound|
    && (conn.closed ==> conn.stage.Reading?)
    && Settled(k, x.charger, conn) == Serve(k, x, |conn.ids|, conn.ids)
  }

  /** What is left to do for the frame at hand does not change by doing it. */
  lemma OwnSettles(k: Codec, charger: string, conn: Conn)
    requires conn.closed ==> conn.stage.Reading?
    ensures Settled(k, charger, Own(k, charger, conn)) == Settled(k, charger, conn)
    ensures Own(k, charger, conn).ids == conn.ids && (Own(k, charger, conn).closed ==>
            Own(k, charger, conn).stage.Reading?)
  {
    if conn.stage.Writing? && conn.stage.at.writeOk {
      var m := conn.stage.message;
      var w := [Wrote(m.messageId, conn.stage.reply, conn.stage.frame)];
      var r := Report(k, charger, m, conn.stage.at, TopicFor(m.action));
      assert conn.acts + w + r == conn.acts + (w + r);
      assert conn.acts + w + [] == conn.acts + w;
    }
  }

  lemma TakenSettles(k: Codec, charger: string, conn: Conn, f: Inbound, counter: int)
    requires conn.stage.Reading? && !conn.closed
    ensures var (more, ends) := OnFrame(k, charger, f.data, f.at, counter);
            Settled(k, charger, Taken(k, conn, f, counter)) == (conn.acts + more, ends)
  {
    var m := CallIn(f.data);
    if m.Some? {
      RouteTopic(m.value.action, f.at.replyAt, counter);
    }
    assert conn.acts + [] == conn.acts;
  }

  lemma TakeFollows(k: Codec, x: Link, conn: Conn, counter: int)
    requires CanTake(x, conn) && Follows(k, x, conn)
    ensures Follows(k, x, Taken(k, conn, x.inbound[|conn.ids|], counter))
  {
    hide OnFrame;
    var i := |conn.ids|;
    var next := Taken(k, conn, x.inbound[i], counter);
    TakenSettles(k, x.charger, conn, x.inbound[i], counter);
    ServeIds(k, x, i, conn.ids, next.ids);
  }

  lemma StepFollows(k: Codec, xs: seq<Link>, s: State, c: nat, d: nat)
    requires |xs| == |s.conns| && d < |xs| && Follows(k, xs[d], s.conns[d])
    ensures Follows(k, xs[d], Step(k, xs, s, c).conns[d])
  {
    hide OnFrame, Taken, Settled;
    if c == d {
      if CanTake(xs[c], s.conns[c]) {
        var i := |s.conns[c].ids|;
        var f := xs[c].inbound[i];
        var counter := if TakesId(f.data) then Increase(s.counter) else s.counter;
        TakeFollows(k, xs[c], s.conns[c], counter);
      } else {
        OwnSettles(k, xs[c].charger, s.conns[c]);
      }
    }
  }

  // ---------------------------------------------------------------- the transaction ids

  /** Frame i of connection c was read and took a transaction id. */
  ghost predicate Started(xs: seq<Link>, s: State, c: int, i: int) {
    && 0 <= c < |xs| && c < |s.conns| && 0 <= i < |xs[c].inbound| && i < |s.conns[c].ids|
    && TakesId(xs[c].inbound[i].data)
  }

  ghost predicate IsNumbered(xs: seq<Link>, s: State, n: int)
    requires 0 <= n < |s.issued|
  {
    var (c, i) := s.issued[n];
    Started(xs, s, c, i) && s.conns[c].ids[i] == n + 1
  }

  ghost predicate HasNumber(xs: seq<Link>, s: State, c: int, i: int)
    requires Started(xs, s, c, i)
  {
    var id := s.conns[c].ids[i];
    1 <= id <= |s.issued| && s.issued[id - 1] == (c, i)
  }

  /** The ids handed out are 1, 2, ..., in the order of `issued`, one for each Start call read. */
  ghost predicate Numbered(xs: seq<Link>, s: State) {
    && s.counter == |s.issued|
    && (forall n :: 0 <= n < |s.issued| ==> IsNumbered(xs, s, n))
    && (forall c, i :: Started(xs, s, c, i) ==> HasNumber(xs, s, c, i))
  }

  /** From s to s', frame i of connection c was read with the counter at s'.counter. */
  ghost predicate Took(xs: seq<Link>, s: State, s': State, c: int, i: int) {
    && 0 <= c < |xs| == |s.conns| == |s'.conns| && 0 <= i < |xs[c].inbound| && i == |s.conns[c].ids|
    && s'.conns[c].ids == s.conns[c].ids + [s'.counter]
    && (forall d :: 0 <= d < |xs| && d != c ==> s'.conns[d] == s.conns[d])
    && (if TakesId(xs[c].inbound[i].data) then s'.issued == s.issued + [(c, i)] && s'.counter == s.counter + 1
        else s'.issued == s.issued && s'.counter == s.counter)
  }

  lemma TakeNumbers(xs: seq<Link>, s: State, s': State, c: int, i: int)
    requires Numbered(xs, s) && Took(xs, s, s', c, i)
    ensures Numbered(xs, s')
  {
    hide TakesId;
    forall n | 0 <= n < |s'.issued| ensures IsNumbered(xs, s', n) {
      if n < |s.issued| {
        assert IsNumbered(xs, s, n);
      }
    }
    forall d, j | Started(xs, s', d, j) ensures HasNumber(xs, s', d, j) {
      if d != c || j < i {
        assert Started(xs, s, d, j) && HasNumber(xs, s, d, j);
      }
    }
  }

  lemma OwnNumbers(xs: seq<Link>, s: State, s': State)
    requires Numbered(xs, s) && |s'.conns| == |s.conns| && s'.issued == s.issued && s'.counter == s.counter
    requires forall d :: 0 <= d < |s.conns| ==> s'.conns[d].ids == s.conns[d].ids
    ensures Numbered(xs, s')
  {
    hide TakesId;
    forall n | 0 <= n < |s'.issued| ensures IsNumbered(xs, s', n) {
      assert IsNumbered(xs, s, n);
    }
    forall d, j | Started(xs, s', d, j) ensures HasNumber(xs, s', d, j) {
      assert Started(xs, s, d, j) && HasNumber(xs, s, d, j);
    }
  }

  lemma NumberedCounter(xs: seq<Link>, s: State)
    requires Numbered(xs, s)
    ensures s.counter == |s.issued|
  {
  }

  lemma StepNumbers(k: Codec, xs: seq<Link>, s: State, c: nat)
    requires |xs| == |s.conns| && Numbered(xs, s) && |s.issued| < MAX64
    ensures Numbered(xs, Step(k, xs, s, c)) && |Step(k, xs, s, c).issued| <= |s.issued| + 1
  {
    hide TakesId, Numbered;
    if c < |xs| {
      if CanTake(xs[c], s.conns[c]) {
        assert s.counter == |s.issued| by {
          NumberedCounter(xs, s);
        }
        TakeNumbers(xs, s, Step(k, xs, s, c), c, |s.conns[c].ids|);
      } else {
        assert Own(k, xs[c].charger, s.conns[c]).ids == s.conns[c].ids;
        OwnNumbers(xs, s, Step(k, xs, s, c));
      }
    }
  }

  lemma StartFits(k: Codec, xs: seq<Link>)
    ensures Numbered(xs, Start(|xs|)) && forall d :: 0 <= d < |xs| ==> Follows(k, xs[d], Start(|xs|).conns[d])
  {
  }

  /** Transaction ids, over every interleaving of any connections: after any schedule, as long as it
      is shorter than 2^63 - 1 steps, the ids handed out are exactly 1 to n in the order in which
      the counter was taken and each Start call that was read has exactly one of them; and each
      connection has done what its loop alone would have done with the ids it got. */
  lemma {:induction false} IdsAreConsecutive(k: Codec, xs: seq<Link>, cs: seq<nat>)
    requires |cs| < 0x7FFF_FFFF_FFFF_FFFF
    ensures var s := Run(k, xs, Start(|xs|), cs);
            && Numbered(xs, s) && |s.issued| <= |cs|
            && forall d :: 0 <= d < |xs| ==> Follows(k, xs[d], s.conns[d])
  {
    hide Step;
    if cs == [] {
      StartFits(k, xs);
    } else {
      var front, c := cs[..|cs| - 1], cs[|cs| - 1];
      IdsAreConsecutive(k, xs, front);
      var s := Run(k, xs, Start(|xs|), front);
      forall d | 0 <= d < |xs| ensures Follows(k, xs[d], Step(k, xs, s, c).conns[d]) {
        StepFollows(k, xs, s, c, d);
      }
      StepNumbers(k, xs, s, c);
    }
  }

  /** Two Start calls never get the same id, and the one that took the counter first gets the smaller. */
  lemma IdsDiffer(xs: seq<Link>, s: State, c: nat, i: nat, d: nat, j: nat)
    requires Numbered(xs, s) && Started(xs, s, c, i) && Started(xs, s, d, j)
    ensures s.conns[c].ids[i] == s.conns[d].ids[j] <==> (c, i) == (d, j)
    ensures forall m, n ::
              0 <= m < |s.issued| && 0 <= n < |s.issued| && s.issued[m] == (c, i) && s.issued[n] == (d, j) ==>
              (m < n <==> s.conns[c].ids[i] < s.conns[d].ids[j])
  {
    hide TakesId;
    assert HasNumber(xs, s, c, i) && HasNumber(xs, s, d, j);
    forall m, n | 0 <= m < |s.issued| && 0 <= n < |s.issued| && s.issued[m] == (c, i) && s.issued[n] == (d, j)
      ensures m < n <==> s.conns[c].ids[i] < s.conns[d].ids[j]
    {
      assert IsNumbered(xs, s, m) && IsNumbered(xs, s, n);
    }
  }

  /** The action of a frame's call. */
  predicate IsCallOf(data: Text, action: Text) {
    CallIn(data).Some? && CallIn(data).value.action == action
  }

  /** The response to frame i, which took the id ids[i]: it carries the call's id and the reply due. */
  ghost predicate IsResponse(x: Link, ids: seq<int>, i: int, a: Act) {
    && 0 <= i < |x.inbound| && i < |ids| && a.Wrote? && CallIn(x.inbound[i].data).Some?
    && (var m := CallIn(x.inbound[i].data).value;
        a.messageId == m.messageId && Due(m.action, x.inbound[i].at.replyAt, ids[i], a.reply))
  }

  lemma FrameResponse(k: Codec, x: Link, i: nat, ids: seq<int>)
    requires i < |x.inbound| && i < |ids|
    ensures var acts := OnFrame(k, x.charger, x.inbound[i].data, x.inbound[i].at, ids[i]).0;
            forall p :: 0 <= p < |acts| && acts[p].Wrote? ==> p == 0 && IsResponse(x, ids, i, acts[p])
  {
    var m := CallIn(x.inbound[i].data);
    if m.Some? {
      RouteIsDue(m.value.action, x.inbound[i].at.replyAt, ids[i]);
    }
    hide Due, Route, CallIn, MakeCallResult;
  }

  /** The frames that two responses of one trace answer. */
  lemma {:induction false} Origins(k: Codec, x: Link, n: nat, ids: seq<int>, p: nat, q: nat) returns (i: nat, j: nat)
    requires n <= |x.inbound| && n <= |ids|
    requires var acts := Serve(k, x, n, ids).0; p <= q < |acts| && acts[p].Wrote? && acts[q].Wrote?
    ensures i <= j < n && (i < j <==> p < q)
    ensures var acts := Serve(k, x, n, ids).0; IsResponse(x, ids, i, acts[p]) && IsResponse(x, ids, j, acts[q])
    decreases n
  {
    hide OnFrame, IsResponse;
    var (front, closed) := Serve(k, x, n - 1, ids);
    if q < |front| {
      i, j := Origins(k, x, n - 1, ids, p, q);
    } else {
      FrameResponse(k, x, n - 1, ids);
      var more := OnFrame(k, x.charger, x.inbound[n - 1].data, x.inbound[n - 1].at, ids[n - 1]).0;
      assert (front + more)[q] == more[q - |front|];
      j := n - 1;
      i := j;
      if p < q {
        assert p >= |front| ==> (front + more)[p] == more[p - |front|];
        var j';
        i, j' := Origins(k, x, n - 1, ids, p, p);
      }
    }
  }

  lemma ActsSettled(k: Codec, charger: string, conn: Conn)
    ensures conn.acts <= Settled(k, charger, conn).0
  {
  }

  /** After any schedule, two responses of one connection answer two of the frames it has taken. */
  lemma TwoOrigins(k: Codec, xs: seq<Link>, cs: seq<nat>, c: nat, p: nat, q: nat) returns (i: nat, j: nat)
    requires |cs| < 0x7FFF_FFFF_FFFF_FFFF && c < |xs|
    requires var acts := Run(k, xs, Start(|xs|), cs).conns[c].acts;
             p < |acts| && q < |acts| && acts[p].Wrote? && acts[q].Wrote?
    ensures var conn := Run(k, xs, Start(|xs|), cs).conns[c];
            && IsResponse(xs[c], conn.ids, i, conn.acts[p]) && IsResponse(xs[c], conn.ids, j, conn.acts[q])
            && (i < j <==> p < q) && (i == j <==> p == q)
  {
    hide Step, Settled, Serve, IsResponse;
    var s := Run(k, xs, Start(|xs|), cs);
    IdsAreConsecutive(k, xs, cs);
    ActsSettled(k, xs[c].charger, s.conns[c]);
    if p <= q {
      i, j := Origins(k, xs[c], |s.conns[c].ids|, s.conns[c].ids, p, q);
    } else {
      j, i := Origins(k, xs[c], |s.conns[c].ids|, s.conns[c].ids, q, p);
    }
  }

  lemma OnlyStartsGetIds(action: Text, replyAt: Nanos, txId: int, reply: Reply)
    requires Due(action, replyAt, txId, reply)
    ensures reply.StartConf? <==> action == Ascii("StartTransaction")
    ensures reply.StartConf? ==> reply.transactionId == txId
  {
    hide Ascii;
  }

  /** A transaction id is carried by the responses to Starts, and is the one the frame took. */
  ghost predicate CarriesId(xs: seq<Link>, s: State, c: nat, i: int, a: Act)
    requires |xs| == |s.conns| && c < |xs| && 0 <= i < |xs[c].inbound| && i < |s.conns[c].ids| && a.Wrote?
  {
    && (a.reply.StartConf? <==> IsCallOf(xs[c].inbound[i].data, Ascii("StartTransaction")))
    && (a.reply.StartConf? ==> a.reply.transactionId == s.conns[c].ids[i] && 1 <= s.conns[c].ids[i] <= |s.issued|)
  }

  lemma ResponseFrame(x: Link, ids: seq<int>, i: int, a: Act)
    requires IsResponse(x, ids, i, a)
    ensures 0 <= i < |x.inbound| && i < |ids| && a.Wrote?
  {
  }

  lemma StartReply(xs: seq<Link>, s: State, c: nat, i: nat, a: Act)
    requires |xs| == |s.conns| && c < |xs| && Numbered(xs, s) && IsResponse(xs[c], s.conns[c].ids, i, a)
    ensures CarriesId(xs, s, c, i, a) && (a.reply.StartConf? ==> Started(xs, s, c, i))
  {
    var x := xs[c].inbound[i];
    OnlyStartsGetIds(CallIn(x.data).value.action, x.at.replyAt, s.conns[c].ids[i], a.reply);
    hide Due, Ascii, CallIn;
    if a.reply.StartConf? {
      assert Started(xs, s, c, i) && HasNumber(xs, s, c, i);
    }
  }

  lemma RepliesApart(xs: seq<Link>, s: State, c: nat, i: nat, a: Act, d: nat, j: nat, b: Act)
    requires |xs| == |s.conns| && c < |xs| && d < |xs| && Numbered(xs, s)
    requires IsResponse(xs[c], s.conns[c].ids, i, a) && IsResponse(xs[d], s.conns[d].ids, j, b)
    ensures CarriesId(xs, s, c, i, a) && CarriesId(xs, s, d, j, b)
    ensures a.reply.StartConf? && b.reply.StartConf? ==>
              (a.reply.transactionId == b.reply.transactionId <==> (c, i) == (d, j))
  {
    StartReply(xs, s, c, i, a);
    StartReply(xs, s, d, j, b);
    hide Numbered, Started, IsResponse, IsCallOf;
    if a.reply.StartConf? && b.reply.StartConf? {
      IdsDiffer(xs, s, c, i, d, j);
    }
  }

  /** On the wire, after any schedule: every response, on whatever connection, answers a frame of its own.
      It carries a transaction id exactly if that frame is a StartTransaction call, the one that frame
      took, which is one of 1 to n; and no two carry the same. */
  lemma StartRepliesDiffer(k: Codec, xs: seq<Link>, cs: seq<nat>, c: nat, p: nat, d: nat, q: nat)
    returns (i: nat, j: nat)
    requires |cs| < 0x7FFF_FFFF_FFFF_FFFF && c < |xs| && d < |xs|
    requires var s := Run(k, xs, Start(|xs|), cs);
             && p < |s.conns[c].acts| && s.conns[c].acts[p].Wrote?
             && q < |s.conns[d].acts| && s.conns[d].acts[q].Wrote?
    ensures var s := Run(k, xs, Start(|xs|), cs); var a, b := s.conns[c].acts[p], s.conns[d].acts[q];
            && IsResponse(xs[c], s.conns[c].ids, i, a) && IsResponse(xs[d], s.conns[d].ids, j, b)
            && ((c, p) == (d, q) <==> (c, i) == (d, j))
            && CarriesId(xs, s, c, i, a) && CarriesId(xs, s, d, j, b)
            && (a.reply.StartConf? && b.reply.StartConf? ==>
                  (a.reply.transactionId == b.reply.transactionId <==> (c, p) == (d, q)))
  {
    hide Step, Run, Serve, IsResponse, CarriesId, Numbered, Follows;
    var s := Run(k, xs, Start(|xs|), cs);
    IdsAreConsecutive(k, xs, cs);
    if c == d {
      i, j := TwoOrigins(k, xs, cs, c, p, q);
    } else {
      var i', j';
      i, i' := TwoOrigins(k, xs, cs, c, p, p);
      j, j' := TwoOrigins(k, xs, cs, d, q, q);
    }
    ResponseFrame(xs[c], s.conns[c].ids, i, s.conns[c].acts[p]);
    ResponseFrame(xs[d], s.conns[d].ids, j, s.conns[d].acts[q]);
    RepliesApart(xs, s, c, i, s.conns[c].acts[p], d, j, s.conns[d].acts[q]);
  }
}
