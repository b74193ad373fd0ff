/** One charging session of the simulated charge point: the requests it sends and the arithmetic of
    energy, power and state of charge. Random draws, the clock and the outcome of each call are
    parameters; fractions are exact. */
module Simulator {
  import opened Domain
  import opened Ocpp
  import Decimal

  /** The draws of one pass of the charging loop. */
  datatype Draw = Draw(beat: bool, jitter: nat, spread: nat, charge: nat, pause: bool)

  datatype Setup = Setup(
    connector: int, interval: int, maxPower: int,
    walksAway: bool, meterStart: int, idTag: string, startSoc: int, basePower: int,
    draws: seq<Draw>, reason: string)

  /** What the random generator and the fleet table can produce. The interval comes from the
      environment and may be anything. */
  predicate Drawn(p: Setup) {
    && p.connector >= 1 && p.maxPower >= 2 && 0 <= p.meterStart < 50000 && 10 <= p.startSoc < 50
    && p.maxPower / 2 <= p.basePower < 2 * (p.maxPower / 2)
    && 5 <= |p.draws| < 25
    && (forall i :: 0 <= i < |p.draws| ==> p.draws[i].jitter < 2000 && p.draws[i].spread < 100 && p.draws[i].charge < 3)
  }

  /** What the session reads besides its draws: the second shown by the clock when the k-th request
      is built, and whether the k-th call is answered. */
  datatype World = World(clock: nat -> int, ok: nat -> bool)

  predicate Replied(w: World, k: nat) {
    w.ok(k)
  }

  datatype Loop = Loop(energy: int, soc: int, peak: int, calls: seq<Request>)

  // ---------------------------------------------------------------- arithmetic of one pass

  /** The taper is an exact fraction; this is its denominator. */
  function Whole(p: Setup): int {
    10 * (100 - p.startSoc)
  }

  /** The charging curve before its clamp, 1 - 0.6 (soc - startSoc) / (100 - startSoc), over Whole. */
  function Curve(p: Setup, soc: int): int {
    Whole(p) - 6 * (soc - p.startSoc)
  }

  /** With the clamp at 0.2. */
  function Taper(p: Setup, soc: int): int {
    if Curve(p, soc) * 10 < 2 * Whole(p) then 2 * (100 - p.startSoc) else Curve(p, soc)
  }

  /** Go's integer division. */
  function Quot(a: int, b: int): int
    requires b > 0
  {
    if a >= 0 then a / b else -((-a) / b)
  }

  /** The tapered power with its jitter, at least one kilowatt. The conversion of the float drops
      its fraction. */
  function PowerOf(p: Setup, soc: int, d: Draw): int
    requires p.startSoc < 100
  {
    var power := Quot(p.basePower * Taper(p, soc), Whole(p)) + d.jitter - 1000;
    if power < 1000 then 1000 else power
  }

  function EnergyStep(power: int, interval: int, d: Draw): int {
    var step := Quot(power * interval, 3600) + d.spread - 50;
    if step < 10 then 10 else step
  }

  function NextSoc(soc: int, d: Draw): int {
    var next := soc + if soc > 80 then 1 else 1 + d.charge;
    if next > 100 then 100 else next
  }

  // ---------------------------------------------------------------- the session

  function StatusAt(p: Setup, w: World, k: nat, status: ChargePointStatus): Request {
    StatusRequest(p.connector, status, w.clock(k))
  }

  function MeterAt(p: Setup, w: World, k: nat, energy: int, power: int, soc: int): Request {
    MeterRequest(p.connector, w.clock(k), energy, power, soc)
  }

  /** The calls of one pass before its meter reading; their outcome is ignored. */
  function Aside(p: Setup, w: World, i: int, k: nat): seq<Request>
    requires 0 <= i < |p.draws|
  {
    var beat := if p.draws[i].beat then [HeartbeatRequest] else [];
    var n := k + |beat|;
    beat + if p.draws[i].pause && i < |p.draws| - 2 then [StatusAt(p, w, n, SuspendedEV), StatusAt(p, w, n + 1,
        Charging)] else []
  }

  function Pass(p: Setup, w: World, i: int, s: Loop): Loop
    requires 0 <= i < |p.draws| && p.startSoc < 100
  {
    var d := p.draws[i];
    var power := PowerOf(p, s.soc, d);
    var energy := s.energy + EnergyStep(power, p.interval, d);
    var soc := NextSoc(s.soc, d);
    var calls := s.calls + Aside(p, w, i, |s.calls|);
    Loop(energy, soc, if power > s.peak then power else s.peak,
         calls + [MeterAt(p, w, |calls|, energy, power, soc)])
  }

  function Opening(p: Setup, w: World): seq<Request> {
    [StatusAt(p, w, 0, Preparing), StartRequest(p.connector, p.idTag, p.meterStart, w.clock(1)), StatusAt(p, w, 2,
        Charging)]
  }

  /** The loop after i passes. */
  function After(p: Setup, w: World, i: nat): Loop
    requires i <= |p.draws| && p.startSoc < 100
  {
    if i == 0 then Loop(p.meterStart, p.startSoc, 0, Opening(p, w)) else Pass(p, w, i - 1, After(p, w, i - 1))
  }

  function Closing(p: Setup, w: World, k: nat, energy: int): seq<Request> {
    [StatusAt(p, w, k, Finishing), StopRequest(0, p.idTag, energy, w.clock(k + 1), p.reason),
     StatusAt(p, w, k + 2, Available)]
  }

  /** How many calls pass i makes, and how many have been made after i passes. */
  function CallsOf(p: Setup, i: int): nat
    requires 0 <= i < |p.draws|
  {
    (if p.draws[i].beat then 1 else 0) + (if p.draws[i].pause && i < |p.draws| - 2 then 2 else 0) + 1
  }

  function CallsAfter(p: Setup, i: nat): (n: nat)
    requires i <= |p.draws|
    ensures n >= 3
  {
    if i == 0 then 3 else CallsAfter(p, i - 1) + CallsOf(p, i - 1)
  }

  /** The outcome of the reading of the i-th pass. */
  predicate Answered(p: Setup, w: World, i: nat)
    requires 1 <= i <= |p.draws|
  {
    Replied(w, CallsAfter(p, i) - 1)
  }

  /** No reading of the loop goes unanswered. */
  ghost predicate AllAnswered(p: Setup, w: World) {
    forall j :: 1 <= j <= |p.draws| ==> Answered(p, w, j)
  }

  /** The calls of the whole session, when nothing goes wrong. */
  function Complete(p: Setup, w: World): seq<Request>
    requires p.startSoc < 100
  {
    var s := After(p, w, |p.draws|);
    s.calls + Closing(p, w, |s.calls|, s.energy)
  }

  datatype Ending = Done | WalkedAway | Failed

  /** The tapered, jittered power of one pass. */
  method DrawPower(p: Setup, soc: int, d: Draw) returns (power: int)
    requires p.startSoc < 100
    ensures power == PowerOf(p, soc, d)
  {
    var taper := Curve(p, soc);
    if taper * 10 < 2 * Whole(p) {
      taper := 2 * (100 - p.startSoc);
    }
    power := Quot(p.basePower * taper, Whole(p)) + d.jitter - 1000;
    if power < 1000 {
      power := 1000;
    }
  }

  /** The calls are those of a session cut short. */
  ghost predicate CutShort(p: Setup, w: World, calls: seq<Request>)
    requires p.startSoc < 100
  {
    calls <= Complete(p, w)
  }

  lemma PassGrows(p: Setup, w: World, i: nat, s: Loop)
    requires i < |p.draws| && p.startSoc < 100
    ensures s.calls <= Pass(p, w, i, s).calls
  {
    var calls := s.calls + Aside(p, w, i, |s.calls|);
    assert Pass(p, w, i, s).calls[..|s.calls|] == s.calls;
  }

  lemma {:induction false} Grows(p: Setup, w: World, i: nat, j: nat)
    requires i <= j <= |p.draws| && p.startSoc < 100
    ensures After(p, w, i).calls <= After(p, w, j).calls
    decreases j
  {
    if i < j {
      Grows(p, w, i, j - 1);
      PassGrows(p, w, j - 1, After(p, w, j - 1));
    }
  }

  lemma CompleteStarts(p: Setup, w: World, i: nat)
    requires i <= |p.draws| && p.startSoc < 100
    ensures CutShort(p, w, After(p, w, i).calls) && CutShort(p, w, Opening(p, w)) && CutShort(p, w, Opening(p, w)[..2])
    ensures CutShort(p, w, Opening(p, w)[..1]) && CutShort(p, w, Complete(p, w))
  {
    hide Pass, Closing;
    Grows(p, w, 0, |p.draws|);
    Grows(p, w, i, |p.draws|);
  }

  lemma PlugIn(p: Setup, w: World)
    requires p.startSoc < 100
    ensures var a := [StatusAt(p, w, 0, Preparing), StartRequest(p.connector, p.idTag, p.meterStart, w.clock(1))];
            CutShort(p, w, a) && CutShort(p, w, a + [StatusAt(p, w, 2, Charging)])
  {
    hide StatusAt, CutShort;
    CompleteStarts(p, w, 0);
    var a := [StatusAt(p, w, 0, Preparing), StartRequest(p.connector, p.idTag, p.meterStart, w.clock(1))];
    assert a == Opening(p, w)[..2] && a + [StatusAt(p, w, 2, Charging)] == Opening(p, w);
  }

  lemma CompleteEnds(p: Setup, w: World)
    requires p.startSoc < 100
    ensures var s := After(p, w, |p.draws|); Complete(p, w) == s.calls + Closing(p, w, |s.calls|, s.energy)
  {
    hide After, Closing;
  }

  // ---------------------------------------------------------------- what one pass promises

  /** The quotient of a by b, its fraction dropped, is at most u. */
  predicate AtMost(a: int, b: int, u: int) {
    if u >= 0 then a < b * (u + 1) else a <= b * u
  }

  /** It is at least u. */
  predicate AtLeast(a: int, b: int, u: int) {
    if u > 0 then a >= b * u else a > b * (u - 1)
  }

  /** Power is basePower (1 - 0.6 (soc - startSoc) / (100 - startSoc)), the factor at least 0.2 and the
      fraction dropped, plus the jitter less 1000, and at least 1000. */
  predicate IsPower(p: Setup, soc: int, jitter: int, power: int) {
    var whole := 10 * (100 - p.startSoc);
    var part := whole - 6 * (soc - p.startSoc);
    var a := p.basePower * if 5 * part < whole then 2 * (100 - p.startSoc) else part;
    && power >= 1000 && AtMost(a, whole, power - jitter + 1000)
    && (power > 1000 ==> AtLeast(a, whole, power - jitter + 1000))
  }

  /** Energy goes up by power * interval / 3600, the fraction dropped, plus the jitter less 50, and by at
      least 10. */
  predicate IsIncrement(power: int, interval: int, spread: int, d: int) {
    && d >= 10 && AtMost(power * interval, 3600, d - spread + 50)
    && (d > 10 ==> AtLeast(power * interval, 3600, d - spread + 50))
  }

  /** Pass i takes the loop from s to r: the heartbeat if one is due, the pause, except in the last two
      passes, and the reading, with the new energy and state of charge. */
  predicate Passes(p: Setup, w: World, i: int, s: Loop, r: Loop)
    requires 0 <= i < |p.draws|
  {
    var d := p.draws[i];
    var k := |s.calls| + if d.beat then 1 else 0;
    var pauses := d.pause && i < |p.draws| - 2;
    var n := |r.calls| - 1;
    && r.soc == (var soc := s.soc + (if s.soc > 80 then 1 else 1 + d.charge); if soc > 100 then 100 else soc)
    && n == k + (if pauses then 2 else 0)
    && r.calls[..n] == s.calls + (if d.beat then [HeartbeatRequest] else [])
                       + (if pauses then [StatusRequest(p.connector, SuspendedEV, w.clock(k)),
                                          StatusRequest(p.connector, Charging, w.clock(k + 1))] else [])
    && r.calls[n].MeterRequest? && r.calls[n].connector == p.connector && r.calls[n].sec == w.clock(n)
    && r.calls[n].energy == r.energy && r.calls[n].soc == r.soc
    && IsPower(p, s.soc, d.jitter, r.calls[n].power)
    && IsIncrement(r.calls[n].power, p.interval, d.spread, r.energy - s.energy)
    && r.peak == if r.calls[n].power > s.peak then r.calls[n].power else s.peak
  }

  lemma Steps(b: int, m: int, n: int)
    requires b > 0 && m <= n
    ensures b * m <= b * n
  {
  }

  lemma Divides(a: int, b: int, q: int)
    requires a >= 0 && b > 0 && q == a / b
    ensures q >= 0 && b * q <= a < b * q + b
  {
  }

  lemma Spread(b: int, q: int)
    ensures b * (q + 1) == b * q + b && b * (q - 1) == b * q - b
    ensures b * -q == -(b * q) && b * (-q - 1) == -(b * q) - b && b * (-q + 1) == b - b * q
  {
  }

  lemma QuotIs(a: int, b: int)
    requires b > 0
    ensures AtMost(a, b, Quot(a, b)) && AtLeast(a, b, Quot(a, b))
  {
    var q := if a >= 0 then a / b else (-a) / b;
    Divides(if a >= 0 then a else -a, b, q);
    Spread(b, q);
    assert Quot(a, b) == if a >= 0 then q else -q;
    hide Quot;
  }

  lemma QuotBelow(a: int, b: int, u: int)
    requires b > 0 && Quot(a, b) <= u
    ensures AtMost(a, b, u)
  {
    var q := Quot(a, b);
    QuotIs(a, b);
    Steps(b, q, u);
    Steps(b, q + 1, u + 1);
    if u < 0 {
    } else if q < 0 {
      Steps(b, q, 0);
      Steps(b, 0, u + 1);
    }
  }

  lemma PowerIs(p: Setup, soc: int, d: Draw)
    requires p.startSoc < 100
    ensures IsPower(p, soc, d.jitter, PowerOf(p, soc, d))
  {
    var a, power := p.basePower * Taper(p, soc), PowerOf(p, soc, d);
    QuotIs(a, Whole(p));
    QuotBelow(a, Whole(p), power - d.jitter + 1000);
  }

  lemma IncrementIs(power: int, interval: int, d: Draw)
    ensures IsIncrement(power, interval, d.spread, EnergyStep(power, interval, d))
  {
    var a, step := power * interval, EnergyStep(power, interval, d);
    QuotIs(a, 3600);
    QuotBelow(a, 3600, step - d.spread + 50);
  }

  lemma PassIs(p: Setup, w: World, i: nat, s: Loop)
    requires i < |p.draws| && p.startSoc < 100
    ensures Passes(p, w, i, s, Pass(p, w, i, s))
  {
    var d := p.draws[i];
    var power := PowerOf(p, s.soc, d);
    PowerIs(p, s.soc, d);
    IncrementIs(power, p.interval, d);
    hide PowerOf, EnergyStep, IsPower, IsIncrement;
    var r := Pass(p, w, i, s);
    var calls := s.calls + Aside(p, w, i, |s.calls|);
    assert r.calls[..|r.calls| - 1] == calls;
  }

  /** The quotient is one number: what Passes asks determines power and energy. */
  lemma QuotientUnique(a: int, b: int, u: int, v: int)
    requires b > 0 && AtMost(a, b, u) && AtLeast(a, b, v)
    ensures v <= u
  {
    if u < v {
      if 0 <= u {
        Steps(b, u + 1, v);
      } else {
        Steps(b, u, v - 1);
        if v > 0 {
          Steps(b, u, 0);
          Steps(b, 0, v);
        }
      }
    }
  }

  lemma PowerUnique(p: Setup, soc: int, jitter: int, power: int, other: int)
    requires p.startSoc < 100 && IsPower(p, soc, jitter, power) && IsPower(p, soc, jitter, other)
    ensures power == other
  {
    var whole := 10 * (100 - p.startSoc);
    var part := whole - 6 * (soc - p.startSoc);
    var a := p.basePower * if 5 * part < whole then 2 * (100 - p.startSoc) else part;
    hide AtMost, AtLeast;
    if power < other {
      QuotientUnique(a, whole, power - jitter + 1000, other - jitter + 1000);
    } else if other < power {
      QuotientUnique(a, whole, other - jitter + 1000, power - jitter + 1000);
    }
  }

  lemma IncrementUnique(power: int, interval: int, spread: int, d: int, e: int)
    requires IsIncrement(power, interval, spread, d) && IsIncrement(power, interval, spread, e)
    ensures d == e
  {
    hide AtMost, AtLeast;
    if d < e {
      QuotientUnique(power * interval, 3600, d - spread + 50, e - spread + 50);
    } else if e < d {
      QuotientUnique(power * interval, 3600, e - spread + 50, d - spread + 50);
    }
  }

  lemma PassUnique(p: Setup, w: World, i: nat, s: Loop, r: Loop, other: Loop)
    requires i < |p.draws| && p.startSoc < 100 && Passes(p, w, i, s, r) && Passes(p, w, i, s, other)
    ensures r == other
  {
    hide IsPower, IsIncrement;
    var n, d := |r.calls| - 1, p.draws[i];
    PowerUnique(p, s.soc, d.jitter, r.calls[n].power, other.calls[n].power);
    IncrementUnique(r.calls[n].power, p.interval, d.spread, r.energy - s.energy, other.energy - s.energy);
    assert r.calls == r.calls[..n] + [r.calls[n]] && other.calls == other.calls[..n] + [other.calls[n]];
  }

  /** The loop's states from its start, one pass after another. */
  ghost predicate IsTrail(p: Setup, w: World, trail: seq<Loop>) {
    && 0 < |trail| <= |p.draws| + 1
    && trail[0] == Loop(p.meterStart, p.startSoc, 0, [
            StatusRequest(p.connector, Preparing, w.clock(0)),
            StartRequest(p.connector, p.idTag, p.meterStart, w.clock(1)),
            StatusRequest(p.connector, Charging, w.clock(2))])
    && forall i :: 0 <= i < |trail| - 1 ==> Passes(p, w, i, trail[i], trail[i + 1])
  }

  /** A session run to its end: every pass, and then Finishing, the Stop with the last energy, Available. */
  ghost predicate IsSession(p: Setup, w: World, calls: seq<Request>, trail: seq<Loop>) {
    && IsTrail(p, w, trail) && |trail| == |p.draws| + 1
    && (var s := trail[|p.draws|]; var k := |s.calls|;
        calls == s.calls + [StatusRequest(p.connector, Finishing, w.clock(k)),
                            StopRequest(0, p.idTag, s.energy, w.clock(k + 1), p.reason),
                            StatusRequest(p.connector, Available, w.clock(k + 2))])
  }

  /** The states of the loop are a trail ... */
  function Trail(p: Setup, w: World, n: nat): (trail: seq<Loop>)
    requires n <= |p.draws| && p.startSoc < 100
    ensures |trail| == n + 1 && forall i :: 0 <= i <= n ==> trail[i] == After(p, w, i)
  {
    seq(n + 1, i requires 0 <= i <= n => After(p, w, i))
  }

  lemma LoopIsTrail(p: Setup, w: World, n: nat)
    requires n <= |p.draws| && p.startSoc < 100
    ensures IsTrail(p, w, Trail(p, w, n))
  {
    hide Passes, Pass;
    var trail := Trail(p, w, n);
    forall i | 0 <= i < n ensures Passes(p, w, i, trail[i], trail[i + 1]) {
      PassIs(p, w, i, After(p, w, i));
      assert After(p, w, i + 1) == Pass(p, w, i, After(p, w, i));
    }
  }

  /** ... and the only one. */
  lemma {:induction false} TrailUnique(p: Setup, w: World, trail: seq<Loop>, i: nat)
    requires IsTrail(p, w, trail) && i < |trail| && p.startSoc < 100
    ensures trail[i] == After(p, w, i)
    decreases i
  {
    hide Passes, Pass;
    if i > 0 {
      TrailUnique(p, w, trail, i - 1);
      PassIs(p, w, i - 1, After(p, w, i - 1));
      assert Passes(p, w, i - 1, trail[i - 1], trail[i - 1 + 1]);
      PassUnique(p, w, i - 1, After(p, w, i - 1), trail[i], After(p, w, i));
    }
  }

  /** The energy reading a session ends with. */
  ghost predicate EndsAt(p: Setup, w: World, energy: int) {
    exists trail: seq<Loop> :: IsTrail(p, w, trail) && |trail| == |p.draws| + 1 && trail[|p.draws|].energy == energy
  }

  lemma LoopEndsAt(p: Setup, w: World, energy: int)
    requires p.startSoc < 100
    ensures EndsAt(p, w, energy) <==> energy == After(p, w, |p.draws|).energy
  {
    hide After, IsTrail;
    LoopIsTrail(p, w, |p.draws|);
    var loop := Trail(p, w, |p.draws|);
    if EndsAt(p, w, energy) {
      var trail: seq<Loop> :| IsTrail(p, w, trail) && |trail| == |p.draws| + 1 && trail[|p.draws|].energy == energy;
      TrailUnique(p, w, trail, |p.draws|);
    }
  }

  lemma CompleteIsSession(p: Setup, w: World)
    requires p.startSoc < 100
    ensures IsSession(p, w, Complete(p, w), Trail(p, w, |p.draws|))
  {
    LoopIsTrail(p, w, |p.draws|);
    hide IsTrail, After;
  }

  /** One pass of the loop, up to sending its reading. */
  method ChargeOnce(p: Setup, w: World, i: nat, s: Loop) returns (r: Loop)
    requires i < |p.draws| && p.startSoc < 100
    ensures r == Pass(p, w, i, s) && |r.calls| == |s.calls| + CallsOf(p, i)
    ensures Passes(p, w, i, s, r)
  {
    PassIs(p, w, i, s);
    hide Passes;
    var d, energy, soc, peak, calls := p.draws[i], s.energy, s.soc, s.peak, s.calls;
    if d.beat {
      calls := calls + [HeartbeatRequest];
    }
    var power := DrawPower(p, soc, d);
    if power > peak {
      peak := power;
    }
    var step := Quot(power * p.interval, 3600);
    step := step + d.spread - 50;
    if step < 10 {
      step := 10;
    }
    energy := energy + step;
    var charge := 1 + d.charge;
    if soc > 80 {
      charge := 1;
    }
    soc := soc + charge;
    if soc > 100 {
      soc := 100;
    }
    if d.pause && i < |p.draws| - 2 {
      calls := calls + [StatusAt(p, w, |calls|, SuspendedEV)];
      calls := calls + [StatusAt(p, w, |calls|, Charging)];
    }
    assert calls == s.calls + Aside(p, w, i, |s.calls|);
    calls := calls + [MeterAt(p, w, |calls|, energy, power, soc)];
    r := Loop(energy, soc, peak, calls);
  }

  /** The loop of simulateSession. A reading that is not answered ends it, and the session. */
  method ChargingLoop(p: Setup, w: World) returns (failed: bool, passes: nat, s: Loop)
    requires p.startSoc < 100
    ensures failed <==> !AllAnswered(p, w)
    ensures passes <= |p.draws| && s == After(p, w, passes) && |s.calls| == CallsAfter(p, passes)
    ensures if failed then !Replied(w, |s.calls| - 1) else passes == |p.draws|
    ensures IsTrail(p, w, Trail(p, w, passes)) && s == Trail(p, w, passes)[passes]
  {
    hide PowerOf, EnergyStep, Aside, IsTrail;
    s := Loop(p.meterStart, p.startSoc, 0, Opening(p, w));
    failed, passes := false, 0;
    while passes < |p.draws|
      invariant passes <= |p.draws| && s == After(p, w, passes) && |s.calls| == CallsAfter(p, passes)
      invariant !failed && forall j :: 1 <= j <= passes ==> Answered(p, w, j)
    {
      s := ChargeOnce(p, w, passes, s);
      passes := passes + 1;
      if !Replied(w, |s.calls| - 1) {
        failed := true;
        assert !Answered(p, w, passes);
        break;
      }
    }
    LoopIsTrail(p, w, passes);
  }

  /** The calls after the loop; their errors are ignored. */
  method Finish(p: Setup, w: World, s: Loop) returns (calls: seq<Request>)
    ensures calls == s.calls + Closing(p, w, |s.calls|, s.energy)
  {
    calls := s.calls + [StatusAt(p, w, |s.calls|, Finishing)];
    calls := calls + [StopRequest(0, p.idTag, s.energy, w.clock(|calls|), p.reason)];
    calls := calls + [StatusAt(p, w, |calls|, Available)];
  }

  /** The session from the plugging in of an authorized driver on. */
  method ChargeAndStop(p: Setup, w: World) returns (done: bool, calls: seq<Request>, s: Loop)
    requires Drawn(p)
    ensures CutShort(p, w, calls)
    ensures done <==> Replied(w, 1) && Replied(w, 2) && AllAnswered(p, w)
    ensures done ==> calls == Complete(p, w) && s == After(p, w, |p.draws|)
    ensures !done ==> calls != [] && !Replied(w, |calls| - 1)
  {
    assert p.startSoc < 100 && |p.draws| > 0;
    hide Pass, Drawn, Complete, After, Opening, Closing, CallsAfter, CutShort, StatusAt, Replied, AllAnswered, IsTrail,
        Trail;
    CompleteEnds(p, w);
    PlugIn(p, w);
    done, s := false, Loop(p.meterStart, p.startSoc, 0, []);
    calls := [StatusAt(p, w, 0, Preparing), StartRequest(p.connector, p.idTag, p.meterStart, w.clock(1))];
    if Replied(w, 1) {
      calls := calls + [StatusAt(p, w, 2, Charging)];
      if Replied(w, 2) {
        var failed, passes;
        failed, passes, s := ChargingLoop(p, w);
        CompleteStarts(p, w, passes);
        if failed {
          calls := s.calls;
        } else {
          calls := Finish(p, w, s);
          done := true;
        }
      }
    }
  }

  /** simulateSession. Every call whose error is returned ends the session; the errors of the others
      are ignored. */
  method SimulateSession(p: Setup, w: World) returns (calls: seq<Request>, ending: Ending, s: Loop)
    requires Drawn(p)
    ensures if p.walksAway
            then calls <= [StatusRequest(p.connector, Preparing, w.clock(0)),
                           StatusRequest(p.connector, Available, w.clock(1))]
            else CutShort(p, w, calls)
    ensures ending == WalkedAway <==> p.walksAway && Replied(w, 0) && Replied(w, 1)
    ensures ending == Done <==> !p.walksAway && Replied(w, 0) && Replied(w, 1) && Replied(w, 2) && AllAnswered(p, w)
    ensures ending == Done ==> calls == Complete(p, w) && s == After(p, w, |p.draws|)
    ensures ending == Done ==> IsSession(p, w, calls, Trail(p, w, |p.draws|))
    ensures ending == Failed ==> calls != [] && !Replied(w, |calls| - 1)
  {
    s := Loop(p.meterStart, p.startSoc, 0, []);
    calls := [StatusAt(p, w, 0, Preparing)];
    CompleteStarts(p, w, 0);
    assert calls == Opening(p, w)[..1];
    if !Replied(w, 0) {
      return calls, Failed, s;
    }
    if p.walksAway {
      calls := calls + [StatusAt(p, w, 1, Available)];
      return calls, if Replied(w, 1) then WalkedAway else Failed, s;
    }
    var done;
    done, calls, s := ChargeAndStop(p, w);
    CompleteIsSession(p, w);
    ending := if done then Done else Failed;
  }

  // ---------------------------------------------------------------- bounds

  /** The curve stays between two fifths and one while the state of charge stays in its range, so the
      clamp at one fifth is never used. */
  lemma CurveBounds(p: Setup, soc: int)
    requires p.startSoc < 100 && p.startSoc <= soc <= 100
    ensures 2 * Whole(p) <= 5 * Curve(p, soc) && Curve(p, soc) <= Whole(p)
    ensures Taper(p, soc) == Curve(p, soc)
  {
  }

  lemma Multiply(a: int, part: int, whole: int)
    requires a >= 0 && 0 <= part <= whole
    ensures 0 <= a * part <= a * whole
  {
  }

  lemma DivideDown(x: int, a: int, whole: int)
    requires whole > 0 && 0 <= x <= a * whole
    ensures 0 <= x / whole <= a
  {
    var q := x / whole;
    assert q * whole <= x;
    if q > a {
      Multiply(whole, a + 1, q);
    }
  }

  lemma PowerBounds(p: Setup, soc: int, d: Draw)
    requires Drawn(p) && d.jitter < 2000 && p.startSoc <= soc <= 100
    ensures 1000 <= PowerOf(p, soc, d) <= p.maxPower + 998
  {
    CurveBounds(p, soc);
    Multiply(p.basePower, Taper(p, soc), Whole(p));
    DivideDown(p.basePower * Taper(p, soc), p.basePower, Whole(p));
  }

  /** The energy added by pass i. */
  function Increment(p: Setup, w: World, i: nat): int
    requires i < |p.draws| && p.startSoc < 100
  {
    EnergyStep(PowerOf(p, After(p, w, i).soc, p.draws[i]), p.interval, p.draws[i])
  }

  function Increments(p: Setup, w: World, i: nat): int
    requires i <= |p.draws| && p.startSoc < 100
  {
    if i == 0 then 0 else Increments(p, w, i - 1) + Increment(p, w, i - 1)
  }

  /** The most one pass can add. */
  function Cap(p: Setup): int {
    var most := (p.maxPower + 998) * p.interval / 3600 + 49;
    if most < 10 then 10 else most
  }

  lemma StepBounds(power: int, most: int, interval: int, d: Draw)
    requires 0 <= power <= most && d.spread < 100
    ensures EnergyStep(power, interval, d) >= 10
    ensures interval >= 0 ==>
            EnergyStep(power, interval, d) <= 10 || EnergyStep(power, interval, d) <= most * interval / 3600 + 49
  {
    if interval >= 0 {
      Multiply(interval, power, most);
    }
  }

  lemma PassNumbers(p: Setup, w: World, i: nat, s: Loop)
    requires i < |p.draws| && p.startSoc < 100
    ensures var power := PowerOf(p, s.soc, p.draws[i]); var r := Pass(p, w, i, s);
            && r.energy == s.energy + EnergyStep(power, p.interval, p.draws[i]) && r.soc == NextSoc(s.soc, p.draws[i])
            && r.peak == if power > s.peak then power else s.peak
  {
  }

  /** Whatever is drawn, after i passes: the state of charge is between its start and 100 and has not
      gone down, the energy is the sum of the increments, each at least 10 and, for an interval that
      is not negative, at most Cap, and every power seen was between one kilowatt and
      maxPower + 998. */
  lemma {:induction false} LoopBounds(p: Setup, w: World, i: nat)
    requires Drawn(p) && i <= |p.draws|
    ensures p.startSoc <= After(p, w, i).soc <= 100
    ensures i > 0 ==> After(p, w, i - 1).soc <= After(p, w, i).soc
    ensures i > 0 ==> After(p, w, i - 1).energy + 10 <= After(p, w, i).energy
    ensures After(p, w, i).energy == p.meterStart + Increments(p, w, i)
    ensures After(p, w, i).energy >= p.meterStart + 10 * i
    ensures p.interval >= 0 ==> Increments(p, w, i) <= i * Cap(p)
    ensures i > 0 ==> 1000 <= After(p, w, i).peak
    ensures After(p, w, i).peak <= p.maxPower + 998
  {
    hide PowerOf, EnergyStep, Aside;
    if i > 0 {
      LoopBounds(p, w, i - 1);
      var s, d := After(p, w, i - 1), p.draws[i - 1];
      PowerBounds(p, s.soc, d);
      var power := PowerOf(p, s.soc, d);
      PassNumbers(p, w, i - 1, s);
      StepBounds(power, p.maxPower + 998, p.interval, d);
      if p.interval >= 0 {
        assert i * Cap(p) == (i - 1) * Cap(p) + Cap(p);
      }
    }
  }

  // ---------------------------------------------------------------- the shape of a session

  /** Call i of a session, up to the last reading. */
  ghost predicate Fits(p: Setup, w: World, i: nat, r: Request) {
    match r
    case StatusRequest(n, _, sec) => n == p.connector && sec == w.clock(i)
    case MeterRequest(n, sec, _, _, _) => n == p.connector && sec == w.clock(i)
    case StartRequest(_, _, _, _) => i == 1 && r == StartRequest(p.connector, p.idTag, p.meterStart, w.clock(1))
    case HeartbeatRequest => true
    case _ => false
  }

  ghost predicate AllFit(p: Setup, w: World, calls: seq<Request>) {
    && (forall i :: 0 <= i < |calls| ==> Fits(p, w, i, calls[i]))
    && (|calls| > 1 ==> calls[1].StartRequest?)
  }

  lemma PassFits(p: Setup, w: World, i: nat, s: Loop)
    requires i < |p.draws| && p.startSoc < 100 && AllFit(p, w, s.calls) && |s.calls| >= 3
    ensures var r := Pass(p, w, i, s);
            && AllFit(p, w, r.calls) && |r.calls| > |s.calls|
            && r.calls[|r.calls| - 1].MeterRequest? && r.calls[|r.calls| - 1].energy == r.energy
  {
    hide PowerOf, EnergyStep;
    var aside := Aside(p, w, i, |s.calls|);
    var calls := s.calls + aside;
    assert forall j :: 0 <= j < |aside| ==> Fits(p, w, |s.calls| + j, aside[j]);
    assert forall j :: |s.calls| <= j < |calls| ==> calls[j] == aside[j - |s.calls|];
  }

  /** Up to its last reading a session is one Start, second in line, with status notifications and
      readings for the same connector, each stamped when it is sent; the last reading carries the
      final energy. */
  lemma {:induction false} SessionShape(p: Setup, w: World, i: nat)
    requires i <= |p.draws| && p.startSoc < 100
    ensures var s := After(p, w, i);
            && AllFit(p, w, s.calls) && |s.calls| >= 3 + i
            && (i > 0 ==> s.calls[|s.calls| - 1].MeterRequest? && s.calls[|s.calls| - 1].energy == s.energy)
  {
    hide Pass;
    if i > 0 {
      SessionShape(p, w, i - 1);
      PassFits(p, w, i - 1, After(p, w, i - 1));
    }
  }
}
