/** The read API: the state it assembles from the Redis layout, and what that state says about the
    events that were processed. */
module ReadView {
  import opened Domain
  import opened Store
  import opened Handler
  import opened Machine
  import opened Ownership
  import opened Interleaving
  import opened Confluence
  import opened Sequential
  import opened Connectors
  import opened Ordering
  import Decimal

  datatype ConnectorState = ConnectorState(
    connectorId: int, status: Val, errorCode: Val, statusTimestamp: Val, activeTransaction: bool,
    energyWh: Val, powerW: Val, socPercent: Val, meterTimestamp: Val)

  datatype ChargerState = ChargerState(
    chargerId: string, vendor: Val, model: Val, serial: Val, firmware: Val, online: bool,
    lastSeen: Val, lastBoot: Val, connectors: seq<ConnectorState>)

  /** A Go map lookup: a missing field reads as the empty string. */
  function Read(h: map<Field, Val>, f: Field): Val {
    if f in h then h[f] else Text("")
  }

  /** One connector, from the member text of the connector set. */
  function ConnectorView(s: Store, c: string, member: string): ConnectorState {
    var n := Decimal.Scan(member);
    var h := Hash(s, ConnKey(c, n));
    ConnectorState(n, Read(h, StatusF), Read(h, ErrorCode), Read(h, StatusTs),
                   Read(h, ActiveTransaction) == Text("true"),
                   Read(h, EnergyWh), Read(h, PowerW), Read(h, SocPercent), Read(h, MeterTs))
  }

  ghost predicate Listing(s: Store, c: string, ms: seq<string>) {
    Ascending(ms) && forall m :: m in ms <==> m in Members(s, ConnectorsKey(c))
  }

  function Views(s: Store, c: string, ms: seq<string>): seq<ConnectorState> {
    seq(|ms|, i requires 0 <= i < |ms| => ConnectorView(s, c, ms[i]))
  }

  /** The state of a charger: its boot fields, and its connectors in the order of their texts. */
  ghost predicate IsView(s: Store, c: string, v: ChargerState) {
    var h := Hash(s, ChargerKey(c));
    && v.chargerId == c && v.vendor == Read(h, Vendor) && v.model == Read(h, Model)
    && v.serial == Read(h, Serial) && v.firmware == Read(h, Firmware)
    && v.online == (Read(h, Online) == Text("true"))
    && v.lastSeen == Read(h, LastSeen) && v.lastBoot == Read(h, LastBoot)
    && exists ms :: Listing(s, c, ms) && v.connectors == Views(s, c, ms)
  }

  /** The store determines the view. */
  lemma ViewUnique(s: Store, c: string, v: ChargerState, w: ChargerState)
    requires IsView(s, c, v) && IsView(s, c, w)
    ensures v == w
  {
    var ms :| Listing(s, c, ms) && v.connectors == Views(s, c, ms);
    var ns :| Listing(s, c, ns) && w.connectors == Views(s, c, ns);
    AscendingUnique(ms, ns);
  }

  // ---------------------------------------------------------------- the handlers of the API

  /** SMEMBERS: the members in no particular order. */
  method SMembers(s: Store, k: Key) returns (ms: seq<string>)
    ensures Distinct(ms) && forall m :: m in ms <==> m in Members(s, k)
  {
    ms := [];
    var left := Members(s, k);
    while left != {}
      invariant left <= Members(s, k) && Distinct(ms)
      invariant forall m :: m in ms <==> m in Members(s, k) - left
      decreases left
    {
      var m :| m in left;
      assert m !in ms;
      left := left - {m};
      ms := ms + [m];
    }
  }

  method BuildChargerState(s: Store, c: string) returns (v: ChargerState)
    ensures IsView(s, c, v)
  {
    var info := Hash(s, ChargerKey(c));
    var members := SMembers(s, ConnectorsKey(c));
    members := SortStrings(members);
    var connectors: seq<ConnectorState> := [];
    var i := 0;
    while i < |members|
      invariant 0 <= i <= |members| && connectors == Views(s, c, members[..i])
    {
      connectors := connectors + [ConnectorView(s, c, members[i])];
      assert members[..i + 1] == members[..i] + [members[i]];
      i := i + 1;
    }
    assert members[..i] == members;
    assert Listing(s, c, members);
    v := ChargerState(c, Read(info, Vendor), Read(info, Model), Read(info, Serial), Read(info, Firmware),
                      Read(info, Online) == Text("true"), Read(info, LastSeen), Read(info, LastBoot), connectors);
  }

  lemma {:induction false} ListingSize(xs: seq<string>, m: set<string>)
    requires Ascending(xs) && forall x :: x in xs <==> x in m
    ensures |xs| == |m|
    decreases |xs|
  {
    if xs == [] {
      assert m == {};
    } else {
      assert xs[0] in m;
      forall x ensures x in xs[1..] <==> x in m - {xs[0]} {
        TailMember(xs, x);
      }
      ListingSize(xs[1..], m - {xs[0]});
    }
  }

  /** GET /chargers: every known charger once, in the order of their ids. */
  method ListChargers(s: Store) returns (vs: seq<ChargerState>)
    ensures |vs| == |Members(s, ChargersKey)|
    ensures forall i :: 0 <= i < |vs| ==> IsView(s, vs[i].chargerId, vs[i])
    ensures forall i, j :: 0 <= i < j < |vs| ==> Before(vs[i].chargerId, vs[j].chargerId)
    ensures forall c :: c in Members(s, ChargersKey) <==> exists i :: 0 <= i < |vs| && vs[i].chargerId == c
  {
    var ids := SMembers(s, ChargersKey);
    ids := SortStrings(ids);
    vs := [];
    var i := 0;
    while i < |ids|
      invariant 0 <= i <= |ids| && |vs| == i
      invariant forall k :: 0 <= k < i ==> IsView(s, ids[k], vs[k])
    {
      var v := BuildChargerState(s, ids[i]);
      vs := vs + [v];
      i := i + 1;
    }
    assert forall k :: 0 <= k < |vs| ==> vs[k].chargerId == ids[k];
    ListingSize(ids, Members(s, ChargersKey));
    forall c | c in Members(s, ChargersKey) ensures exists i :: 0 <= i < |vs| && vs[i].chargerId == c {
      assert c in ids;
      var k :| 0 <= k < |ids| && ids[k] == c;
      assert vs[k].chargerId == c;
    }
    forall k | 0 <= k < |vs| ensures vs[k].chargerId in Members(s, ChargersKey) {
      assert ids[k] in ids;
    }
  }

  /** GET /chargers/<id>: not found exactly for a charger outside the set. */
  method GetChargerState(s: Store, c: string) returns (v: Option<ChargerState>)
    ensures v.Some? <==> c in Members(s, ChargersKey)
    ensures v.Some? ==> IsView(s, c, v.value)
  {
    if c !in Members(s, ChargersKey) {
      return None;
    }
    var state := BuildChargerState(s, c);
    v := Some(state);
  }

  // ---------------------------------------------------------------- order and identity of connectors

  /** The connectors of a view that were added under their printed number carry that number, once
      each. */
  lemma ConnectorIds(s: Store, c: string, ms: seq<string>, i: nat, j: nat)
    requires Listing(s, c, ms) && i < j < |ms|
    requires forall m :: m in ms ==> exists n :: m == Decimal.Print(n)
    ensures Views(s, c, ms)[i].connectorId != Views(s, c, ms)[j].connectorId
    ensures ms[i] == Decimal.Print(Views(s, c, ms)[i].connectorId)
  {
    assert ms[i] in ms && ms[j] in ms;
    var m :| ms[i] == Decimal.Print(m);
    var n :| ms[j] == Decimal.Print(n);
    Decimal.ScanPrint(m);
    Decimal.ScanPrint(n);
    Trichotomy(ms[i], ms[j]);
  }

  // ---------------------------------------------------------------- what is listed after a run

  /** The event puts connector n of its charger into the connector set. */
  predicate Lists(e: Event, n: int) {
    Updates(e, n) || (e.body.Start? && e.body.connector == n)
  }

  /** The event puts its charger into the charger set. */
  predicate Shows(e: Event) {
    e.body.Status? || (e.body.Meter? && e.body.readings != []) || e.body.Start? || e.body.Stop?
  }

  /** What a list of commands adds to a set. */
  predicate Adds(cs: seq<Cmd>, k: Key, m: string) {
    exists i :: 0 <= i < |cs| && cs[i] == SAdd(k, m)
  }

  lemma AddsStep(cs: seq<Cmd>, k: Key, m: string)
    requires cs != []
    ensures Adds(cs, k, m) <==> cs[0] == SAdd(k, m) || Adds(cs[1..], k, m)
  {
    if Adds(cs, k, m) {
      var i :| 0 <= i < |cs| && cs[i] == SAdd(k, m);
      assert i > 0 ==> cs[1..][i - 1] == SAdd(k, m);
    }
    if Adds(cs[1..], k, m) {
      var i :| 0 <= i < |cs[1..]| && cs[1..][i] == SAdd(k, m);
      assert cs[i + 1] == SAdd(k, m);
    }
  }

  lemma ExecMembers(s: Store, c: Cmd, k: Key, m: string)
    ensures m in Members(Exec(s, c), k) <==> m in Members(s, k) || c == SAdd(k, m)
  {
  }

  lemma {:induction false} ExecAllMembers(s: Store, cs: seq<Cmd>, k: Key, m: string)
    ensures m in Members(ExecAll(s, cs), k) <==> m in Members(s, k) || Adds(cs, k, m)
    decreases |cs|
  {
    hide Exec, Members;
    if cs != [] {
      ExecAllMembers(Exec(s, cs[0]), cs[1..], k, m);
      ExecMembers(s, cs[0], k, m);
      AddsStep(cs, k, m);
    }
  }

  predicate HasTs(h: map<Field, Val>) {
    StatusTs in h || MeterTs in h
  }

  /** A connector with a stored timestamp is in its set, and its charger in the set of chargers. */
  ghost predicate GuardListed(s: Store, c: string, n: int) {
    HasTs(Hash(s, ConnKey(c, n))) ==>
      Decimal.Print(n) in Members(s, ConnectorsKey(c)) && c in Members(s, ChargersKey)
  }

  lemma ConnAdds(e: Event, n: int, fields: map<Field, Val>, seen: map<Field, Val>, k: Key, m: string)
    ensures Adds(ConnCmds(e, n, fields, seen), k, m) <==>
              (k == ConnectorsKey(e.charger) && m == Decimal.Print(n)) || (k == ChargersKey && m == e.charger)
  {
    var cs := ConnCmds(e, n, fields, seen);
    assert cs[2] == SAdd(ConnectorsKey(e.charger), Decimal.Print(n)) && cs[3] == SAdd(ChargersKey, e.charger);
  }

  lemma StartAdds(e: Event, k: Key, m: string)
    requires e.body.Start?
    ensures Adds(StartCmds(e), k, m) <==>
              (k == ConnectorsKey(e.charger) && m == Decimal.Print(e.body.connector)) || (k == ChargersKey
                  && m == e.charger)
  {
    var cs := StartCmds(e);
    assert cs[1] == SAdd(ConnectorsKey(e.charger), Decimal.Print(e.body.connector))
        && cs[5] == SAdd(ChargersKey, e.charger);
  }

  lemma StopAdds(e: Event, tx: map<Field, Val>, k: Key, m: string)
    requires e.body.Stop?
    ensures Adds(StopCmds(e, tx), k, m) <==> k == ChargersKey && m == e.charger
  {
    var cs := StopCmds(e, tx);
    assert cs[|cs| - 1] == SAdd(ChargersKey, e.charger);
  }

  /** The members an event is responsible for. */
  ghost predicate Brings(e: Event, k: Key, m: string) {
    || (k == ConnectorsKey(e.charger) && exists n :: Lists(e, n) && m == Decimal.Print(n))
    || (k == ChargersKey && m == e.charger && Shows(e))
  }

  lemma BringsConn(e: Event, n: int, k: Key, m: string)
    requires Updates(e, n)
    ensures Brings(e, k, m) <==>
              (k == ConnectorsKey(e.charger) && m == Decimal.Print(n)) || (k == ChargersKey && m == e.charger)
  {
    assert Lists(e, n);
  }

  /** An event that is skipped as stale finds its members already there. */
  lemma ConnMembers(s: Store, e: Event, n: int, fields: map<Field, Val>, seen: map<Field, Val>, d: Decision, k: Key,
                    m: string)
    requires Updates(e, n) && GuardListed(s, e.charger, n)
    requires d == Write(ConnCmds(e, n, fields, seen))
             || (d == Skip && HasTs(Hash(s, ConnKey(e.charger, n))))
    ensures m in Members(if d.Write? then ExecAll(s, d.cmds) else s, k) <==> m in Members(s, k) || Brings(e, k, m)
  {
    BringsConn(e, n, k, m);
    if d.Write? {
      ExecAllMembers(s, d.cmds, k, m);
      ConnAdds(e, n, fields, seen, k, m);
    }
  }

  lemma PlanMembers(s: Store, e: Event, k: Key, m: string)
    requires forall n :: GuardListed(s, e.charger, n)
    ensures var d := Plan(e, s, false);
            m in Members(if d.Write? then ExecAll(s, d.cmds) else s, k) <==> m in Members(s, k) || Brings(e, k, m)
  {
    var d := Plan(e, s, false);
    match e.body
    case Status(n, _, _, _) => ConnMembers(s, e, n, StatusFields(e), SeenOnline(e), d, k, m);
    case Meter(n, readings) =>
      if readings != [] {
        ConnMembers(s, e, n, MeterFields(e), LastSeenOf(e), d, k, m);
      }
    case Start(n, _, _) =>
      assert Lists(e, n);
      ExecAllMembers(s, StartCmds(e), k, m);
      StartAdds(e, k, m);
    case Stop(_, _, _) =>
      ExecAllMembers(s, d.cmds, k, m);
      StopAdds(e, Hash(s, TxKey(e.charger)), k, m);
    case Boot(_, _, _, _) => ExecAllMembers(s, d.cmds, k, m);
    case Heartbeat => ExecAllMembers(s, d.cmds, k, m);
    case _ =>
  }

  lemma ApplyMembers(s: Store, e: Event, k: Key, m: string)
    requires forall n :: GuardListed(s, e.charger, n)
    ensures m in Members(Apply(s, e), k) <==> m in Members(s, k) || Brings(e, k, m)
  {
    var b := Remember(Lock(s, e.messageId), e);
    forall n ensures GuardListed(b, e.charger, n) {
      assert GuardListed(s, e.charger, n);
      assert Hash(b, ConnKey(e.charger, n)) == Hash(s, ConnKey(e.charger, n));
    }
    PlanMembers(b, e, k, m);
  }

  /** The writes to connector hashes that set no timestamp. */
  predicate Timeless(cs: seq<Cmd>) {
    forall i :: 0 <= i < |cs| && cs[i].HSet? && cs[i].key.ConnKey? ==> !HasTs(cs[i].fields)
  }

  lemma PlanTimeless(s: Store, e: Event)
    requires !e.body.Status? && !e.body.Meter?
    ensures var d := Plan(e, s, false); d.Write? ==> Timeless(d.cmds)
  {
  }

  lemma {:induction false} NoTsWritten(h: map<Field, Val>, k: Key, cs: seq<Cmd>)
    requires k.ConnKey? && Timeless(cs)
    ensures HasTs(HashAfter(h, k, cs)) ==> HasTs(h)
    decreases |cs|
  {
    if cs != [] {
      NoTsWritten(if cs[0].HSet? && cs[0].key == k then h + cs[0].fields
                  else if cs[0].Del? && cs[0].key == k then map[] else h, k, cs[1..]);
    }
  }

  lemma PlanTs(s: Store, e: Event, c: string, n: int)
    requires var d := Plan(e, s, false); d.Write? && HasTs(Hash(ExecAll(s, d.cmds), ConnKey(c, n)))
    ensures HasTs(Hash(s, ConnKey(c, n))) || (e.charger == c && Updates(e, n))
  {
    var d := Plan(e, s, false);
    if e.body.Status? {
      ConnCmdsHash(s, e, e.body.connector, StatusFields(e), SeenOnline(e), c, n);
    } else if e.body.Meter? {
      ConnCmdsHash(s, e, e.body.connector, MeterFields(e), LastSeenOf(e), c, n);
    } else {
      assert Timeless(d.cmds) by {
        PlanTimeless(s, e);
      }
      ExecAllHash(s, ConnKey(c, n), d.cmds);
      NoTsWritten(Hash(s, ConnKey(c, n)), ConnKey(c, n), d.cmds);
    }
  }

  lemma ConnTsFrom(s: Store, e: Event, c: string, n: int)
    requires HasTs(Hash(Apply(s, e), ConnKey(c, n)))
    ensures HasTs(Hash(s, ConnKey(c, n))) || (e.charger == c && Updates(e, n))
  {
    var b := Remember(Lock(s, e.messageId), e);
    assert Hash(b, ConnKey(c, n)) == Hash(s, ConnKey(c, n));
    if Plan(e, b, false).Write? {
      PlanTs(b, e, c, n);
    }
  }

  /** From empty stores, the members of the two kinds of set are those the events bring. */
  lemma {:induction false} MembersAlone(es: seq<Event>, k: Key, m: string)
    requires k.ConnectorsKey? || k == ChargersKey
    ensures m in Members(ApplySeq(EMPTY, es), k) <==> exists e :: e in es && Brings(e, k, m)
    ensures forall c, n :: GuardListed(ApplySeq(EMPTY, es), c, n)
  {
    if es != [] {
      var front, e := es[..|es| - 1], es[|es| - 1];
      MembersAlone(front, k, m);
      var a := ApplySeq(EMPTY, front);
      ApplyMembers(a, e, k, m);
      forall c, n ensures GuardListed(Apply(a, e), c, n) {
        if HasTs(Hash(Apply(a, e), ConnKey(c, n))) {
          ConnTsFrom(a, e, c, n);
          assert GuardListed(a, c, n);
          ApplyMembers(a, e, ConnectorsKey(c), Decimal.Print(n));
          ApplyMembers(a, e, ChargersKey, c);
          if e.charger == c && Updates(e, n) {
            BringsConn(e, n, ConnectorsKey(c), Decimal.Print(n));
            BringsConn(e, n, ChargersKey, c);
          }
        }
      }
      assert forall x :: x in es <==> x in front || x == e;
    }
  }

  lemma {:induction false} FreshHas(es: seq<Event>, i: nat)
    requires i < |es|
    requires forall i, j :: 0 <= i < |es| && 0 <= j < |es| && es[i].messageId == es[j].messageId ==> es[i] == es[j]
    ensures es[i] in Fresh({}, es)
  {
    var n := |es| - 1;
    if i < n {
      FreshHas(es[..n], i);
    } else if es[n].messageId in MessageIds(es[..n]) {
      var e :| e in es[..n] && e.messageId == es[n].messageId;
      var j :| 0 <= j < n && es[..n][j] == e;
      FreshHas(es[..n], j);
    }
  }

  lemma FreshBrings(es: seq<Event>, k: Key, m: string)
    requires forall i, j :: 0 <= i < |es| && 0 <= j < |es| && es[i].messageId == es[j].messageId ==> es[i] == es[j]
    ensures (exists e :: e in Fresh({}, es) && Brings(e, k, m)) <==> (exists e :: e in es && Brings(e, k, m))
  {
    FreshSubset({}, es);
    forall e | e in es ensures e in Fresh({}, es) {
      var i :| 0 <= i < |es| && es[i] == e;
      FreshHas(es, i);
    }
  }

  /** Message ids identify messages: two events with the same one are the same. */
  ghost predicate UniqueMessageIds(logs: Logs) {
    forall p, i, e, q, j, f ::
      (Holds(logs, p, i, e) && Holds(logs, q, j, f) && e.messageId == f.messageId) ==> e == f
  }

  ghost predicate BroughtInLog(logs: Logs, k: Key, m: string, e: Event) {
    Brings(e, k, m) && exists l :: e in LaneEvents(logs, l)
  }

  /** The event is the first delivery of its message. */
  ghost predicate Brought(logs: Logs, k: Key, m: string, e: Event) {
    Brings(e, k, m) && exists l :: e in Fresh({}, LaneEvents(logs, l))
  }

  lemma LaneBrings(logs: Logs, l: Lane, k: Key, m: string)
    requires k.ConnectorsKey? || k == ChargersKey
    ensures On(HandleSeq(EMPTY, LaneEvents(logs, l)), M(k, m)) <==>
              exists e :: e in Fresh({}, LaneEvents(logs, l)) && Brings(e, k, m)
  {
    HandleSeqIsApplySeq(EMPTY, LaneEvents(logs, l));
    MembersAlone(Fresh({}, LaneEvents(logs, l)), k, m);
  }

  lemma LaneEventHeld(logs: Logs, l: Lane, e: Event)
    requires e in LaneEvents(logs, l)
    ensures exists p, i :: Holds(logs, p, i, e)
  {
    var p := HomePart(logs, l);
    LaneLogMembers(logs[p], l.charger, e);
    var i :| 0 <= i < |logs[p]| && logs[p][i] == Rec(e);
    assert Holds(logs, p, i, e);
  }

  /** If message ids identify messages it makes no difference which delivery is meant. */
  lemma AnyDelivery(logs: Logs, k: Key, m: string)
    requires UniqueMessageIds(logs)
    ensures (exists e :: Brought(logs, k, m, e)) <==> (exists e :: BroughtInLog(logs, k, m, e))
  {
    forall l
      ensures (exists e :: e in Fresh({}, LaneEvents(logs, l)) && Brings(e, k, m))
              <==> (exists e :: e in LaneEvents(logs, l) && Brings(e, k, m))
    {
      var es := LaneEvents(logs, l);
      forall i, j | 0 <= i < |es| && 0 <= j < |es| && es[i].messageId == es[j].messageId ensures es[i] == es[j] {
        assert es[i] in es && es[j] in es;
        LaneEventHeld(logs, l, es[i]);
        LaneEventHeld(logs, l, es[j]);
      }
      FreshBrings(es, k, m);
    }
    hide Brings, Fresh, LaneEvents;
    if e :| Brought(logs, k, m, e) {
      var l :| e in Fresh({}, LaneEvents(logs, l));
      var e' :| e' in LaneEvents(logs, l) && Brings(e', k, m);
      assert BroughtInLog(logs, k, m, e');
    }
    if e :| BroughtInLog(logs, k, m, e) {
      var l :| e in LaneEvents(logs, l);
      var e' :| e' in Fresh({}, LaneEvents(logs, l)) && Brings(e', k, m);
      assert Brought(logs, k, m, e');
    }
  }

  /** After any gentle run from empty stores, a charger is listed exactly when one of its status,
      non-empty meter or transaction events was processed, and a connector of it exactly when a
      status, non-empty meter or Start event named that connector. Of messages that share an id the
      first one counts. */
  lemma ListedIff(logs: Logs, now: Nanos, ls: seq<Label>, k: Key, m: string)
    requires Orderly(logs) && (k.ConnectorsKey? || k == ChargersKey)
    requires CleanCharger(logs, if k.ConnectorsKey? then k.charger else m)
    requires Gentle(logs, Init(EMPTY, now), ls) && Drained(logs, Run(logs, Init(EMPTY, now), ls))
    ensures m in Members(Run(logs, Init(EMPTY, now), ls).store, k) <==> exists e :: Brought(logs, k, m, e)
    ensures UniqueMessageIds(logs) ==>
              (m in Members(Run(logs, Init(EMPTY, now), ls).store, k) <==> exists e :: BroughtInLog(logs, k, m, e))
  {
    var end := Run(logs, Init(EMPTY, now), ls).store;
    RunsAreMerges(logs, EMPTY, now, ls);
    assert HomeOf(logs, M(k, m)) == Shared;
    assert On(end, M(k, m)) <==> m in Members(end, k);
    forall l ensures On(HandleSeq(EMPTY, LaneEvents(logs, l)), M(k, m)) <==>
                       exists e :: e in Fresh({}, LaneEvents(logs, l)) && Brings(e, k, m)
    {
      LaneBrings(logs, l, k, m);
    }
    hide Run, Fresh, LaneEvents, Brings, HandleSeq;
    if m in Members(end, k) {
      var l :| On(HandleSeq(EMPTY, LaneEvents(logs, l)), M(k, m));
      var e :| e in Fresh({}, LaneEvents(logs, l)) && Brings(e, k, m);
      assert Brought(logs, k, m, e);
    }
    if e :| Brought(logs, k, m, e) {
      var l :| e in Fresh({}, LaneEvents(logs, l));
      assert On(HandleSeq(EMPTY, LaneEvents(logs, l)), M(k, m));
    }
    if UniqueMessageIds(logs) {
      AnyDelivery(logs, k, m);
    }
  }
}
