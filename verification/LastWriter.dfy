/** The guarded register behind a connector's status and meter fields: an update is applied only if
    its full-precision time is after the stored whole second. */
module LastWriter {
  import opened Domain

  datatype Update = Update(at: Nanos, fields: map<Field, Val>)

  datatype Register = Register(sec: Option<int>, fields: map<Field, Val>)

  const BLANK := Register(None, map[])

  function Push(r: Register, u: Update): Register {
    if r.sec.Some? && u.at <= r.sec.value * SECOND then r
    else Register(Some(FloorSec(u.at)), r.fields + u.fields)
  }

  function Replay(r: Register, us: seq<Update>): Register {
    if us == [] then r else Push(Replay(r, us[..|us| - 1]), us[|us| - 1])
  }

  // ---------------------------------------------------------------- the declarative reading

  /** The greatest whole second among the updates, None if there are none. */
  function MaxSec(us: seq<Update>): Option<int> {
    if us == [] then None
    else
      var m := MaxSec(us[..|us| - 1]);
      var s := FloorSec(us[|us| - 1].at);
      if m.Some? && m.value >= s then m else Some(s)
  }

  /** Update i is strictly later than the greatest whole second before it. */
  predicate Wins(us: seq<Update>, i: nat)
    requires i < |us|
  {
    var m := MaxSec(us[..i]);
    m.None? || us[i].at > m.value * SECOND
  }

  /** k is the last winning update that carries f. */
  predicate LastCarrying(us: seq<Update>, f: Field, k: nat) {
    && k < |us| && Wins(us, k) && f in us[k].fields
    && forall j :: k < j < |us| && Wins(us, j) ==> f !in us[j].fields
  }

  lemma {:induction false} MaxSecIsMax(us: seq<Update>)
    ensures MaxSec(us).None? <==> us == []
    ensures forall i :: 0 <= i < |us| ==> FloorSec(us[i].at) <= MaxSec(us).value
    ensures us != [] ==> exists i :: 0 <= i < |us| && FloorSec(us[i].at) == MaxSec(us).value
  {
    if us != [] {
      var front := us[..|us| - 1];
      MaxSecIsMax(front);
      var s := FloorSec(us[|us| - 1].at);
      if front != [] && MaxSec(front).value >= s {
        var i :| 0 <= i < |front| && FloorSec(front[i].at) == MaxSec(front).value;
        assert us[i] == front[i];
      } else {
        assert FloorSec(us[|us| - 1].at) == MaxSec(us).value;
      }
    }
  }

  lemma {:induction false} SecIsMax(us: seq<Update>)
    ensures Replay(BLANK, us).sec == MaxSec(us)
  {
    if us != [] {
      SecIsMax(us[..|us| - 1]);
    }
  }

  lemma WinsInPrefix(us: seq<Update>, n: nat, i: nat)
    requires i < n <= |us|
    ensures Wins(us[..n], i) == Wins(us, i)
  {
    assert us[..n][..i] == us[..i];
  }

  lemma LastCarryingSnoc(us: seq<Update>, f: Field, k: nat)
    requires us != []
    ensures var n := |us| - 1;
            LastCarrying(us, f, k) <==>
              if Wins(us, n) && f in us[n].fields then k == n else LastCarrying(us[..n], f, k)
  {
    var n := |us| - 1;
    forall i: nat | i < n ensures Wins(us[..n], i) == Wins(us, i) && us[..n][i] == us[i] {
      WinsInPrefix(us, n, i);
    }
  }

  /** Last writer wins, exactly: the stored second is the maximum of the floored times, and each
      field is that of the last update carrying it which was strictly later than the running
      maximum. Comparing full precision against the floored second loses nothing: the stored
      second still never misses a later one. */
  lemma {:induction false} Exactness(us: seq<Update>, f: Field)
    ensures var r := Replay(BLANK, us);
            && r.sec == MaxSec(us)
            && (f in r.fields <==> exists k: nat :: LastCarrying(us, f, k))
            && (forall k: nat :: LastCarrying(us, f, k) ==> f in r.fields && r.fields[f] == us[k].fields[f])
  {
    SecIsMax(us);
    if us != [] {
      var n := |us| - 1;
      var front := us[..n];
      Exactness(front, f);
      forall k: nat ensures LastCarrying(us, f, k) <==>
          if Wins(us, n) && f in us[n].fields then k == n else LastCarrying(front, f, k)
      {
        LastCarryingSnoc(us, f, k);
      }
      if Wins(us, n) && f in us[n].fields {
        assert LastCarrying(us, f, n);
      } else if exists k: nat :: LastCarrying(front, f, k) {
        var k: nat :| LastCarrying(front, f, k);
        assert LastCarrying(us, f, k);
      }
    }
  }

  // ---------------------------------------------------------------- order independence

  ghost predicate OrderIrrelevant(us: seq<Update>) {
    forall vs :: (forall u :: u in us <==> u in vs) ==> Replay(BLANK, vs) == Replay(BLANK, us)
  }

  predicate Carries(us: seq<Update>, f: Field, u: Update) {
    u in us && f in u.fields
  }

  /** The updates whose value for f can survive: of those that carry f, the ones of the greatest second
      that lie strictly inside it, or, if there is none, all of that second. */
  ghost predicate Decisive(us: seq<Update>, f: Field, u: Update) {
    && Carries(us, f, u)
    && (forall v :: Carries(us, f, v) ==> FloorSec(v.at) <= FloorSec(u.at))
    && (u.at > FloorSec(u.at) * SECOND || forall v :: Carries(us, f, v) ==> v.at <= FloorSec(u.at) * SECOND)
  }

  /** No update without f can shut out all that have it. */
  ghost predicate Outlasts(us: seq<Update>, f: Field) {
    forall w :: w in us && f !in w.fields ==> exists c :: Carries(us, f, c) && c.at > FloorSec(w.at) * SECOND
  }

  ghost predicate Agreed(us: seq<Update>, f: Field) {
    forall u, v :: Decisive(us, f, u) && Decisive(us, f, v) ==> u.fields[f] == v.fields[f]
  }

  /** The condition, field by field. */
  ghost predicate Settled(us: seq<Update>) {
    forall f, u :: Carries(us, f, u) ==> Outlasts(us, f) && Agreed(us, f)
  }

  lemma Floor(t: Nanos)
    ensures FloorSec(t) * SECOND <= t < (FloorSec(t) + 1) * SECOND
  {
  }

  lemma FloorMono(a: Nanos, b: Nanos)
    ensures a <= b ==> FloorSec(a) <= FloorSec(b)
    ensures a >= FloorSec(b) * SECOND <==> FloorSec(a) >= FloorSec(b)
  {
    Floor(a);
    Floor(b);
  }

  /** An update wins if it is after every second before it. */
  lemma WinsIff(us: seq<Update>, k: nat)
    requires k < |us|
    ensures Wins(us, k) <==> forall j :: 0 <= j < k ==> us[k].at > FloorSec(us[j].at) * SECOND
  {
    var before := us[..k];
    MaxSecIsMax(before);
    if before != [] {
      var i :| 0 <= i < k && FloorSec(before[i].at) == MaxSec(before).value;
      assert us[i] == before[i];
      forall j | 0 <= j < k && us[k].at > MaxSec(before).value * SECOND ensures us[k].at > FloorSec(us[j].at) * SECOND {
        assert before[j] == us[j];
      }
    }
  }

  lemma {:induction false} TopCarrier(us: seq<Update>, f: Field, u: Update) returns (c: Update)
    requires Carries(us, f, u)
    ensures Carries(us, f, c) && forall v :: Carries(us, f, v) ==> FloorSec(v.at) <= FloorSec(c.at)
    decreases |us|
  {
    var front, last := us[..|us| - 1], us[|us| - 1];
    assert forall v :: v in us <==> v in front || v == last;
    assert forall v :: Carries(us, f, v) <==> Carries(front, f, v) || (v == last && f in last.fields);
    if v :| Carries(front, f, v) {
      c := TopCarrier(front, f, v);
      if f in last.fields && FloorSec(last.at) > FloorSec(c.at) {
        c := last;
      }
    } else {
      c := last;
    }
  }

  /** The last carrier strictly inside second m. */
  lemma {:induction false} LastInside(us: seq<Update>, f: Field, m: int, u: Update) returns (k: nat)
    requires Carries(us, f, u) && u.at > m * SECOND
    ensures k < |us| && f in us[k].fields && us[k].at > m * SECOND
    ensures forall j :: k < j < |us| && f in us[j].fields ==> us[j].at <= m * SECOND
    decreases |us|
  {
    var n := |us| - 1;
    if f in us[n].fields && us[n].at > m * SECOND {
      k := n;
    } else {
      assert u in us[..n];
      k := LastInside(us[..n], f, m, u);
    }
  }

  /** The first carrier of second m. */
  lemma {:induction false} FirstOf(us: seq<Update>, f: Field, m: int, u: Update) returns (k: nat)
    requires Carries(us, f, u) && FloorSec(u.at) == m
    ensures k < |us| && f in us[k].fields && FloorSec(us[k].at) == m
    ensures forall j :: 0 <= j < k && f in us[j].fields ==> FloorSec(us[j].at) != m
    decreases |us|
  {
    var n := |us| - 1;
    if v :| Carries(us[..n], f, v) && FloorSec(v.at) == m {
      k := FirstOf(us[..n], f, m, v);
    } else {
      k := n;
      forall j | 0 <= j < n && f in us[j].fields ensures FloorSec(us[j].at) != m {
        assert us[..n][j] in us[..n] && Carries(us[..n], f, us[j]);
      }
    }
  }

  lemma InsideSurvives(us: seq<Update>, f: Field, c: Update, k: nat)
    requires Carries(us, f, c) && (forall v :: Carries(us, f, v) ==> FloorSec(v.at) <= FloorSec(c.at))
    requires Outlasts(us, f) && k < |us| && f in us[k].fields && us[k].at > FloorSec(c.at) * SECOND
    requires forall j :: k < j < |us| && f in us[j].fields ==> us[j].at <= FloorSec(c.at) * SECOND
    ensures LastCarrying(us, f, k) && Decisive(us, f, us[k])
  {
    var m := FloorSec(c.at);
    forall j | 0 <= j < |us| ensures FloorSec(us[j].at) <= m {
      assert us[j] in us;
      if f !in us[j].fields {
        var d :| Carries(us, f, d) && d.at > FloorSec(us[j].at) * SECOND;
        FloorMono(d.at, us[j].at);
      }
    }
    assert us[k] in us;
    FloorMono(us[k].at, c.at);
    WinsIff(us, k);
    forall j | k < j < |us| && Wins(us, j) ensures f !in us[j].fields {
      WinsIff(us, j);
      assert us[j].at > FloorSec(us[k].at) * SECOND;
    }
  }

  lemma BoundarySurvives(us: seq<Update>, f: Field, c: Update, k: nat)
    requires Carries(us, f, c) && (forall v :: Carries(us, f, v) ==> FloorSec(v.at) <= FloorSec(c.at))
    requires forall v :: Carries(us, f, v) ==> v.at <= FloorSec(c.at) * SECOND
    requires Outlasts(us, f) && k < |us| && f in us[k].fields && FloorSec(us[k].at) == FloorSec(c.at)
    requires forall j :: 0 <= j < k && f in us[j].fields ==> FloorSec(us[j].at) != FloorSec(c.at)
    ensures LastCarrying(us, f, k) && Decisive(us, f, us[k])
  {
    var m := FloorSec(c.at);
    assert us[k] in us;
    Floor(us[k].at);
    forall j | 0 <= j < k ensures us[k].at > FloorSec(us[j].at) * SECOND {
      assert us[j] in us;
      if f in us[j].fields {
        assert Carries(us, f, us[j]);
      } else {
        var d :| Carries(us, f, d) && d.at > FloorSec(us[j].at) * SECOND;
      }
    }
    WinsIff(us, k);
    forall j | k < j < |us| && f in us[j].fields ensures !Wins(us, j) {
      assert us[j] in us && Carries(us, f, us[j]);
      WinsIff(us, j);
    }
  }

  /** Whatever the order, the value that survives is a decisive one. */
  lemma Survivor(us: seq<Update>, f: Field, u: Update) returns (k: nat)
    requires Carries(us, f, u) && Outlasts(us, f)
    ensures LastCarrying(us, f, k) && Decisive(us, f, us[k])
  {
    var c := TopCarrier(us, f, u);
    if v :| Carries(us, f, v) && v.at > FloorSec(c.at) * SECOND {
      k := LastInside(us, f, FloorSec(c.at), v);
      InsideSurvives(us, f, c, k);
    } else {
      k := FirstOf(us, f, FloorSec(c.at), c);
      BoundarySurvives(us, f, c, k);
    }
  }

  lemma SameMax(us: seq<Update>, vs: seq<Update>)
    requires forall u :: u in us <==> u in vs
    ensures MaxSec(us) == MaxSec(vs)
  {
    MaxSecIsMax(us);
    MaxSecIsMax(vs);
    assert vs != [] ==> vs[0] in us;
    if us != [] {
      assert us[0] in vs;
      var i :| 0 <= i < |us| && FloorSec(us[i].at) == MaxSec(us).value;
      var j :| 0 <= j < |vs| && FloorSec(vs[j].at) == MaxSec(vs).value;
      assert us[i] in vs && vs[j] in us;
    }
  }

  lemma SameMembers(us: seq<Update>, vs: seq<Update>, f: Field)
    requires forall u :: u in us <==> u in vs
    ensures forall u :: Carries(us, f, u) <==> Carries(vs, f, u)
    ensures Outlasts(us, f) ==> Outlasts(vs, f)
    ensures forall u :: Decisive(us, f, u) <==> Decisive(vs, f, u)
  {
    forall u ensures Carries(us, f, u) <==> Carries(vs, f, u) {
    }
  }

  lemma NotCarried(us: seq<Update>, f: Field)
    requires forall u :: !Carries(us, f, u)
    ensures forall k: nat :: !LastCarrying(us, f, k)
  {
    assert forall k :: 0 <= k < |us| ==> !Carries(us, f, us[k]);
  }

  lemma SettledField(us: seq<Update>, vs: seq<Update>, f: Field)
    requires Settled(us) && forall u :: u in us <==> u in vs
    ensures var a, b := Replay(BLANK, us).fields, Replay(BLANK, vs).fields;
            (f in a <==> f in b) && (f in a && f in b ==> a[f] == b[f])
  {
    Exactness(us, f);
    Exactness(vs, f);
    SameMembers(us, vs, f);
    if u :| Carries(us, f, u) {
      hide Decisive, LastCarrying, Carries, Outlasts;
      assert Outlasts(us, f) && Agreed(us, f);
      var i := Survivor(us, f, u);
      var j := Survivor(vs, f, u);
    } else {
      NotCarried(us, f);
      NotCarried(vs, f);
    }
  }

  lemma SettledOrder(us: seq<Update>, vs: seq<Update>)
    requires Settled(us) && forall u :: u in us <==> u in vs
    ensures Replay(BLANK, vs) == Replay(BLANK, us)
  {
    SameMax(us, vs);
    SecIsMax(us);
    SecIsMax(vs);
    hide Settled, Replay;
    forall f
      ensures var a, b := Replay(BLANK, us).fields, Replay(BLANK, vs).fields;
              (f in a <==> f in b) && (f in a && f in b ==> a[f] == b[f])
    {
      SettledField(us, vs, f);
    }
    assert Replay(BLANK, us).fields == Replay(BLANK, vs).fields;
  }

  /** An update put first wins, and one put last wins if it is after every second. */
  lemma FirstWins(us: seq<Update>, u: Update)
    ensures Wins([u] + us, 0)
  {
    WinsIff([u] + us, 0);
  }

  lemma {:induction false} StaysIn(us: seq<Update>, f: Field, k: nat)
    requires k < |us| && Wins(us, k) && f in us[k].fields
    ensures f in Replay(BLANK, us).fields
    decreases |us|
  {
    var n := |us| - 1;
    SecIsMax(us[..n]);
    if k < n {
      WinsInPrefix(us, n, k);
      StaysIn(us[..n], f, k);
    }
  }

  /** If an update without f can shut out all that have it, f is there or not as the order goes. */
  lemma ShutOut(us: seq<Update>, f: Field, c: Update, w: Update)
    requires Carries(us, f, c) && w in us && f !in w.fields
    requires forall d :: Carries(us, f, d) ==> d.at <= FloorSec(w.at) * SECOND
    ensures !OrderIrrelevant(us)
  {
    var a, b := [c] + us, [w] + us;
    Exactness(b, f);
    forall k | 0 < k < |b| && f in b[k].fields ensures !Wins(b, k) {
      assert b[0] == w && b[k] == us[k - 1] && us[k - 1] in us;
      assert Carries(us, f, b[k]);
      WinsIff(b, k);
    }
    assert b[0] == w;
    assert forall k: nat :: !LastCarrying(b, f, k);
    FirstWins(us, c);
    StaysIn(a, f, 0);
    assert Replay(BLANK, a) != Replay(BLANK, b);
    assert (forall u :: u in us <==> u in a) && (forall u :: u in us <==> u in b);
  }

  /** A decisive value can be made to survive by moving a copy of its update. */
  lemma CanSurvive(us: seq<Update>, f: Field, u: Update) returns (vs: seq<Update>)
    requires Outlasts(us, f) && Decisive(us, f, u)
    ensures forall v :: v in us <==> v in vs
    ensures f in Replay(BLANK, vs).fields && Replay(BLANK, vs).fields[f] == u.fields[f]
  {
    if u.at > FloorSec(u.at) * SECOND {
      vs := us + [u];
      InsideSurvives(vs, f, u, |us|) by {
        SameMembers(us, vs, f);
      }
      Exactness(vs, f);
    } else {
      vs := [u] + us;
      BoundarySurvives(vs, f, u, 0) by {
        SameMembers(us, vs, f);
      }
      Exactness(vs, f);
    }
  }

  lemma NecessarilySettled(us: seq<Update>, f: Field, c: Update)
    requires OrderIrrelevant(us) && Carries(us, f, c)
    ensures Outlasts(us, f) && Agreed(us, f)
  {
    forall w | w in us && f !in w.fields ensures exists d :: Carries(us, f, d) && d.at > FloorSec(w.at) * SECOND {
      if !exists d :: Carries(us, f, d) && d.at > FloorSec(w.at) * SECOND {
        ShutOut(us, f, c, w);
      }
    }
    forall u, v | Decisive(us, f, u) && Decisive(us, f, v) ensures u.fields[f] == v.fields[f] {
      var a := CanSurvive(us, f, u);
      var b := CanSurvive(us, f, v);
      assert Replay(BLANK, a) == Replay(BLANK, us) && Replay(BLANK, b) == Replay(BLANK, us);
    }
  }

  /** Order independence, with its exact condition, for any updates whatever fields they carry. Every
      reordering and every duplication gives the same register if and only if, for each field, no
      update without it can shut out all that have it, and the decisive ones that have it agree. */
  lemma OrderIrrelevantIff(us: seq<Update>)
    ensures OrderIrrelevant(us) <==> Settled(us)
  {
    if Settled(us) {
      forall vs | forall u :: u in us <==> u in vs ensures Replay(BLANK, vs) == Replay(BLANK, us) {
        SettledOrder(us, vs);
      }
    }
    if OrderIrrelevant(us) {
      forall f, u | Carries(us, f, u) ensures Outlasts(us, f) && Agreed(us, f) {
        NecessarilySettled(us, f, u);
      }
    }
  }

  // ---------------------------------------------------------------- simpler cases

  ghost predicate SameKeys(us: seq<Update>) {
    forall u, v :: u in us && v in us ==> u.fields.Keys == v.fields.Keys
  }

  /** The updates of the greatest second that lie strictly inside it, or, if there is none, all of it. */
  ghost predicate Latest(us: seq<Update>, u: Update) {
    && u in us
    && (forall v :: v in us ==> FloorSec(v.at) <= FloorSec(u.at))
    && (u.at > FloorSec(u.at) * SECOND || forall v :: v in us ==> v.at <= FloorSec(u.at) * SECOND)
  }

  /** Among updates that carry the same fields, as all status notifications do, the condition is that
      the latest ones agree. */
  lemma SettledIffLatestAgree(us: seq<Update>)
    requires SameKeys(us)
    ensures Settled(us) <==> forall u, v :: Latest(us, u) && Latest(us, v) ==> u.fields == v.fields
  {
    forall f, u, v | Carries(us, f, u) ensures Decisive(us, f, v) <==> Latest(us, v) {
      assert forall x :: x in us <==> Carries(us, f, x);
    }
    if Settled(us) {
      forall u, v | Latest(us, u) && Latest(us, v) ensures u.fields == v.fields {
        forall f | f in u.fields ensures f in v.fields && u.fields[f] == v.fields[f] {
          assert Carries(us, f, u) && u.fields.Keys == v.fields.Keys;
          assert f in v.fields.Keys;
        }
        assert u.fields.Keys == v.fields.Keys;
      }
    }
  }

  /** In distinct seconds they do. */
  lemma DistinctSecondsAgree(us: seq<Update>)
    requires forall u, v :: u in us && v in us && FloorSec(u.at) == FloorSec(v.at) ==> u == v
    ensures forall f :: Agreed(us, f)
    ensures SameKeys(us) ==> Settled(us)
  {
  }
}
