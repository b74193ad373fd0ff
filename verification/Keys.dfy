/** The texts behind the structured keys and fields, and exactly when two of them collide. */
module Keys {
  import opened Domain
  import opened Decimal
  import Handler

  function Render(k: Key): string {
    match k
    case ChargerKey(c) => "charger:" + c
    case ConnKey(c, n) => "charger:" + c + ":conn:" + Print(n)
    case ConnectorsKey(c) => "charger:" + c + ":connectors"
    case ChargersKey => "chargers"
    case TxKey(c) => "tx:active:" + c
    case DedupKey(m) => "dedup:" + m
  }

  /** A charger whose id looks like another charger's connector or connector set. */
  predicate Clash(a: Key, b: Key) {
    a.ChargerKey?
    && ((b.ConnKey? && a.charger == b.charger + ":conn:" + Print(b.connector))
        || (b.ConnectorsKey? && a.charger == b.charger + ":connectors"))
  }

  predicate NoColon(s: string) {
    forall i :: 0 <= i < |s| ==> s[i] != ':'
  }

  lemma PrintNoColon(n: int)
    ensures NoColon(Print(n)) && |Print(n)| > 0 && Print(n)[0] != 'c'
  {
    var s := PrintNat(if n < 0 then -n else n);
    assert forall i :: 0 <= i < |s| ==> IsDigit(s[i]);
  }

  /** What follows the last colon is determined. */
  lemma LastColon(a: string, b: string, p: string, q: string)
    requires NoColon(p) && NoColon(q) && a + ":" + p == b + ":" + q
    ensures a == b && p == q
  {
    var s := a + ":" + p;
    assert s[|a|] == ':' && s[|b|] == ':';
    assert forall i :: |a| < i < |s| ==> s[i] == p[i - |a| - 1];
    assert forall i :: |b| < i < |s| ==> s[i] == q[i - |b| - 1];
    assert |a| == |b|;
    assert s[..|a|] == a && s[..|b|] == b;
    assert s[|a| + 1..] == p && s[|b| + 1..] == q;
  }

  lemma Tail(p: string, a: string, b: string)
    requires p + a == p + b
    ensures a == b
  {
    assert (p + a)[|p|..] == a && (p + b)[|p|..] == b;
  }

  lemma SuffixDropped(p: string, a: string, b: string, q: string)
    requires p + a + q == p + b + q
    ensures a == b
  {
    assert (p + a + q)[|p|..|p| + |a|] == a && (p + b + q)[|p|..|p| + |b|] == b;
  }

  lemma SameConn(c: string, m: int, d: string, n: int)
    requires Render(ConnKey(c, m)) == Render(ConnKey(d, n))
    ensures c == d && m == n
  {
    PrintNoColon(m);
    PrintNoColon(n);
    assert Render(ConnKey(c, m)) == ("charger:" + c + ":conn") + ":" + Print(m);
    assert Render(ConnKey(d, n)) == ("charger:" + d + ":conn") + ":" + Print(n);
    LastColon("charger:" + c + ":conn", "charger:" + d + ":conn", Print(m), Print(n));
    PrintInjective(m, n);
    SuffixDropped("charger:", c, d, ":conn");
  }

  lemma ConnIsNotConnectors(c: string, m: int, d: string)
    ensures Render(ConnKey(c, m)) != Render(ConnectorsKey(d))
  {
    PrintNoColon(m);
    if Render(ConnKey(c, m)) == Render(ConnectorsKey(d)) {
      assert Render(ConnKey(c, m)) == ("charger:" + c + ":conn") + ":" + Print(m);
      assert Render(ConnectorsKey(d)) == ("charger:" + d) + ":" + "connectors";
      LastColon("charger:" + c + ":conn", "charger:" + d, Print(m), "connectors");
    }
  }

  lemma Heads(k: Key)
    ensures |Render(k)| > 0
    ensures k.TxKey? ==> Render(k)[0] == 't'
    ensures k.DedupKey? ==> Render(k)[0] == 'd'
    ensures !k.TxKey? && !k.DedupKey? ==>
              Render(k)[0] == 'c' && |Render(k)| >= 8 && Render(k)[7] == if k.ChargersKey? then 's' else ':'
  {
  }

  lemma OtherPrefix(a: Key, b: Key)
    requires a.ChargersKey? || a.TxKey? || a.DedupKey?
    ensures Render(a) == Render(b) <==> a == b
  {
    Heads(a);
    Heads(b);
    if a.TxKey? && b.TxKey? && Render(a) == Render(b) {
      Tail("tx:active:", a.charger, b.charger);
    } else if a.DedupKey? && b.DedupKey? && Render(a) == Render(b) {
      Tail("dedup:", a.messageId, b.messageId);
    }
  }

  lemma OneCharger(c: string, b: Key)
    requires b.ChargerKey? || b.ConnKey? || b.ConnectorsKey?
    ensures Render(ChargerKey(c)) == Render(b) <==> ChargerKey(c) == b || Clash(ChargerKey(c), b)
  {
    match b
    case ChargerKey(d) =>
      if Render(ChargerKey(c)) == Render(b) {
        Tail("charger:", c, d);
      }
    case ConnKey(d, n) =>
      assert Render(b) == "charger:" + (d + ":conn:" + Print(n));
      if Render(ChargerKey(c)) == Render(b) {
        Tail("charger:", c, d + ":conn:" + Print(n));
      }
    case ConnectorsKey(d) =>
      assert Render(b) == "charger:" + (d + ":connectors");
      if Render(ChargerKey(c)) == Render(b) {
        Tail("charger:", c, d + ":connectors");
      }
  }

  lemma ChargerPrefixIff(a: Key, b: Key)
    requires a.ChargerKey? || a.ConnKey? || a.ConnectorsKey?
    requires b.ChargerKey? || b.ConnKey? || b.ConnectorsKey?
    ensures Render(a) == Render(b) <==> a == b || Clash(a, b) || Clash(b, a)
  {
    match (a, b)
    case (ConnKey(c, m), ConnKey(d, n)) =>
      if Render(a) == Render(b) {
        SameConn(c, m, d, n);
      }
    case (ConnKey(c, m), ConnectorsKey(d)) => ConnIsNotConnectors(c, m, d);
    case (ConnectorsKey(d), ConnKey(c, m)) => ConnIsNotConnectors(c, m, d);
    case (ConnectorsKey(c), ConnectorsKey(d)) =>
      if Render(a) == Render(b) {
        SuffixDropped("charger:", c, d, ":connectors");
      }
    case (ChargerKey(c), _) => OneCharger(c, b);
    case (_, ChargerKey(c)) => OneCharger(c, a);
  }

  /** Two keys have the same text exactly when they are the same key or a charger's id has the form
      of another charger's connector key or connector set. Charger ids without ":conn:" and
      ":connectors" are therefore safe, and the structured keys stand for the texts. */
  lemma CollideIff(a: Key, b: Key)
    ensures Render(a) == Render(b) <==> a == b || Clash(a, b) || Clash(b, a)
  {
    if a.ChargersKey? || a.TxKey? || a.DedupKey? {
      OtherPrefix(a, b);
    } else if b.ChargersKey? || b.TxKey? || b.DedupKey? {
      OtherPrefix(b, a);
    } else {
      ChargerPrefixIff(a, b);
    }
  }

  /** The texts, for a charger called CP-1, its connector 12 and a message called a7. */
  lemma KeyTexts()
    ensures Render(ChargerKey("CP-1")) == "charger:CP-1"
    ensures Render(ConnKey("CP-1", 12)) == "charger:CP-1:conn:12"
    ensures Render(ConnectorsKey("CP-1")) == "charger:CP-1:connectors"
    ensures Render(ChargersKey) == "chargers"
    ensures Render(TxKey("CP-1")) == "tx:active:CP-1"
    ensures Render(DedupKey("a7")) == "dedup:a7"
  {
    assert PrintNat(1) == "1" && PrintNat(12) == PrintNat(1) + "2";
  }

  // ---------------------------------------------------------------- fields of a connector hash

  predicate OnConnector(f: Field) {
    f in {StatusF, ErrorCode, StatusTs, Info, MeterTs, EnergyWh, PowerW, SocPercent, VoltageV, CurrentA,
          ActiveTransaction, TxIdTag} || f.MeterOther?
  }

  function Name(f: Field): string {
    match f
    case StatusF => "status"
    case ErrorCode => "error_code"
    case StatusTs => "status_ts"
    case Info => "info"
    case MeterTs => "meter_ts"
    case EnergyWh => "energy_wh"
    case PowerW => "power_w"
    case SocPercent => "soc_percent"
    case VoltageV => "voltage_v"
    case CurrentA => "current_a"
    case MeterOther(m) => "meter_" + m
    case ActiveTransaction => "active_transaction"
    case TxIdTag => "tx_id_tag"
    case _ => ""
  }

  lemma MeterName(f: Field, m: string)
    requires OnConnector(f) && !f.MeterOther?
    ensures Name(f) == "meter_" + m <==> f == MeterTs && m == "ts"
  {
    var s, t := Name(f), "meter_" + m;
    if s == t {
      assert t[0] == 'm' && s[0] == 'm';
      assert f == MeterTs;
      assert Name(MeterTs) == "meter_" + "ts";
      Tail("meter_", m, "ts");
    }
  }

  /** The Redis name of the field a sample goes to. */
  lemma MeasurandNames(measurand: string)
    ensures OnConnector(Handler.FieldOf(measurand))
    ensures Name(Handler.FieldOf(measurand))
         == (if measurand == "Energy.Active.Import.Register" then "energy_wh"
             else if measurand == "Power.Active.Import" then "power_w"
             else if measurand == "SoC" then "soc_percent"
             else if measurand == "Voltage" then "voltage_v"
             else if measurand == "Current.Import" then "current_a"
             else "meter_" + measurand)
  {
    assert "meter_" + "ts" == "meter_ts";
    assert "SoC"[0] == 'S' && "Voltage"[0] == 'V' && |"Power.Active.Import"| == 19 && |"Current.Import"| == 14;
  }

  /** Two fields of a connector hash share a text only when one is meter_ts and the other the
      default field of the measurand "ts", which FieldOf maps to meter_ts for that reason. */
  lemma NamesCollideIff(f: Field, g: Field)
    requires OnConnector(f) && OnConnector(g)
    ensures Name(f) == Name(g) <==>
              f == g || (f == MeterTs && g == MeterOther("ts")) || (g == MeterTs && f == MeterOther("ts"))
  {
    var s, t := Name(f), Name(g);
    if f.MeterOther? && g.MeterOther? {
      if s == t {
        Tail("meter_", f.measurand, g.measurand);
      }
    } else if f.MeterOther? {
      MeterName(g, f.measurand);
    } else if g.MeterOther? {
      MeterName(f, g.measurand);
    } else {
      assert s == t ==> |s| == |t| && s[0] == t[0];
    }
  }
}
