/** What the answer to GET_ALERTS contains, field by field. */
module AlertListing {
  import opened AlertEngine
  import opened Packing
  import opened Protocol
  import opened Server
  import Decimals
  import O = OperatorClient
  import Handshakes
  import AlertRuns
  import MainRules
  import CStrings

  // ---------- what should be read ----------

  /** The six fields of an alert, as a reader of the list should find them. */
  function Fields(a: Alert): seq<string> {
    [a.alarm.id, a.alarm.ty, Decimals.Print(a.alarm.value, 2),
     if a.alarm.level == Warning then "WARNING" else "CRITICAL",
     Decimals.Integer(a.stamp), a.alarm.message]
  }

  /** The unresolved alerts that have an id, oldest first. */
  function AllFields(h: seq<Alert>): seq<seq<string>> {
    if h == [] then [] else
      var a := h[|h| - 1];
      var before := AllFields(h[..|h| - 1]);
      if !a.resolved && a.alarm.id != "" then before + [Fields(a)] else before
  }

  /** Characters that the list takes for an alert: its fields, five commas and a semicolon. */
  function RecordLength(a: Alert): nat {
    var f := Fields(a);
    |f[0]| + |f[1]| + |f[2]| + |f[3]| + |f[4]| + |f[5]| + 6
  }

  function TotalLength(h: seq<Alert>): nat {
    if h == [] then 0 else
      var a := h[|h| - 1];
      TotalLength(h[..|h| - 1]) + if !a.resolved && a.alarm.id != "" then RecordLength(a) else 0
  }

  /** Text that does not disturb the list. */
  predicate Separable(s: string) {
    ',' !in s && ';' !in s && '\r' !in s && '\n' !in s
  }

  predicate PlainAlert(a: Alert) {
    Separable(a.alarm.id) && Separable(a.alarm.ty) && Separable(a.alarm.message)
  }

  ghost predicate PlainAlerts(h: seq<Alert>) {
    forall i :: 0 <= i < |h| ==> PlainAlert(h[i])
  }

  // ---------- how it is read ----------

  function SplitFields(records: seq<string>): seq<seq<string>> {
    if records == [] then [] else SplitFields(records[..|records| - 1]) + [O.Pieces(records[|records| - 1], ',')]
  }

  /** The answer's line without its first word, cut at ';' and each record cut at ','. */
  function ReadAlerts(response: string): seq<seq<string>> {
    var line := O.ReadLine(response);
    if !("ALERTS " <= line) then [] else
      var records := O.Pieces(line[7..], ';');
      SplitFields(records[..|records| - 1])
  }

  // ---------- one record ----------

  function Body(a: Alert): string {
    var f := Fields(a);
    f[0] + "," + f[1] + "," + f[2] + "," + f[3] + "," + f[4] + "," + f[5]
  }

  lemma BodyLength(a: Alert)
    ensures |Body(a)| + 1 == RecordLength(a)
  {
  }

  lemma ItemIsBody(a: Alert)
    requires RecordLength(a) <= 511
    ensures Item(a) == Body(a) + ";"
  {
    BodyLength(a);
    var f := Fields(a);
    assert f[0] + "," + f[1] + "," + f[2] + "," + f[3] + "," + f[4] + "," + f[5] + ";" == Body(a) + ";";
  }

  lemma SixPieces(a: string, b: string, c: string, d: string, e: string, f: string)
    requires ',' !in a && ',' !in b && ',' !in c && ',' !in d && ',' !in e && ',' !in f
    ensures O.Pieces(a + "," + b + "," + c + "," + d + "," + e + "," + f, ',') == [a, b, c, d, e, f]
  {
    O.FourPieces(a, b, c, d);
    O.PiecesOfPlain(e, ',');
    O.PiecesOfPlain(f, ',');
    O.PiecesOfJoined(a + "," + b + "," + c + "," + d, ',', e);
    O.PiecesOfJoined(a + "," + b + "," + c + "," + d + "," + e, ',', f);
  }

  lemma PrintSeparable(v: real)
    ensures Separable(Decimals.Print(v, 2))
  {
    Decimals.PrintCharacters(v, 2);
  }

  lemma IntegerSeparable(n: int)
    ensures Separable(Decimals.Integer(n))
  {
    var digits := Decimals.Natural(if n < 0 then -n else n);
    assert forall c :: c in digits ==> Decimals.IsDigit(c);
  }

  lemma FieldsSeparable(a: Alert)
    requires PlainAlert(a)
    ensures forall k :: 0 <= k < 6 ==> Separable(Fields(a)[k])
  {
    PrintSeparable(a.alarm.value);
    IntegerSeparable(a.stamp);
    assert Separable("WARNING") && Separable("CRITICAL");
  }

  lemma BodyReads(a: Alert)
    requires PlainAlert(a)
    ensures O.Pieces(Body(a), ',') == Fields(a)
  {
    FieldsSeparable(a);
    var f := Fields(a);
    SixPieces(f[0], f[1], f[2], f[3], f[4], f[5]);
  }

  predicate Unbroken(s: string) {
    ';' !in s && '\r' !in s && '\n' !in s
  }

  lemma UnbrokenJoin(a: string, b: string)
    requires Unbroken(a) && Unbroken(b)
    ensures Unbroken(a + "," + b)
  {
  }

  lemma BodyUnbroken(a: Alert)
    requires PlainAlert(a)
    ensures Unbroken(Body(a))
  {
    FieldsSeparable(a);
    var f := Fields(a);
    assert forall k :: 0 <= k < 6 ==> Separable(f[k]) ==> Unbroken(f[k]);
    UnbrokenJoin(f[0], f[1]);
    UnbrokenJoin(f[0] + "," + f[1], f[2]);
    UnbrokenJoin(f[0] + "," + f[1] + "," + f[2], f[3]);
    UnbrokenJoin(f[0] + "," + f[1] + "," + f[2] + "," + f[3], f[4]);
    UnbrokenJoin(f[0] + "," + f[1] + "," + f[2] + "," + f[3] + "," + f[4], f[5]);
  }

  // ---------- the whole list ----------

  function Bodies(h: seq<Alert>): seq<string> {
    if h == [] then [] else
      var before := Bodies(h[..|h| - 1]);
      if Listed(h[|h| - 1]) then before + [Body(h[|h| - 1])] else before
  }

  lemma LastOf(h: seq<Alert>)
    requires h != []
    ensures var n := |h| - 1;
            Items(h) == if Listed(h[n]) then Items(h[..n]) + [Item(h[n])] else Items(h[..n])
  {
  }

  /** The packed list is the listed bodies, each closed by a semicolon. */
  lemma {:induction false} ListIsClosed(h: seq<Alert>)
    requires TotalLength(h) <= 511
    ensures Concat(Items(h)) == O.Closed(Bodies(h)) && |Concat(Items(h))| == TotalLength(h)
  {
    if h != [] {
      var front, a := h[..|h| - 1], h[|h| - 1];
      ListIsClosed(front);
      LastOf(h);
      if Listed(a) {
        ItemIsBody(a);
        BodyLength(a);
        ConcatStep(Items(front), Item(a));
        O.ClosedStep(Bodies(front), Body(a));
      }
    }
  }

  lemma {:induction false} BodiesUnbroken(h: seq<Alert>)
    requires PlainAlerts(h)
    ensures forall i :: 0 <= i < |Bodies(h)| ==> Unbroken(Bodies(h)[i])
  {
    if h != [] {
      BodiesUnbroken(h[..|h| - 1]);
      BodyUnbroken(h[|h| - 1]);
    }
  }

  lemma SplitOneMore(records: seq<string>, record: string)
    ensures SplitFields(records + [record]) == SplitFields(records) + [O.Pieces(record, ',')]
  {
    assert (records + [record])[..|records|] == records;
  }

  lemma {:induction false} BodiesRead(h: seq<Alert>)
    requires PlainAlerts(h)
    ensures SplitFields(Bodies(h)) == AllFields(h)
  {
    if h != [] {
      var front, a := h[..|h| - 1], h[|h| - 1];
      BodiesRead(front);
      BodyReads(a);
      SplitOneMore(Bodies(front), Body(a));
    }
  }

  lemma ReadAlertLine(list: string)
    requires '\r' !in list && '\n' !in list && |list| <= 502
    ensures O.ReadLine(BuildAlertsList(list)) == "ALERTS " + list
  {
    O.ReadLineOf("ALERTS " + list, "\r\n");
    assert BuildAlertsList(list) == ("ALERTS " + list) + "\r\n";
  }

  lemma ClosedUnbroken(bodies: seq<string>)
    requires forall i :: 0 <= i < |bodies| ==> Unbroken(bodies[i])
    ensures '\r' !in O.Closed(bodies) && '\n' !in O.Closed(bodies)
    ensures O.Pieces(O.Closed(bodies), ';') == bodies + [[]]
  {
    O.ClosedIsClean(bodies, '\r');
    O.ClosedIsClean(bodies, '\n');
    O.ClosedPieces(bodies, []);
    assert O.Closed(bodies) + [] == O.Closed(bodies);
  }

  lemma ReadLineIs(list: string, bodies: seq<string>)
    requires O.Pieces(list, ';') == bodies + [[]]
    ensures var line := "ALERTS " + list;
            && "ALERTS " <= line && line[7..] == list
            && (var records := O.Pieces(line[7..], ';'); records[..|records| - 1] == bodies)
  {
    var line := "ALERTS " + list;
    assert line[7..] == list;
    assert (bodies + [[]])[..|bodies|] == bodies;
  }

  /** The answer to GET_ALERTS reads as one record per unresolved visible alert, oldest first, each with
      its own six fields, whenever the list fits its line. */
  lemma AlertListRoundTrip(h: seq<Alert>)
    requires PlainAlerts(h) && TotalLength(h) <= 502
    ensures ReadAlerts(BuildAlertsList(Pack(Items(h), 1024))) == AllFields(h)
  {
    ListIsClosed(h);
    PackKeepsAllIff(Items(h), 1024);
    BodiesUnbroken(h);
    ClosedUnbroken(Bodies(h));
    ReadAlertLine(O.Closed(Bodies(h)));
    ReadLineIs(O.Closed(Bodies(h)), Bodies(h));
    BodiesRead(h);
  }

  // ---------- through the server ----------

  lemma AskAlerts(w: World, command: string, env: Env)
    requires Spells(command, "GET_ALERTS")
    ensures Answer(w, Words(FirstLine(command + "\r\n")), env)
         == Reply(w, BuildAlertsList(Pack(Items(Window(w.history)), 1024)))
  {
    AskedAlone(command);
    CommandTable(command);
    AlertsAnswered(w, [command], env);
  }

  lemma AlertsAnswered(w: World, ws: seq<string>, env: Env)
    requires ws != [] && CommandOf(ws[0]).GetAlerts?
    ensures Answer(w, ws, env) == Reply(w, BuildAlertsList(Pack(Items(Window(w.history)), 1024)))
  {
  }

  lemma AskedAlone(command: string)
    requires Spells(command, "GET_ALERTS")
    ensures Words(FirstLine(command + "\r\n")) == [command]
  {
    CommandNames();
    Handshakes.SpelledIsToken(command, "GET_ALERTS");
    Handshakes.OneWordLine(command, command + "\r\n");
  }

  /** GET_ALERTS from its bytes to the fields that a reader finds: the visible alerts, and no change. */
  method GetAlertList(server: Handler, command: string, env: Env) returns (records: seq<seq<string>>)
    requires server.Valid() && Spells(command, "GET_ALERTS")
    requires PlainAlerts(Window(server.View().history)) && TotalLength(Window(server.View().history)) <= 502
    modifies server.sensors, server.sensors.sensors, server.alerts, server.alerts.thresholds, server.alerts.alerts
    modifies server.msg, server.msg.raw, server.msg.args
    ensures server.Valid() && server.View() == old(server.View())
    ensures records == AllFields(Window(server.View().history))
  {
    var line := command + "\r\n";
    AskAlerts(server.View(), command, env);
    AlertListRoundTrip(Window(server.View().history));
    assert line[..|line|] == line;
    var response, alert, login := server.Handle(line, |line|, env);
    records := ReadAlerts(response);
  }

  // ---------- readings under the rules of main ----------

  /** The record that rule `i` of main leaves in the list for a temperature. */
  function TemperatureRecord(id: string, value: real, level: string, limit: string, stamp: int): seq<string> {
    [id, "temperature", Decimals.Print(value, 2), level, Decimals.Integer(stamp),
     "temperature" + ": " + Decimals.Print(value, 2) + " " + ">" + " " + limit]
  }

  lemma LimitTexts()
    ensures Decimals.Print(30.0, 2) == "30.00" && Decimals.Print(50.0, 2) == "50.00"
  {
    Thirty();
    Fifty();
  }

  lemma FiveCharacters(d: char)
    ensures [d] + "0" + "." + "00" == [d, '0', '.', '0', '0']
  {
  }

  lemma Thirty()
    ensures Decimals.Print(30.0, 2) == "30.00"
  {
    TensText(3);
    FiveCharacters('3');
    assert (10 * 3) as real == 30.0 && Decimals.Digit(3) == '3';
    assert "30.00" == ['3', '0', '.', '0', '0'];
  }

  lemma Fifty()
    ensures Decimals.Print(50.0, 2) == "50.00"
  {
    TensText(5);
    FiveCharacters('5');
    assert (10 * 5) as real == 50.0 && Decimals.Digit(5) == '5';
    assert "50.00" == ['5', '0', '.', '0', '0'];
  }

  lemma ZeroCents()
    ensures Decimals.Pow10(2) == 100 && Decimals.Padded(0, 2) == "00"
  {
    assert Decimals.Pow10(1) == 10;
    assert Decimals.Padded(0, 1) == "0";
  }

  lemma TensNatural(d: nat)
    requires 1 <= d < 10
    ensures Decimals.Natural(10 * d) == [Decimals.Digit(d)] + "0"
  {
    assert Decimals.Natural(d) == [Decimals.Digit(d)];
  }

  lemma TensParts(d: nat)
    ensures Decimals.Quotient(1000 * d, 100) == 10 * d && Decimals.Remainder(1000 * d, 100) == 0
  {
  }

  lemma TensFixed(d: nat)
    requires 1 <= d < 10
    ensures Decimals.FixedPoint(1000 * d, 2) == [Decimals.Digit(d)] + "0" + "." + "00"
  {
    ZeroCents();
    TensNatural(d);
    TensParts(d);
  }

  /** A multiple of ten below a hundred. */
  lemma TensText(d: nat)
    requires 1 <= d < 10
    ensures Decimals.Print((10 * d) as real, 2) == [Decimals.Digit(d)] + "0" + "." + "00"
  {
    ZeroCents();
    assert Decimals.Units(1000 * d, 2) == (10 * d) as real;
    Decimals.PrintUnits(1000 * d, 2);
    TensFixed(d);
  }

  lemma OnlyTwo(at: seq<nat>)
    requires Increasing(at) && |at| == 2 && at[0] < 2 && at[1] < 2
    ensures at == [0, 1]
  {
  }

  lemma TemperatureRule(i: nat, value: real)
    requires i < 5 && Breaks(MainRules.RULES[i], "temperature", value)
    ensures i == 0 || (i == 1 && value > 50.0)
  {
    MainRules.RuleBreaks("temperature", value);
    MainRules.KindsDiffer();
    assert CStrings.Take("temperature", 15) == "temperature";
  }

  /** Which rules of main a temperature breaks. */
  lemma TemperatureRules(value: real)
    requires value > 30.0
    ensures AlertRuns.FiringAt(MainRules.RULES, "temperature", value) == if value > 50.0 then [0, 1] else [0]
  {
    var at := AlertRuns.FiringAt(MainRules.RULES, "temperature", value);
    AlertRuns.BlockIsFilter(MainRules.RULES, "", "temperature", value);
    MainRules.MainAlarms("", "temperature", value);
    assert CStrings.Take("temperature", 15) == "temperature";
    assert |at| == if value > 50.0 then 2 else 1;
    TemperatureRule(at[0], value);
    if value > 50.0 {
      TemperatureRule(at[1], value);
      OnlyTwo(at);
    }
  }

  lemma AlarmRecord(alarm: Alarm, i: nat, id: string, value: real, stamp: int)
    requires i < 2 && |id| <= 31 && |Decimals.Print(value, 2)| <= 200
    requires Reports(alarm, MainRules.RULES[i], id, "temperature", value)
    ensures Fields(Alert(alarm, stamp, false)) ==
            TemperatureRecord(id, value, if i == 0 then "WARNING" else "CRITICAL",
                              if i == 0 then "30.00" else "50.00", stamp)
  {
    LimitTexts();
    var text := "temperature" + ": " + Decimals.Print(value, 2) + " " + ">" + " " + (if i == 0 then "30.00" else "50.00");
    assert |text| < 255;
    assert CStrings.Take("temperature", 15) == "temperature";
  }

  /** What the alerts of one temperature reading say when they are listed: nothing up to 30 degrees, a
      warning above 30, and a warning and then a critical alert above 50. */
  lemma TemperatureListed(id: string, value: real, clock: int -> int)
    requires 1 <= |id| <= 31 && |Decimals.Print(value, 2)| <= 200
    ensures AllFields(Stamped(Block(MainRules.RULES, id, "temperature", value), clock)) ==
            if value > 50.0 then [TemperatureRecord(id, value, "WARNING", "30.00", clock(0)),
                                  TemperatureRecord(id, value, "CRITICAL", "50.00", clock(1))]
            else if value > 30.0 then [TemperatureRecord(id, value, "WARNING", "30.00", clock(0))]
            else []
  {
    var block := Block(MainRules.RULES, id, "temperature", value);
    AlertRuns.BlockIsFilter(MainRules.RULES, id, "temperature", value);
    MainRules.MainAlarms(id, "temperature", value);
    assert CStrings.Take("temperature", 15) == "temperature";
    var h := Stamped(block, clock);
    if value > 30.0 {
      TemperatureRules(value);
      AlarmRecord(block[0], 0, id, value, clock(0));
      OneListed(h[..1]);
      if value > 50.0 {
        AlarmRecord(block[1], 1, id, value, clock(1));
        TwoListed(h);
      } else {
        assert h[..1] == h;
      }
    }
  }

  lemma OneListed(h: seq<Alert>)
    requires |h| == 1 && !h[0].resolved && h[0].alarm.id != ""
    ensures AllFields(h) == [Fields(h[0])]
  {
    assert h[..0] == [];
  }

  lemma TwoListed(h: seq<Alert>)
    requires |h| == 2 && !h[0].resolved && h[0].alarm.id != "" && !h[1].resolved && h[1].alarm.id != ""
    ensures AllFields(h) == [Fields(h[0]), Fields(h[1])]
  {
    OneListed(h[..1]);
  }
}
