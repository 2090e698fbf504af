/** sensor_base.py: message texts and response parsing, and the way of a reading through the system. */
module SensorClient {
  import opened Decimals
  import opened Protocol
  import opened SensorManager
  import OperatorClient

  // ---------- messages ----------

  predicate IdCharacter(c: char) {
    'A' <= c <= 'Z' || 'a' <= c <= 'z' || '0' <= c <= '9' || c == '_' || c == '-'
  }

  /** The identifiers that ID_PATTERN is meant to describe: without the final newline that a match up to
      `$` lets through. */
  predicate ValidId(id: string) {
    1 <= |id| <= 32 && forall i :: 0 <= i < |id| ==> IdCharacter(id[i])
  }

  function UnitFor(ty: string): string {
    if ty == "temperature" then "C"
    else if ty == "energy" then "W"
    else if ty == "vibration" then "mm/s"
    else "U"
  }

  function RegisterWords(id: string, ty: string): seq<string> {
    ["REGISTER_SENSOR", id, ty]
  }

  function MeasurementWords(id: string, value: real, unit: string, timestamp: int): seq<string> {
    ["MEASUREMENT", id, Print(value, 4), unit, Integer(timestamp)]
  }

  function RegisterMessage(id: string, ty: string): string {
    "REGISTER_SENSOR " + id + " " + ty + "\r\n"
  }

  function MeasurementMessage(id: string, value: real, unit: string, timestamp: int): string {
    "MEASUREMENT " + id + " " + Print(value, 4) + " " + unit + " " + Integer(timestamp) + "\r\n"
  }

  /** A word that survives the line protocol. */
  predicate Token(w: string) {
    w != [] && forall i :: 0 <= i < |w| ==> w[i] > ' '
  }

  lemma TokensParse(ws: seq<string>, text: string)
    requires forall k :: 0 <= k < |ws| ==> Token(ws[k])
    requires text == Join(ws) + "\r\n"
    ensures Words(FirstLine(text)) == ws
  {
    JoinIsOneLine(ws);
    FirstLineOf(Join(ws), "\r\n");
    forall k | 0 <= k < |ws| ensures Word(ws[k]) {
      assert Token(ws[k]);
    }
    WordsOfJoin(ws);
  }

  lemma {:induction false} JoinIsOneLine(ws: seq<string>)
    requires forall k :: 0 <= k < |ws| ==> Token(ws[k])
    ensures forall i :: 0 <= i < |Join(ws)| ==> !EndsLine(Join(ws)[i])
  {
    if ws != [] {
      assert Token(ws[0]);
      JoinIsOneLine(ws[1..]);
    }
  }

  lemma PrintIsToken(value: real)
    ensures Token(Print(value, 4))
  {
    PrintCharacters(value, 4);
  }

  lemma JoinFive(a: string, b: string, c: string, d: string, e: string)
    ensures Join([a, b, c, d, e]) == a + " " + b + " " + c + " " + d + " " + e
  {
    assert [a, b, c, d, e][1..] == [b, c, d, e];
    assert [b, c, d, e][1..] == [c, d, e];
    assert [c, d, e][1..] == [d, e];
    assert [d, e][1..] == [e];
    assert Join([d, e]) == d + " " + e;
    assert Join([c, d, e]) == c + " " + d + " " + e;
    assert Join([b, c, d, e]) == b + " " + c + " " + d + " " + e;
  }

  lemma MeasurementMessageIsJoined(id: string, value: real, unit: string, timestamp: int)
    ensures MeasurementMessage(id, value, unit, timestamp) == Join(MeasurementWords(id, value, unit, timestamp)) + "\r\n"
  {
    JoinFive("MEASUREMENT", id, Print(value, 4), unit, Integer(timestamp));
    FiveParts(id, Print(value, 4), unit, Integer(timestamp));
  }

  lemma FiveParts(id: string, value: string, unit: string, timestamp: string)
    ensures "MEASUREMENT " + id + " " + value + " " + unit + " " + timestamp + "\r\n"
         == "MEASUREMENT" + " " + id + " " + value + " " + unit + " " + timestamp + "\r\n"
  {
    assert "MEASUREMENT " + id == "MEASUREMENT" + " " + id;
  }

  lemma MeasurementWordsAreTokens(id: string, value: real, unit: string, timestamp: int)
    requires Token(id) && Token(unit)
    ensures forall k :: 0 <= k < 5 ==> Token(MeasurementWords(id, value, unit, timestamp)[k])
  {
    PrintIsToken(value);
    assert Token("MEASUREMENT");
    assert Token(Integer(timestamp));
  }

  /** The server tokenizes a measurement message into exactly the parts it was made of. */
  lemma MeasurementMessageParses(id: string, value: real, unit: string, timestamp: int)
    requires Token(id) && Token(unit)
    ensures Words(FirstLine(MeasurementMessage(id, value, unit, timestamp))) == MeasurementWords(id, value, unit, timestamp)
  {
    MeasurementWordsAreTokens(id, value, unit, timestamp);
    MeasurementMessageIsJoined(id, value, unit, timestamp);
    TokensParse(MeasurementWords(id, value, unit, timestamp), MeasurementMessage(id, value, unit, timestamp));
  }

  lemma RegisterMessageParses(id: string, ty: string)
    requires Token(id) && Token(ty)
    ensures Words(FirstLine(RegisterMessage(id, ty))) == RegisterWords(id, ty)
  {
    var ws := RegisterWords(id, ty);
    assert Token("REGISTER_SENSOR");
    assert ws[1..] == [id, ty] && ws[1..][1..] == [ty];
    assert Join(ws[1..]) == id + " " + ty;
    var text := RegisterMessage(id, ty);
    assert text == Join(ws) + "\r\n";
    TokensParse(ws, text);
  }

  lemma MessageCommands()
    ensures CommandOf("MEASUREMENT") == Measurement && CommandOf("REGISTER_SENSOR") == RegisterSensor
  {
    assert SameIgnoringCase("MEASUREMENT", "MEASUREMENT");
    assert SameIgnoringCase("REGISTER_SENSOR", "REGISTER_SENSOR");
  }

  /** What a sensor script puts into its messages survives the line protocol and the list format. */
  lemma SensorTextIsSafe(id: string, ty: string)
    requires ValidId(id)
    ensures Token(id) && OperatorClient.Plain(id)
    ensures Token(UnitFor(ty)) && OperatorClient.Plain(UnitFor(ty)) && |UnitFor(ty)| <= 15
  {
  }

  // ---------- from the sensor to the operator ----------

  /** The registry after the server handled a measurement line of a sensor. */
  function AfterMessage(r: seq<Entry>, text: string, now: int): seq<Entry> {
    var ws := Words(FirstLine(text));
    if |ws| >= 4 && CommandOf(ws[0]) == Measurement then AfterMeasure(r, ws[1], Atof(ws[2]), ws[3], now) else r
  }

  /** A reading of h hundredths, sent with four decimals, is stored exactly and listed with the same
      two decimals, which read back as the same value. */
  lemma ReadingReachesOperator(r: seq<Entry>, id: string, h: int, unit: string, timestamp: int, now: int)
    requires Token(id) && Token(unit) && |unit| <= 15 && Has(r, id)
    ensures var q := AfterMessage(r, MeasurementMessage(id, Units(h, 2), unit, timestamp), now);
            var i := Index(r, id);
            && |q| == |r|
            && q[i].id == id && q[i].value == Units(h, 2) && q[i].unit == unit
            && OperatorClient.Shown(q[i]).value == Print(Units(h, 2), 2)
            && Atof(OperatorClient.Shown(q[i]).value) == Units(h, 2)
  {
    MeasurementMessageParses(id, Units(h, 2), unit, timestamp);
    MessageCommands();
    HundredthsAsUnits(h);
    ReadPrinted(100 * h, 4);
    ReadPrinted(h, 2);
  }

  // ---------- responses ----------

  predicate Blank(c: char) {
    c == ' ' || '\t' <= c <= '\r' || '\U{1c}' <= c <= '\U{1f}' || c == '\U{85}' || c == '\U{a0}'
  }

  function StripLeft(s: string): string {
    if s != [] && Blank(s[0]) then StripLeft(s[1..]) else s
  }

  function StripRight(s: string): string {
    if s != [] && Blank(s[|s| - 1]) then StripRight(s[..|s| - 1]) else s
  }

  function WordEnd(s: string): (n: nat)
    ensures n <= |s|
    ensures s != [] && !Blank(s[0]) ==> n > 0
  {
    if s == [] || Blank(s[0]) then 0 else 1 + WordEnd(s[1..])
  }

  /** str.split(None, max). */
  function SplitBlank(s: string, max: nat): seq<string>
    decreases max
  {
    var t := StripLeft(s);
    if t == [] then []
    else if max == 0 then [t]
    else [t[..WordEnd(t)]] + SplitBlank(t[WordEnd(t)..], max - 1)
  }

  datatype Code = NoCode | Code(code: string)

  datatype Reply = Reply(status: string, code: Code, detail: string)

  function UpperAll(s: string): (r: string)
    ensures |r| == |s|
  {
    seq(|s|, i requires 0 <= i < |s| => Upper(s[i]))
  }

  function ParseResponse(response: string): Reply {
    var parts := SplitBlank(response, 2);
    if parts == [] then Reply("UNKNOWN", NoCode, response)
    else
      var status := UpperAll(parts[0]);
      if status == "OK" then Reply("OK", NoCode, if |parts| > 1 then parts[1] else "")
      else if status == "ERROR" then
        Reply("ERROR", Code(if |parts| > 1 then parts[1] else "500"), if |parts| > 2 then parts[2] else "Unknown error")
      else Reply(status, NoCode, response)
  }

  /** What _recv hands over. */
  function Received(data: string): string {
    StripRight(StripLeft(data))
  }

  predicate Solid(w: string) {
    w != [] && forall i :: 0 <= i < |w| ==> !Blank(w[i])
  }

  predicate Trimmed(s: string) {
    s != [] && !Blank(s[0]) && !Blank(s[|s| - 1])
  }

  lemma {:induction false} WordEndOf(w: string, rest: string)
    requires forall i :: 0 <= i < |w| ==> !Blank(w[i])
    requires rest == [] || Blank(rest[0])
    ensures WordEnd(w + rest) == |w|
  {
    if w == [] {
      assert w + rest == rest;
    } else {
      WordEndOf(w[1..], rest);
      assert (w + rest)[1..] == w[1..] + rest;
    }
  }

  lemma SplitFirst(w: string, rest: string, max: nat)
    requires Solid(w) && (rest == [] || Blank(rest[0])) && max > 0
    ensures SplitBlank(w + rest, max) == [w] + SplitBlank(rest, max - 1)
  {
    var s := w + rest;
    assert s[0] == w[0];
    assert StripLeft(s) == s;
    WordEndOf(w, rest);
    assert s[..|w|] == w && s[|w|..] == rest;
  }

  lemma ReceivedLine(s: string)
    requires Trimmed(s)
    ensures Received(s + "\r\n") == s
  {
    var t := s + "\r\n";
    assert t[0] == s[0];
    assert StripLeft(t) == t;
    assert t[..|t| - 1] == s + "\r" && (s + "\r")[..|s|] == s;
    assert StripRight(t) == StripRight(s + "\r") == StripRight(s);
  }

  lemma StripOneSpace(s: string)
    requires s != [] && !Blank(s[0])
    ensures StripLeft(" " + s) == s
  {
    assert (" " + s)[1..] == s;
  }

  lemma OkParts(details: string)
    requires Solid(details)
    ensures SplitBlank("OK " + details, 2) == ["OK", details]
  {
    assert "OK " + details == "OK" + (" " + details);
    SplitFirst("OK", " " + details, 2);
    StripOneSpace(details);
    assert details + [] == details;
    SplitFirst(details, [], 1);
    assert SplitBlank(" " + details, 1) == SplitBlank(details, 1);
  }

  /** A sensor recognises every OK response that fits the response buffer. */
  lemma OkUnderstood(details: string)
    requires Solid(details) && |details| <= 506
    ensures ParseResponse(Received(BuildOk(details))) == Reply("OK", NoCode, details)
  {
    ReceivedLine("OK " + details);
    OkParts(details);
    assert UpperAll("OK") == "OK";
  }

  lemma SplitRest(code: string, desc: string)
    requires Solid(code) && Trimmed(desc)
    ensures SplitBlank(" " + (code + (" " + desc)), 1) == [code, desc]
  {
    var rest := code + (" " + desc);
    StripOneSpace(rest);
    SplitFirst(code, " " + desc, 1);
    StripOneSpace(desc);
    assert SplitBlank(" " + rest, 1) == SplitBlank(rest, 1);
  }

  lemma ErrorParts(code: string, desc: string)
    requires Solid(code) && Trimmed(desc)
    ensures SplitBlank("ERROR " + code + " " + desc, 2) == ["ERROR", code, desc]
  {
    var rest := " " + (code + (" " + desc));
    assert "ERROR " + code + " " + desc == "ERROR" + rest;
    SplitFirst("ERROR", rest, 2);
    SplitRest(code, desc);
  }

  /** A sensor recovers code and description of every ERROR response that fits. */
  lemma ErrorUnderstood(code: string, desc: string)
    requires Solid(code) && Trimmed(desc) && |code| + |desc| <= 502
    ensures ParseResponse(Received(BuildError(code, desc))) == Reply("ERROR", Code(code), desc)
  {
    var text := "ERROR " + code + " " + desc;
    assert text[0] == 'E' && text[|text| - 1] == desc[|desc| - 1];
    ReceivedLine(text);
    ErrorParts(code, desc);
    assert UpperAll("ERROR") == "ERROR";
  }

  lemma OneWord(w: string)
    requires Solid(w)
    ensures SplitBlank(w, 1) == [w] && SplitBlank(w, 2) == [w]
  {
    assert w + [] == w;
    SplitFirst(w, [], 1);
    SplitFirst(w, [], 2);
  }

  lemma ErrorCodeOnly(code: string)
    requires Solid(code)
    ensures SplitBlank("ERROR " + code, 2) == ["ERROR", code]
  {
    OneWord(code);
    assert "ERROR " + code == "ERROR" + (" " + code);
    SplitFirst("ERROR", " " + code, 2);
    StripOneSpace(code);
    assert SplitBlank(" " + code, 1) == SplitBlank(code, 1);
  }

  /** What a sensor makes of replies that are cut short. */
  lemma ShortReplies(code: string)
    requires Solid(code)
    ensures ParseResponse([]) == Reply("UNKNOWN", NoCode, [])
    ensures ParseResponse("OK") == Reply("OK", NoCode, "")
    ensures ParseResponse("ERROR") == Reply("ERROR", Code("500"), "Unknown error")
    ensures ParseResponse("ERROR " + code) == Reply("ERROR", Code(code), "Unknown error")
  {
    OneWord("OK");
    OneWord("ERROR");
    ErrorCodeOnly(code);
    assert UpperAll("OK") == "OK" && UpperAll("ERROR") == "ERROR";
  }

  /** A line that is no reply, such as an alert, is handed over with its first word in upper case. */
  lemma OtherLines(w: string, rest: string)
    requires Solid(w) && (rest == [] || Blank(rest[0]))
    requires UpperAll(w) != "OK" && UpperAll(w) != "ERROR"
    ensures ParseResponse(w + rest) == Reply(UpperAll(w), NoCode, w + rest)
  {
    SplitFirst(w, rest, 2);
  }
}
