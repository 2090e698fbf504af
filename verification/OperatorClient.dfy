/** ServerConnectionService.java: the sensor list parser and the reader thread's line dispatch. */
module OperatorClient {
  import Decimals
  import Packing
  import SensorManager
  import Protocol

  datatype SensorData = SensorData(id: string, ty: string, value: string, unit: string)

  // ---------- java.lang.String ----------

  /** One more character in front of a split text. */
  function Prepend(c: char, sep: char, p: seq<string>): seq<string>
    requires p != []
  {
    if c == sep then [[]] + p else [[c] + p[0]] + p[1..]
  }

  /** All pieces between separators, empty ones included. */
  function Pieces(s: string, sep: char): (p: seq<string>)
    ensures p != []
  {
    if s == [] then [[]]
    else
      Prepend(s[0], sep, Pieces(s[1..], sep))
  }

  function DropTrailingEmpty(p: seq<string>): seq<string> {
    if p != [] && p[|p| - 1] == [] then DropTrailingEmpty(p[..|p| - 1]) else p
  }

  /** String.split: without a match the string itself, otherwise trailing empty pieces are removed. */
  function Split(s: string, sep: char): seq<string> {
    var p := Pieces(s, sep);
    if |p| == 1 then p else DropTrailingEmpty(p)
  }

  function TrimLeft(s: string): string {
    if s != [] && s[0] <= ' ' then TrimLeft(s[1..]) else s
  }

  function TrimRight(s: string): string {
    if s != [] && s[|s| - 1] <= ' ' then TrimRight(s[..|s| - 1]) else s
  }

  function Trim(s: string): string {
    TrimRight(TrimLeft(s))
  }

  predicate StartsWith(s: string, prefix: string) {
    prefix <= s
  }

  /** BufferedReader.readLine on text that holds at least one line ending. */
  function ReadLine(s: string): (l: string)
    ensures l <= s
    ensures |l| < |s| ==> s[|l|] == '\r' || s[|l|] == '\n'
  {
    if s == [] || s[0] == '\r' || s[0] == '\n' then [] else [s[0]] + ReadLine(s[1..])
  }

  // ---------- parsing ----------

  function PartOr(p: seq<string>, i: nat, default: string): string {
    if |p| > i then Trim(p[i]) else default
  }

  function SensorOf(trimmed: string): SensorData {
    var p := Split(trimmed, ',');
    SensorData(PartOr(p, 0, "?"), PartOr(p, 1, "?"), PartOr(p, 2, "?"), PartOr(p, 3, ""))
  }

  function SensorsOf(parts: seq<string>): seq<SensorData> {
    if parts == [] then [] else
      var before := SensorsOf(parts[..|parts| - 1]);
      var trimmed := Trim(parts[|parts| - 1]);
      if trimmed == [] then before else before + [SensorOf(trimmed)]
  }

  function ParsedSensors(response: string): seq<SensorData> {
    if StartsWith(response, "SENSORS ") then SensorsOf(Split(response[8..], ';')) else []
  }

  method ParseSensors(response: string) returns (sensors: seq<SensorData>)
    ensures sensors == ParsedSensors(response)
  {
    sensors := [];
    if !StartsWith(response, "SENSORS ") {
      return;
    }
    var parts := Split(response[8..], ';');
    for i := 0 to |parts|
      invariant sensors == SensorsOf(parts[..i])
    {
      assert parts[..i + 1][..i] == parts[..i];
      var trimmed := Trim(parts[i]);
      if trimmed == [] {
        continue;
      }
      sensors := sensors + [SensorOf(trimmed)];
    }
    assert parts[..|parts|] == parts;
  }

  // ---------- the reader thread ----------

  /** What the cache shows after these lines: the latest list, or what was there before. */
  function CacheAfter(cache: seq<SensorData>, lines: seq<string>): seq<SensorData> {
    if lines == [] then cache
    else if StartsWith(lines[|lines| - 1], "SENSORS") then ParsedSensors(lines[|lines| - 1])
    else CacheAfter(cache, lines[..|lines| - 1])
  }

  function AlertLines(lines: seq<string>): seq<string> {
    if lines == [] then [] else
      var before := AlertLines(lines[..|lines| - 1]);
      var line := lines[|lines| - 1];
      if StartsWith(line, "ALERTA") && !StartsWith(line, "SENSORS") then before + [line] else before
  }

  class ServerConnection {
    var cachedSensors: seq<SensorData>
    var topicAlerts: seq<string>

    constructor ()
      ensures cachedSensors == [] && topicAlerts == []
    {
      cachedSensors := [];
      topicAlerts := [];
    }

    /** The loop over incoming lines. */
    method Reader(lines: seq<string>)
      modifies this
      ensures cachedSensors == CacheAfter(old(cachedSensors), lines)
      ensures topicAlerts == old(topicAlerts) + AlertLines(lines)
    {
      for i := 0 to |lines|
        invariant cachedSensors == CacheAfter(old(cachedSensors), lines[..i])
        invariant topicAlerts == old(topicAlerts) + AlertLines(lines[..i])
      {
        assert lines[..i + 1][..i] == lines[..i];
        var line := lines[i];
        if StartsWith(line, "SENSORS") {
          cachedSensors := ParseSensors(line);
        } else if StartsWith(line, "ALERTA") {
          topicAlerts := topicAlerts + [line];
        }
      }
      assert lines[..|lines|] == lines;
    }
  }

  // ---------- the round trip ----------

  /** Text that neither separator nor trimming can damage. */
  predicate Plain(s: string) {
    forall i :: 0 <= i < |s| ==> s[i] > ' ' && s[i] != ',' && s[i] != ';'
  }

  /** An active entry of such text, not longer than the server's item buffer. */
  predicate PlainEntry(e: SensorManager.Entry) {
    Plain(e.id) && Plain(e.ty) && Plain(e.unit) && |Body(e)| <= 126 && e.active
  }

  function Shown(e: SensorManager.Entry): SensorData {
    SensorData(e.id, e.ty, Decimals.Print(e.value, 2), e.unit)
  }

  function Body(e: SensorManager.Entry): string {
    e.id + "," + e.ty + "," + Decimals.Print(e.value, 2) + "," + e.unit
  }

  lemma {:induction false} PiecesOfPlain(s: string, sep: char)
    requires sep !in s
    ensures Pieces(s, sep) == [s]
  {
    if s != [] {
      assert forall c :: c in s[1..] ==> c in s;
      PiecesOfPlain(s[1..], sep);
      assert s[0] in s && [s[0]] + s[1..] == s;
    }
  }

  lemma PrependAppend(c: char, sep: char, p: seq<string>, q: seq<string>)
    requires p != []
    ensures Prepend(c, sep, p + q) == Prepend(c, sep, p) + q
  {
  }

  lemma {:induction false} PiecesOfJoined(a: string, sep: char, b: string)
    ensures Pieces(a + [sep] + b, sep) == Pieces(a, sep) + Pieces(b, sep)
  {
    var s := a + [sep] + b;
    if a == [] {
      assert s[1..] == b;
    } else {
      PiecesOfJoined(a[1..], sep, b);
      assert s[1..] == a[1..] + [sep] + b;
      PrependAppend(a[0], sep, Pieces(a[1..], sep), Pieces(b, sep));
    }
  }

  lemma TrimClean(s: string)
    requires forall i :: 0 <= i < |s| ==> s[i] > ' '
    ensures Trim(s) == s
  {
  }

  lemma PrintIsPlain(v: real)
    ensures Plain(Decimals.Print(v, 2)) && Decimals.Print(v, 2) != []
  {
    Decimals.PrintCharacters(v, 2);
  }

  lemma {:induction false} PlainHasNo(s: string)
    requires Plain(s)
    ensures ',' !in s && ';' !in s
  {
  }

  lemma FourPieces(a: string, b: string, c: string, d: string)
    requires ',' !in a && ',' !in b && ',' !in c && ',' !in d
    ensures Pieces(a + "," + b + "," + c + "," + d, ',') == [a, b, c, d]
  {
    PiecesOfPlain(a, ',');
    PiecesOfPlain(b, ',');
    PiecesOfPlain(c, ',');
    PiecesOfPlain(d, ',');
    PiecesOfJoined(a, ',', b);
    PiecesOfJoined(a + "," + b, ',', c);
    PiecesOfJoined(a + "," + b + "," + c, ',', d);
  }

  lemma SplitFour(a: string, b: string, c: string, d: string)
    requires ',' !in a && ',' !in b && ',' !in c && ',' !in d && c != []
    ensures Split(a + "," + b + "," + c + "," + d, ',') == if d == [] then [a, b, c] else [a, b, c, d]
  {
    FourPieces(a, b, c, d);
    var p := [a, b, c, d];
    assert p[..3] == [a, b, c];
    assert DropTrailingEmpty([a, b, c]) == [a, b, c];
    assert d == [] ==> DropTrailingEmpty(p) == DropTrailingEmpty(p[..3]);
  }

  /** Records with missing fields are filled up with question marks, and with no unit. */
  lemma ShortRecords(a: string, b: string, c: string)
    requires Plain(a) && Plain(b) && Plain(c) && a != [] && b != [] && c != []
    ensures SensorOf(a) == SensorData(a, "?", "?", "")
    ensures SensorOf(a + "," + b) == SensorData(a, b, "?", "")
    ensures SensorOf(a + "," + b + "," + c) == SensorData(a, b, c, "")
    ensures SensorOf(",") == SensorData("?", "?", "?", "")
  {
    ShortPieces(a, b, c);
    TrimClean(a);
    TrimClean(b);
    TrimClean(c);
    PiecesOfPlain([], ',');
    PiecesOfJoined([], ',', []);
    assert Pieces(",", ',') == [[], []];
    var p: seq<string> := [[], []];
    assert p[..1] == [[]] && p[..1][..0] == [];
    assert DropTrailingEmpty(p) == DropTrailingEmpty(p[..1]) == [];
  }

  lemma ShortPieces(a: string, b: string, c: string)
    requires Plain(a) && Plain(b) && Plain(c) && a != [] && b != [] && c != []
    ensures Split(a, ',') == [a] && Split(a + "," + b, ',') == [a, b]
    ensures Split(a + "," + b + "," + c, ',') == [a, b, c]
  {
    PlainHasNo(a);
    PlainHasNo(b);
    PlainHasNo(c);
    PiecesOfPlain(a, ',');
    PiecesOfPlain(b, ',');
    PiecesOfPlain(c, ',');
    PiecesOfJoined(a, ',', b);
    PiecesOfJoined(a + "," + b, ',', c);
  }

  /** One entry's text is read back field by field; an empty unit disappears and is restored. */
  lemma EntryRoundTrip(e: SensorManager.Entry)
    requires PlainEntry(e)
    ensures SensorOf(Body(e)) == Shown(e)
  {
    var v := Decimals.Print(e.value, 2);
    PrintIsPlain(e.value);
    PlainHasNo(e.id);
    PlainHasNo(e.ty);
    PlainHasNo(v);
    PlainHasNo(e.unit);
    SplitFour(e.id, e.ty, v, e.unit);
    TrimClean(e.id);
    TrimClean(e.ty);
    TrimClean(v);
    TrimClean(e.unit);
  }

  lemma BodyIsClean(e: SensorManager.Entry)
    requires PlainEntry(e)
    ensures ';' !in Body(e) && '\r' !in Body(e) && '\n' !in Body(e)
    ensures Trim(Body(e)) == Body(e) && Body(e) != []
    ensures SensorManager.Item(e) == Body(e) + ";"
  {
    PrintIsPlain(e.value);
    TrimClean(Body(e));
  }

  function Bodies(r: seq<SensorManager.Entry>): (b: seq<string>)
    ensures |b| == |r| && forall i :: 0 <= i < |r| ==> b[i] == Body(r[i])
  {
    seq(|r|, i requires 0 <= i < |r| => Body(r[i]))
  }

  function AllShown(r: seq<SensorManager.Entry>): (d: seq<SensorData>)
    ensures |d| == |r| && forall i :: 0 <= i < |r| ==> d[i] == Shown(r[i])
  {
    seq(|r|, i requires 0 <= i < |r| => Shown(r[i]))
  }

  /** Every body closed by a semicolon. */
  function Closed(bodies: seq<string>): string {
    if bodies == [] then [] else Closed(bodies[..|bodies| - 1]) + bodies[|bodies| - 1] + ";"
  }

  lemma {:induction false} ClosedPieces(bodies: seq<string>, x: string)
    requires forall i :: 0 <= i < |bodies| ==> ';' !in bodies[i]
    requires ';' !in x
    ensures Pieces(Closed(bodies) + x, ';') == bodies + [x]
  {
    PiecesOfPlain(x, ';');
    if bodies == [] {
      assert Closed(bodies) + x == x;
    } else {
      var n := |bodies| - 1;
      ClosedPieces(bodies[..n], bodies[n]);
      var a := Closed(bodies[..n]) + bodies[n];
      assert Closed(bodies) + x == a + ";" + x;
      PiecesOfJoined(a, ';', x);
      assert bodies[..n] + [bodies[n]] == bodies;
    }
  }

  /** The text is clean and reads as d. */
  predicate ReadsAs(text: string, d: SensorData) {
    Trim(text) == text != [] && SensorOf(text) == d
  }

  lemma SensorsStep(parts: seq<string>, text: string, d: SensorData)
    requires ReadsAs(text, d)
    ensures SensorsOf(parts + [text]) == SensorsOf(parts) + [d]
  {
    assert (parts + [text])[..|parts|] == parts;
  }

  /** Every entry is plain, one after the other. */
  predicate AllPlain(r: seq<SensorManager.Entry>) {
    r == [] || (AllPlain(r[..|r| - 1]) && PlainEntry(r[|r| - 1]))
  }

  lemma {:induction false} PlainOneByOne(r: seq<SensorManager.Entry>)
    requires forall i :: 0 <= i < |r| ==> PlainEntry(r[i])
    ensures AllPlain(r)
  {
    if r != [] {
      PlainOneByOne(r[..|r| - 1]);
    }
  }

  lemma LastBody(r: seq<SensorManager.Entry>)
    requires r != []
    ensures Bodies(r) == Bodies(r[..|r| - 1]) + [Body(r[|r| - 1])]
    ensures AllShown(r) == AllShown(r[..|r| - 1]) + [Shown(r[|r| - 1])]
  {
  }

  lemma {:induction false} BodiesParse(r: seq<SensorManager.Entry>)
    requires AllPlain(r)
    ensures SensorsOf(Bodies(r)) == AllShown(r)
  {
    if r != [] {
      var front, e := r[..|r| - 1], r[|r| - 1];
      BodiesParse(front);
      LastBody(r);
      BodyIsClean(e);
      EntryRoundTrip(e);
      SensorsStep(Bodies(front), Body(e), Shown(e));
    }
  }

  lemma {:induction false} ClosedIsClean(bodies: seq<string>, c: char)
    requires c != ';' && forall i :: 0 <= i < |bodies| ==> c !in bodies[i]
    ensures c !in Closed(bodies)
  {
    if bodies != [] {
      ClosedIsClean(bodies[..|bodies| - 1], c);
    }
  }

  lemma ListLast(r: seq<SensorManager.Entry>)
    requires r != [] && r[|r| - 1].active
    ensures Packing.Concat(SensorManager.Items(r))
         == Packing.Concat(SensorManager.Items(r[..|r| - 1])) + SensorManager.Item(r[|r| - 1])
  {
    var n := |r| - 1;
    SensorManager.ItemsStep(r, n);
    assert r[..n + 1] == r;
    Packing.ConcatStep(SensorManager.Items(r[..n]), SensorManager.Item(r[n]));
  }

  lemma ClosedStep(bodies: seq<string>, body: string)
    ensures Closed(bodies + [body]) == Closed(bodies) + (body + ";")
  {
    assert (bodies + [body])[..|bodies|] == bodies;
  }

  /** The packed list of a registry is its bodies, each closed by a semicolon. */
  lemma {:induction false} ListIsClosed(r: seq<SensorManager.Entry>)
    requires AllPlain(r)
    ensures Packing.Concat(SensorManager.Items(r)) == Closed(Bodies(r))
  {
    if r != [] {
      var front, e := r[..|r| - 1], r[|r| - 1];
      ListIsClosed(front);
      BodyIsClean(e);
      ListLast(r);
      LastBody(r);
      ClosedStep(Bodies(front), Body(e));
    }
  }

  lemma {:induction false} ReadLineOf(l: string, rest: string)
    requires '\r' !in l && '\n' !in l && (rest != [] ==> rest[0] == '\r' || rest[0] == '\n')
    ensures ReadLine(l + rest) == l
  {
    if l == [] {
      assert l + rest == rest;
    } else {
      assert forall c :: c in l[1..] ==> c in l;
      ReadLineOf(l[1..], rest);
      var s := l + rest;
      assert l[0] in l && s[0] == l[0] && s[1..] == l[1..] + rest;
      assert [l[0]] + l[1..] == l;
    }
  }

  lemma BodiesAreClean(r: seq<SensorManager.Entry>)
    requires forall i :: 0 <= i < |r| ==> PlainEntry(r[i])
    ensures forall i :: 0 <= i < |r| ==>
              ';' !in Body(r[i]) && '\r' !in Body(r[i]) && '\n' !in Body(r[i]) && Body(r[i]) != []
  {
    forall i | 0 <= i < |r|
      ensures ';' !in Body(r[i]) && '\r' !in Body(r[i]) && '\n' !in Body(r[i]) && Body(r[i]) != []
    {
      BodyIsClean(r[i]);
    }
  }

  lemma SplitClosed(bodies: seq<string>)
    requires forall i :: 0 <= i < |bodies| ==> ';' !in bodies[i] && bodies[i] != []
    ensures Split(Closed(bodies), ';') == if bodies == [] then [[]] else bodies
  {
    ClosedPieces(bodies, []);
    assert Closed(bodies) + [] == Closed(bodies);
    if bodies != [] {
      var p := bodies + [[]];
      assert p[..|bodies|] == bodies;
      assert DropTrailingEmpty(bodies) == bodies;
    }
  }

  lemma ParseClosed(r: seq<SensorManager.Entry>)
    requires forall i :: 0 <= i < |r| ==> ';' !in Body(r[i]) && Body(r[i]) != []
    requires SensorsOf(Bodies(r)) == AllShown(r)
    ensures SensorsOf(Split(Closed(Bodies(r)), ';')) == AllShown(r)
  {
    SplitClosed(Bodies(r));
    if r == [] {
      assert SensorsOf([[]]) == SensorsOf([[]][..0]) == [];
    }
  }

  lemma ReadFramed(list: string)
    requires '\r' !in list && '\n' !in list && |list| <= 502
    ensures ReadLine(Protocol.BuildSensorsList(list)) == "SENSORS " + list
  {
    var line, rest := "SENSORS " + list, if |list| <= 501 then "\r\n" else "\r";
    assert Protocol.BuildSensorsList(list) == line + rest;
    ReadLineOf(line, rest);
  }

  /** Every registered sensor arrives once, in registration order, with all its fields, whenever its line
      reaches the client with a line ending. */
  lemma SensorListRoundTrip(r: seq<SensorManager.Entry>)
    requires forall i :: 0 <= i < |r| ==> PlainEntry(r[i])
    requires |Packing.Concat(SensorManager.Items(r))| <= 502
    ensures ParsedSensors(ReadLine(Protocol.BuildSensorsList(Packing.Pack(SensorManager.Items(r), 1024)))) == AllShown(r)
  {
    var list := Packing.Concat(SensorManager.Items(r));
    Packing.PackKeepsAllIff(SensorManager.Items(r), 1024);
    PlainOneByOne(r);
    ListIsClosed(r);
    BodiesAreClean(r);
    BodiesParse(r);
    ClosedIsClean(Bodies(r), '\r');
    ClosedIsClean(Bodies(r), '\n');
    ReadFramed(list);
    ParseLine(list);
    ParseClosed(r);
  }

  lemma ParseLine(list: string)
    ensures ParsedSensors("SENSORS " + list) == SensorsOf(Split(list, ';'))
  {
    assert ("SENSORS " + list)[8..] == list;
  }
}
