/** The lines that a client reads from the bytes of its connection. */
module ClientLines {
  import opened Handlers
  import opened SafeRuns
  import opened Streams
  import Decimals
  import O = OperatorClient
  import A = AlertEngine

  predicate NoEnd(s: string) {
    forall i :: 0 <= i < |s| ==> s[i] != '\r' && s[i] != '\n'
  }

  /** The length of the line ending at position n: CR LF counts as one. */
  function EndLength(s: string, n: nat): (k: nat)
    requires n < |s|
    ensures 1 <= k <= |s| - n
  {
    if s[n] == '\r' && n + 1 < |s| && s[n + 1] == '\n' then 2 else 1
  }

  /** The complete lines of a text, as a line reader hands them out one after the other. */
  function Lines(s: string): seq<string>
    decreases |s|
  {
    var l := O.ReadLine(s);
    if |l| == |s| then [] else [l] + Lines(s[|l| + EndLength(s, |l|)..])
  }

  predicate OneLine(text: string) {
    |text| >= 2 && text[|text| - 2..] == "\r\n" && NoEnd(text[..|text| - 2])
  }

  function Content(text: string): string
    requires OneLine(text)
  {
    text[..|text| - 2]
  }

  lemma ReadsTo(l: string, rest: string)
    requires NoEnd(l) && rest != [] && (rest[0] == '\r' || rest[0] == '\n')
    ensures O.ReadLine(l + rest) == l
  {
    O.ReadLineOf(l, rest);
  }

  /** Text that ends no line is joined with what follows. */
  lemma LineJoins(a: string, text: string, rest: string)
    requires NoEnd(a) && OneLine(text)
    ensures Lines(a + text + rest) == [a + Content(text)] + Lines(rest)
  {
    var l := a + Content(text);
    var s := a + text + rest;
    assert s == l + ("\r\n" + rest);
    ReadsTo(l, "\r\n" + rest);
    assert s[|l|] == '\r' && s[|l| + 1] == '\n';
    assert s[|l| + 2..] == rest;
  }

  lemma LineFirst(text: string, rest: string)
    requires OneLine(text)
    ensures Lines(text + rest) == [Content(text)] + Lines(rest)
  {
    var l, s := Content(text), text + rest;
    assert s == l + ("\r\n" + rest);
    ReadsTo(l, "\r\n" + rest);
    assert s[|l|] == '\r' && s[|l| + 1] == '\n' && s[|l| + 2..] == rest;
  }

  /** The chunk was sent to its end, which is its only line ending. */
  predicate Complete(c: Chunk) {
    c.sent == |c.text| && OneLine(c.text)
  }

  function Contents(chunks: seq<Chunk>): seq<string>
    requires forall k :: 0 <= k < |chunks| ==> Complete(chunks[k])
  {
    if chunks == [] then [] else
      var c := chunks[|chunks| - 1];
      assert Complete(c);
      Contents(chunks[..|chunks| - 1]) + [Content(c.text)]
  }

  lemma RegroupedText(a: string, b: string, c: string)
    ensures a + b + c == a + (b + c)
  {
  }

  lemma FlattenLast(chunks: seq<Chunk>, rest: string)
    requires Fits(chunks) && chunks != [] && Complete(chunks[|chunks| - 1])
    ensures var n := |chunks| - 1; Flatten(chunks) + rest == Flatten(chunks[..n]) + (chunks[n].text + rest)
  {
    var n := |chunks| - 1;
    assert chunks[n].text[..chunks[n].sent] == chunks[n].text;
    assert Flatten(chunks) == Flatten(chunks[..n]) + chunks[n].text;
    RegroupedText(Flatten(chunks[..n]), chunks[n].text, rest);
  }

  lemma Regrouped(before: seq<string>, line: string, lines: seq<string>)
    ensures before + [line] + lines == before + ([line] + lines)
  {
  }

  lemma ContentsLast(chunks: seq<Chunk>, lines: seq<string>)
    requires chunks != [] && forall k :: 0 <= k < |chunks| ==> Complete(chunks[k])
    ensures var n := |chunks| - 1;
            && (forall k :: 0 <= k < n ==> Complete(chunks[..n][k])) && Complete(chunks[n])
            && Contents(chunks) + lines == Contents(chunks[..n]) + ([Content(chunks[n].text)] + lines)
  {
    var n := |chunks| - 1;
    assert Complete(chunks[n]);
    Regrouped(Contents(chunks[..n]), Content(chunks[n].text), lines);
  }

  lemma {:induction false} LinesOfChunks(chunks: seq<Chunk>, rest: string)
    requires Fits(chunks) && forall k :: 0 <= k < |chunks| ==> Complete(chunks[k])
    ensures Lines(Flatten(chunks) + rest) == Contents(chunks) + Lines(rest)
  {
    if chunks == [] {
      assert Flatten(chunks) + rest == rest;
    } else {
      var n := |chunks| - 1;
      ContentsLast(chunks, Lines(rest));
      FlattenLast(chunks, rest);
      LinesOfChunks(chunks[..n], chunks[n].text + rest);
      LineFirst(chunks[n].text, rest);
    }
  }

  /** Under every interleaving of a safe run: when every chunk of a connection was sent to its end and is
      one line, the lines that the client reads are the responses and alerts, one each and in order. */
  lemma ClientReadsLines(thresholds: seq<A.Threshold>, moves: seq<Move>, t: nat)
    requires SafeRun(thresholds, moves) && t < |Reached(thresholds, moves).conns|
    requires var chunks := Reached(thresholds, moves).conns[t].chunks;
             forall k :: 0 <= k < |chunks| ==> Complete(chunks[k])
    ensures var c := Reached(thresholds, moves).conns[t]; Lines(c.wire) == Contents(c.chunks)
  {
    StreamFraming(thresholds, moves, t);
    var c := Reached(thresholds, moves).conns[t];
    LinesOfChunks(c.chunks, "");
    assert c.wire + "" == c.wire && Lines("") == [];
  }

  // ---------- when an alert is a line ----------

  function AlertBody(id: string, ty: string, value: real, unit: string): string {
    "ALERTA " + id + "," + ty + "," + Decimals.Print(value, 2) + "," + unit
  }

  /** An alert carries its whole text and its line ending exactly when the text has at most 253
      characters. */
  lemma AlertWholeIff(id: string, ty: string, value: real, unit: string)
    ensures var body := AlertBody(id, ty, value, unit);
            AlertText(id, ty, value, unit) == body + "\r\n" <==> |body| <= 253
  {
    var body := AlertBody(id, ty, value, unit);
    assert "ALERTA " + id + "," + ty + "," + Decimals.Print(value, 2) + "," + unit + "\r\n" == body + "\r\n";
    assert |body + "\r\n"| == |body| + 2;
  }

  /** Such an alert is one line when its parts contain no line ending, as words of a message do. */
  lemma AlertIsLineIff(id: string, ty: string, value: real, unit: string)
    requires NoEnd(id) && NoEnd(ty) && NoEnd(unit)
    ensures OneLine(AlertText(id, ty, value, unit)) <==> |AlertBody(id, ty, value, unit)| <= 253
  {
    var body := AlertBody(id, ty, value, unit);
    var text := AlertText(id, ty, value, unit);
    BodyNoEnd(id, ty, value, unit);
    AlertWholeIff(id, ty, value, unit);
    if |body| <= 253 {
      assert text[|text| - 2..] == "\r\n" && text[..|text| - 2] == body;
    } else {
      assert text == (body + "\r\n")[..255];
      assert |text| == 255 && text[253] == body[253];
    }
  }

  lemma BodyNoEnd(id: string, ty: string, value: real, unit: string)
    requires NoEnd(id) && NoEnd(ty) && NoEnd(unit)
    ensures NoEnd(AlertBody(id, ty, value, unit))
  {
    Decimals.PrintCharacters(value, 2);
  }

  /** A unit of 260 characters cuts the alert before its line ending, so that a line reader joins it
      with the response that follows. */
  lemma LongUnitJoinsLines(unit: string, response: string)
    requires |unit| == 260 && NoEnd(unit) && OneLine(response)
    ensures var alert := AlertText("T1", "temperature", 31.0, unit);
            NoEnd(alert) && |alert| == 255 && Lines(alert + response) == [alert + Content(response)]
  {
    var alert := AlertText("T1", "temperature", 31.0, unit);
    var body := AlertBody("T1", "temperature", 31.0, unit);
    BodyNoEnd("T1", "temperature", 31.0, unit);
    assert alert == (body + "\r\n")[..255] == body[..255];
    LineJoins(alert, response, "");
    assert alert + response + "" == alert + response && Lines("") == [];
  }
}
