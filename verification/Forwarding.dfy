/** What the operator client makes of its stream: the sensor list it shows and the alerts it passes on. */
module Forwarding {
  import opened Handlers
  import opened LockOrder
  import opened OperatorTable
  import opened SafeRuns
  import opened Streams
  import opened ClientLines
  import opened Broadcasts
  import Server
  import Protocol
  import ServerRuns
  import CStrings
  import S = SensorManager
  import A = AlertEngine
  import Packing
  import O = OperatorClient

  // ---------- the reader thread ----------

  /** The client shows the list of the last line that begins with SENSORS, whatever follows it. */
  lemma {:induction false} CacheShowsLast(cache: seq<O.SensorData>, before: seq<string>, line: string, later: seq<string>)
    requires "SENSORS" <= line && forall k :: 0 <= k < |later| ==> !("SENSORS" <= later[k])
    ensures O.CacheAfter(cache, before + [line] + later) == O.ParsedSensors(line)
  {
    var all := before + [line] + later;
    if later == [] {
      assert all[|all| - 1] == line;
    } else {
      var n := |later| - 1;
      CacheShowsLast(cache, before, line, later[..n]);
      assert all[..|all| - 1] == before + [line] + later[..n] && all[|all| - 1] == later[n];
    }
  }

  /** Without such a line it shows what it showed before. */
  lemma {:induction false} CacheStays(cache: seq<O.SensorData>, lines: seq<string>)
    requires forall k :: 0 <= k < |lines| ==> !("SENSORS" <= lines[k])
    ensures O.CacheAfter(cache, lines) == cache
  {
    if lines != [] {
      CacheStays(cache, lines[..|lines| - 1]);
    }
  }

  lemma AlertIsNoList(line: string)
    requires "ALERTA" <= line
    ensures !("SENSORS" <= line)
  {
    assert line[0] == "ALERTA"[0] == 'A' && "SENSORS"[0] == 'S';
  }

  lemma AlertLinesStep(lines: seq<string>, line: string)
    ensures O.AlertLines(lines + [line]) == O.AlertLines(lines) + if "ALERTA" <= line then [line] else []
  {
    assert (lines + [line])[..|lines|] == lines;
    if "ALERTA" <= line {
      AlertIsNoList(line);
    }
    assert O.AlertLines(lines) + [] == O.AlertLines(lines);
  }

  // ---------- every broadcast is an alert ----------

  predicate StartsAlert(pc: Pc) {
    pc.AlertWait? ==> "ALERTA" <= pc.msg
  }

  ghost predicate AlertsOnly(s: State) {
    && (forall b :: 0 <= b < |s.table.broadcasts| ==> "ALERTA" <= s.table.broadcasts[b])
    && forall t :: 0 <= t < |s.conns| ==> StartsAlert(s.conns[t].pc)
  }

  lemma AlertTextStarts(id: string, ty: string, value: real, unit: string)
    ensures "ALERTA" <= AlertText(id, ty, value, unit)
  {
    var text := AlertBody(id, ty, value, unit) + "\r\n";
    assert "ALERTA " <= text;
    assert AlertText(id, ty, value, unit) == CStrings.Take(text, 255);
    assert AlertText(id, ty, value, unit)[..6] == text[..6];
  }

  lemma StartsNext(s: State, t: nat, inp: Input)
    requires t < |s.conns| && PcOk(s.conns[t].pc)
    ensures StartsAlert(NextPc(s, t, inp))
  {
    var pc := s.conns[t].pc;
    if pc.CheckHold? {
      AlertTextStarts(pc.id, TypeAt(s.store, pc.slot), pc.value, pc.unit);
    }
  }

  lemma AlertsOnlyStep(s: State, t: nat, inp: Input)
    requires AlertsOnly(s) && CanRun(s, t, inp) && PcOk(s.conns[t].pc)
    ensures AlertsOnly(Step(s, t, inp))
  {
    var q := Step(s, t, inp);
    StepFrame(s, t, inp);
    BroadcastsStart(s, t);
    StartsNext(s, t, inp);
    assert StartsAlert(s.conns[t].pc);
    forall u | 0 <= u < |q.conns| ensures StartsAlert(q.conns[u].pc) {
      assert StartsAlert(s.conns[u].pc);
    }
  }

  lemma AlertsOnlyAccept(s: State, fd: nat)
    requires AlertsOnly(s)
    ensures AlertsOnly(Accepted(s, fd))
  {
    var q := Accepted(s, fd);
    forall u | 0 <= u < |q.conns| ensures StartsAlert(q.conns[u].pc) {
      if u < |s.conns| {
        assert q.conns[u] == s.conns[u] && StartsAlert(s.conns[u].pc);
      }
    }
  }

  lemma {:induction false} AlertsOnlyReached(thresholds: seq<A.Threshold>, moves: seq<Move>)
    requires LegalRun(thresholds, moves)
    ensures AlertsOnly(Reached(thresholds, moves))
  {
    if moves != [] {
      var n := |moves| - 1;
      AlertsOnlyReached(thresholds, moves[..n]);
      LocksReached(thresholds, moves[..n]);
      var s := Reached(thresholds, moves[..n]);
      match moves[n]
      case Accept(fd) => AlertsOnlyAccept(s, fd);
      case Run(t, inp) => AlertsOnlyStep(s, t, inp);
    }
  }

  // ---------- what is passed on ----------

  ghost predicate Told(chunks: seq<Chunk>) {
    forall k :: 0 <= k < |chunks| ==>
      Complete(chunks[k]) && (chunks[k].AlertLine? <==> "ALERTA" <= Content(chunks[k].text))
  }

  /** The texts of the alerts, without their line endings. */
  function AlertContents(chunks: seq<Chunk>): seq<string>
    requires forall k :: 0 <= k < |chunks| ==> Complete(chunks[k])
  {
    if chunks == [] then [] else
      var c := chunks[|chunks| - 1];
      assert Complete(c);
      var before := AlertContents(chunks[..|chunks| - 1]);
      if c.AlertLine? then before + [Content(c.text)] else before
  }

  lemma {:induction false} PassedOn(chunks: seq<Chunk>)
    requires Told(chunks)
    ensures O.AlertLines(Contents(chunks)) == AlertContents(chunks)
  {
    if chunks != [] {
      var front, c := chunks[..|chunks| - 1], chunks[|chunks| - 1];
      PassedOn(front);
      assert Complete(c);
      AlertLinesStep(Contents(front), Content(c.text));
    }
  }

  lemma {:induction false} ContentsOfTexts(chunks: seq<Chunk>)
    requires forall k :: 0 <= k < |chunks| ==> Complete(chunks[k])
    ensures |AlertContents(chunks)| == |Texts(chunks)|
    ensures forall k :: 0 <= k < |Texts(chunks)| ==> Texts(chunks)[k] == AlertContents(chunks)[k] + "\r\n"
  {
    if chunks != [] {
      var front, c := chunks[..|chunks| - 1], chunks[|chunks| - 1];
      ContentsOfTexts(front);
      assert Complete(c);
      assert c.text == Content(c.text) + "\r\n";
    }
  }

  lemma ContentStarts(text: string)
    requires OneLine(text) && "ALERTA" <= text
    ensures "ALERTA" <= Content(text)
  {
    assert text[..6] == "ALERTA";
    forall i | 0 <= i < 6 ensures text[i] != '\r' {
      assert text[i] == "ALERTA"[i];
    }
    assert text[|text| - 2] == text[|text| - 2..][0] == '\r';
    assert |text| - 2 >= 6;
    assert Content(text)[..6] == text[..6];
  }

  /** Under every interleaving of a safe run: when everything a connection was sent arrived as whole lines
      and no response looks like an alert, the client passes on exactly the alerts it was sent, in order. */
  lemma ForwardsAlerts(thresholds: seq<A.Threshold>, moves: seq<Move>, t: nat)
    requires SafeRun(thresholds, moves) && t < |Reached(thresholds, moves).conns|
    requires var chunks := Reached(thresholds, moves).conns[t].chunks;
             forall k :: 0 <= k < |chunks| ==>
               Complete(chunks[k]) && (chunks[k].Response? ==> !("ALERTA" <= Content(chunks[k].text)))
    ensures var c := Reached(thresholds, moves).conns[t]; var passed := O.AlertLines(Lines(c.wire));
            && |passed| == |Texts(c.chunks)|
            && forall k :: 0 <= k < |passed| ==> Texts(c.chunks)[k] == passed[k] + "\r\n"
  {
    var s := Reached(thresholds, moves);
    var chunks := s.conns[t].chunks;
    ClientReadsLines(thresholds, moves, t);
    AlertsOnlyReached(thresholds, moves);
    AlertLinesAreBroadcasts(thresholds, moves, t);
    forall k | 0 <= k < |chunks|
      ensures Complete(chunks[k]) && (chunks[k].AlertLine? <==> "ALERTA" <= Content(chunks[k].text))
    {
      if chunks[k].AlertLine? {
        assert chunks[k].text in s.table.broadcasts;
        ContentStarts(chunks[k].text);
      }
    }
    PassedOn(chunks);
    ContentsOfTexts(chunks);
  }

  // ---------- no answer looks like an alert ----------

  lemma NotAlert(text: string)
    requires text != [] && text[0] != 'A'
    ensures !("ALERTA" <= Protocol.Framed(text)) && !("ALERTA" <= text)
  {
    assert "ALERTA"[0] == 'A' && Protocol.Framed(text)[0] == text[0];
  }

  lemma AlertListIsNoAlert(list: string)
    ensures !("ALERTA" <= Protocol.BuildAlertsList(list))
  {
    var r := Protocol.BuildAlertsList(list);
    assert r[5] == ("ALERTS " + list + "\r\n")[5] == 'S' && "ALERTA"[5] == 'A';
  }

  lemma ErrorIsNoAlert(code: string, desc: string)
    ensures !("ALERTA" <= Protocol.BuildError(code, desc))
  {
    NotAlert("ERROR " + code + " " + desc);
  }

  lemma OkIsNoAlert(details: string)
    ensures !("ALERTA" <= Protocol.BuildOk(details))
  {
    NotAlert("OK " + details);
  }

  lemma StoreAnswerIsNoAlert(w: Server.World, m: ServerRuns.Msg)
    requires m.words != []
    requires var k := Protocol.CommandOf(m.words[0]); k.RegisterSensor? || k.Measurement? || k.Login?
    ensures !("ALERTA" <= Server.Answer(w, m.words, m.env).response)
  {
    OkIsNoAlert("SENSOR_REGISTERED");
    OkIsNoAlert("MEASUREMENT_RECEIVED");
    OkIsNoAlert(CStrings.Snprintf(128, "ROLE_" + m.env.role));
    ErrorIsNoAlert("400", "Missing arguments");
    ErrorIsNoAlert("404", "Sensor not registered");
    ErrorIsNoAlert("500", "Failed to register sensor");
    ErrorIsNoAlert("401", "Invalid credentials");
    ErrorIsNoAlert("503", "Auth service unavailable");
  }

  /** No answer of the server begins like an alert, whatever the message. */
  lemma AnswerIsNoAlert(w: Server.World, m: ServerRuns.Msg)
    ensures !("ALERTA" <= Server.Answer(w, m.words, m.env).response)
  {
    ErrorIsNoAlert("404", "Command not found");
    if m.words != [] {
      match Protocol.CommandOf(m.words[0])
      case Ping => NotAlert("PONG\r\n");
      case OperatorIdentify => OkIsNoAlert("OPERATOR_CONNECTED");
      case GetSensors => NotAlert("SENSORS " + Packing.Pack(S.Items(w.registry), 1024));
      case GetAlerts => AlertListIsNoAlert(Packing.Pack(A.Items(A.Window(w.history)), 1024));
      case GetStatus => NotAlert("STATUS " + "5 sensors active - System OK");
      case Unknown =>
      case _ => StoreAnswerIsNoAlert(w, m);
    }
  }
}
