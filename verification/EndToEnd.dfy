/** From a sensor's reading to the operator's screen, through every program in between. */
module EndToEnd {
  import opened Decimals
  import opened Protocol
  import opened Server
  import Packing
  import S = SensorManager
  import C = SensorClient
  import O = OperatorClient

  /** What pollSensors prints. */
  const POLL := "GET_SENSORS" + "\r\n"

  lemma OneWord(w: string)
    requires C.Token(w)
    ensures Words(FirstLine(w + "\r\n")) == [w]
  {
    assert Join([w]) == w;
    C.TokensParse([w], w + "\r\n");
  }

  lemma GetSensorsCommand()
    ensures CommandOf("GET_SENSORS") == GetSensors
  {
    var w := "GET_SENSORS";
    assert Upper(w[0]) != Upper("MEASUREMENT"[0]);
    assert SameIgnoringCase(w, w);
  }

  /** What the operator client shows after polling the server. */
  function Polled(w: World, env: Env): seq<O.SensorData> {
    O.ParsedSensors(O.ReadLine(Answer(w, Words(FirstLine(POLL)), env).response))
  }

  lemma PollAnswer(w: World, env: Env)
    ensures Answer(w, Words(FirstLine(POLL)), env).response == BuildSensorsList(Packing.Pack(S.Items(w.registry), 1024))
  {
    assert C.Token("GET_SENSORS");
    OneWord("GET_SENSORS");
    GetSensorsCommand();
  }

  /** Polling shows the whole registry, in registration order. */
  lemma PollShowsRegistry(w: World, env: Env)
    requires forall i :: 0 <= i < |w.registry| ==> O.PlainEntry(w.registry[i])
    requires |Packing.Concat(S.Items(w.registry))| <= 502
    ensures Polled(w, env) == O.AllShown(w.registry)
  {
    PollAnswer(w, env);
    O.SensorListRoundTrip(w.registry);
  }

  lemma MeasurementHandled(w: World, id: string, value: real, unit: string, timestamp: int, env: Env)
    requires C.Token(id) && C.Token(unit) && S.Has(w.registry, id)
    ensures Answer(w, Words(FirstLine(C.MeasurementMessage(id, value, unit, timestamp))), env).world.registry
         == C.AfterMessage(w.registry, C.MeasurementMessage(id, value, unit, timestamp), env.now)
    ensures C.AfterMessage(w.registry, C.MeasurementMessage(id, value, unit, timestamp), env.now)
         == S.AfterMeasure(w.registry, id, Atof(Print(value, 4)), unit, env.now)
  {
    C.MeasurementMessageParses(id, value, unit, timestamp);
    C.MessageCommands();
  }

  /** The server after a sensor of type `ty` sent a reading of h hundredths. */
  function AfterReading(w: World, id: string, ty: string, h: int, timestamp: int, env: Env): World {
    Answer(w, Words(FirstLine(C.MeasurementMessage(id, Units(h, 2), C.UnitFor(ty), timestamp))), env).world
  }

  /** Every entry fits the server's item buffer, and all of them the response. */
  ghost predicate Listable(r: seq<S.Entry>) {
    (forall i :: 0 <= i < |r| ==> O.PlainEntry(r[i])) && |Packing.Concat(S.Items(r))| <= 502
  }

  /** The operator sees this sensor with exactly h hundredths, and every other sensor as before. */
  ghost predicate Sees(shown: seq<O.SensorData>, r: seq<S.Entry>, id: string, ty: string, h: int)
    requires S.Has(r, id)
  {
    var i := S.Index(r, id);
    && |shown| == |r|
    && shown[i].id == id && shown[i].value == Print(Units(h, 2), 2)
    && shown[i].unit == (if ty == "temperature" then "C" else if ty == "energy" then "W"
                         else if ty == "vibration" then "mm/s" else "U")
    && Atof(shown[i].value) == Units(h, 2)
    && forall j :: 0 <= j < |shown| && j != i ==> shown[j] == O.Shown(r[j])
  }

  /** A reading of h hundredths that a registered sensor sends is what the operator sees next: same id,
      the unit of its type, and a value text that reads back as exactly h hundredths. */
  lemma OperatorSeesReading(w: World, id: string, ty: string, h: int, timestamp: int, env: Env, poll: Env)
    requires C.ValidId(id) && S.Has(w.registry, id)
    requires Listable(AfterReading(w, id, ty, h, timestamp, env).registry)
    ensures Sees(Polled(AfterReading(w, id, ty, h, timestamp, env), poll), w.registry, id, ty, h)
  {
    var q := AfterReading(w, id, ty, h, timestamp, env);
    var unit := C.UnitFor(ty);
    C.SensorTextIsSafe(id, ty);
    MeasurementHandled(w, id, Units(h, 2), unit, timestamp, env);
    C.ReadingReachesOperator(w.registry, id, h, unit, timestamp, env.now);
    PollShowsRegistry(q, poll);
  }

  lemma PollChangesNothing(w: World, env: Env)
    ensures Answer(w, Words(FirstLine(POLL)), env).world == w
  {
    assert C.Token("GET_SENSORS");
    OneWord("GET_SENSORS");
    GetSensorsCommand();
  }

  /** The measurement message of a sensor script, through the server. */
  method SendReading(server: Handler, id: string, ty: string, h: int, timestamp: int, env: Env)
    requires server.Valid()
    requires |C.MeasurementMessage(id, Units(h, 2), C.UnitFor(ty), timestamp)| < MAX_BUFFER_SIZE
    modifies server.sensors, server.sensors.sensors, server.alerts, server.alerts.thresholds, server.alerts.alerts
    modifies server.msg, server.msg.raw, server.msg.args
    ensures server.Valid() && server.View() == AfterReading(old(server.View()), id, ty, h, timestamp, env)
  {
    var line := C.MeasurementMessage(id, Units(h, 2), C.UnitFor(ty), timestamp);
    assert line[..|line|] == line;
    var response, alert, login := server.Handle(line, |line|, env);
  }

  /** The poll of the operator client: through the server, and the response through the parser. */
  method Poll(server: Handler, env: Env) returns (shown: seq<O.SensorData>)
    requires server.Valid()
    modifies server.sensors, server.sensors.sensors, server.alerts, server.alerts.thresholds, server.alerts.alerts
    modifies server.msg, server.msg.raw, server.msg.args
    ensures server.Valid() && server.View() == old(server.View())
    ensures shown == Polled(server.View(), env)
  {
    PollChangesNothing(server.View(), env);
    assert POLL[..|POLL|] == POLL;
    var response, alert, login := server.Handle(POLL, |POLL|, env);
    shown := O.ParseSensors(O.ReadLine(response));
  }

  /** The whole way through the imperative programs, from the bytes of the measurement message to what
      the operator client shows. */
  method ReadingThenPoll(server: Handler, id: string, ty: string, h: int, timestamp: int, env: Env, poll: Env)
    returns (shown: seq<O.SensorData>)
    requires server.Valid() && C.ValidId(id) && S.Has(server.View().registry, id)
    requires |C.MeasurementMessage(id, Units(h, 2), C.UnitFor(ty), timestamp)| < MAX_BUFFER_SIZE
    requires Listable(AfterReading(server.View(), id, ty, h, timestamp, env).registry)
    modifies server.sensors, server.sensors.sensors, server.alerts, server.alerts.thresholds, server.alerts.alerts
    modifies server.msg, server.msg.raw, server.msg.args
    ensures server.Valid() && server.View() == AfterReading(old(server.View()), id, ty, h, timestamp, env)
    ensures Sees(shown, old(server.View()).registry, id, ty, h)
  {
    OperatorSeesReading(server.View(), id, ty, h, timestamp, env, poll);
    SendReading(server, id, ty, h, timestamp, env);
    shown := Poll(server, poll);
  }
}
