/** main.c: the thresholds that the server registers before it listens, and what they mean for readings. */
module MainRules {
  import opened CStrings
  import opened AlertEngine
  import AlertRuns
  import Decimals
  import S = SensorManager
  import Server
  import opened ServerRuns

  const RULES := [Threshold("temperature", 30.0, Warning, ">", true),
                  Threshold("temperature", 50.0, Critical, ">", true),
                  Threshold("vibration", 5.0, Warning, ">", true),
                  Threshold("vibration", 10.0, Critical, ">", true),
                  Threshold("energy", 500.0, Warning, ">", true)]

  method Add(engine: Engine, ty: string, limit: real, level: Level, message: string)
    requires engine.Valid() && |engine.Rules()| < MAX_ALERTS && 0 < |ty| <= 15 && NulFree(ty) && NulFree(message)
    modifies engine`thresholdCount, engine.thresholds
    ensures engine.Valid() && engine.history == old(engine.history)
    ensures engine.Rules() == old(engine.Rules()) + [Threshold(ty, limit, level, ">", true)]
  {
    assert NulFree(">") && Take(">", 7) == ">";
    var result := engine.RegisterThreshold(ty, limit, level, ">", message);
  }

  lemma TypesAreText()
    ensures NulFree("temperature") && NulFree("vibration") && NulFree("energy")
  {
  }

  lemma TemperatureMessages()
    ensures NulFree("Temperature above normal") && NulFree("Temperature critically high")
  {
  }

  lemma VibrationMessages()
    ensures NulFree("Vibration above normal") && NulFree("Vibration critically high")
  {
  }

  lemma EnergyMessage()
    ensures NulFree("Energy consumption high")
  {
  }

  method AddTemperature(engine: Engine)
    requires engine.Valid() && |engine.Rules()| <= 2
    modifies engine`thresholdCount, engine.thresholds
    ensures engine.Valid() && engine.history == old(engine.history)
    ensures engine.Rules() == old(engine.Rules()) + RULES[..2]
  {
    TypesAreText();
    TemperatureMessages();
    Add(engine, "temperature", 30.0, Warning, "Temperature above normal");
    Add(engine, "temperature", 50.0, Critical, "Temperature critically high");
  }

  method AddVibration(engine: Engine)
    requires engine.Valid() && |engine.Rules()| <= 2
    modifies engine`thresholdCount, engine.thresholds
    ensures engine.Valid() && engine.history == old(engine.history)
    ensures engine.Rules() == old(engine.Rules()) + RULES[2..4]
  {
    TypesAreText();
    VibrationMessages();
    Add(engine, "vibration", 5.0, Warning, "Vibration above normal");
    Add(engine, "vibration", 10.0, Critical, "Vibration critically high");
  }

  /** The calls of main between alert_engine_init and start_server. */
  method Install(engine: Engine)
    requires engine.Valid() && engine.Rules() == []
    modifies engine`thresholdCount, engine.thresholds
    ensures engine.Valid() && engine.Rules() == RULES && engine.history == old(engine.history)
  {
    AddTemperature(engine);
    AddVibration(engine);
    assert engine.Rules() == RULES[..4];
    TypesAreText();
    EnergyMessage();
    Add(engine, "energy", 500.0, Warning, "Energy consumption high");
  }

  method Initialised() returns (engine: Engine)
    ensures fresh(engine) && fresh(engine.thresholds) && fresh(engine.alerts)
    ensures engine.Valid() && engine.Rules() == RULES && engine.history == []
  {
    engine := new Engine();
    Install(engine);
  }

  /** main up to start_server: the server starts as every conversation under these rules does. */
  method Start() returns (server: Server.Handler)
    ensures fresh(server) && server.Valid() && server.View() == WorldAfter(RULES, [])
  {
    var manager := new S.Manager();
    var engine := Initialised();
    server := new Server.Handler(manager, engine);
  }

  /** The number of alarms that these rules raise, by the first 15 characters of the type. */
  function Alarms(kind: string, value: real): nat {
    if kind == "temperature" then (if value > 50.0 then 2 else if value > 30.0 then 1 else 0)
    else if kind == "vibration" then (if value > 10.0 then 2 else if value > 5.0 then 1 else 0)
    else if kind == "energy" then (if value > 500.0 then 1 else 0)
    else 0
  }

  lemma OneRule(i: nat, id: string, ty: string, value: real)
    requires i < 5
    ensures |Block(RULES[..i + 1], id, ty, value)| ==
            |Block(RULES[..i], id, ty, value)| + if Breaks(RULES[i], ty, value) then 1 else 0
  {
    BlockStep(RULES, i, id, ty, value);
    FiresIff(RULES[i], ty, value);
  }

  lemma RuleBreaks(ty: string, value: real)
    ensures Breaks(RULES[0], ty, value) <==> Take(ty, 15) == "temperature" && value > 30.0
    ensures Breaks(RULES[1], ty, value) <==> Take(ty, 15) == "temperature" && value > 50.0
    ensures Breaks(RULES[2], ty, value) <==> Take(ty, 15) == "vibration" && value > 5.0
    ensures Breaks(RULES[3], ty, value) <==> Take(ty, 15) == "vibration" && value > 10.0
    ensures Breaks(RULES[4], ty, value) <==> Take(ty, 15) == "energy" && value > 500.0
  {
    assert Take("temperature", 15) == "temperature" && Take("vibration", 15) == "vibration";
    assert Take("energy", 15) == "energy";
    assert ">" != "<" && ">" != ">=" && ">" != "<=";
  }

  lemma KindsDiffer()
    ensures "temperature" != "vibration" && "temperature" != "energy" && "vibration" != "energy"
  {
    assert "temperature"[0] == 't' && "vibration"[0] == 'v' && "energy"[0] == 'e';
  }

  /** How many alerts a reading raises under the rules of main. */
  lemma MainAlarms(id: string, ty: string, value: real)
    ensures |Block(RULES, id, ty, value)| == Alarms(Take(ty, 15), value)
  {
    assert Block(RULES[..0], id, ty, value) == [];
    OneRule(0, id, ty, value);
    OneRule(1, id, ty, value);
    OneRule(2, id, ty, value);
    OneRule(3, id, ty, value);
    OneRule(4, id, ty, value);
    assert RULES[..5] == RULES;
    RuleBreaks(ty, value);
    KindsDiffer();
  }

  /** In every conversation under the rules of main, a measurement is broadcast exactly when its sensor was
      registered and its value is above the lower limit of the type that was registered first. */
  lemma MainBroadcastIff(msgs: seq<Msg>, k: nat)
    requires k < |msgs| && IsMeasurement(msgs[k])
    ensures var ty := FirstType(RULES, msgs[..k], msgs[k].words[1]); var value := Decimals.Atof(msgs[k].words[2]);
            AnswerTo(RULES, msgs, k).alert.Some? <==>
              ty.Some? && (|| (Take(ty.value, 15) == "temperature" && value > 30.0)
                           || (Take(ty.value, 15) == "vibration" && value > 5.0)
                           || (Take(ty.value, 15) == "energy" && value > 500.0))
  {
    BroadcastIff(RULES, msgs, k);
    var ty := FirstType(RULES, msgs[..k], msgs[k].words[1]);
    if ty.Some? {
      AlertRuns.AnyBreaksIff(RULES, "", ty.value, Decimals.Atof(msgs[k].words[2]));
      MainAlarms("", ty.value, Decimals.Atof(msgs[k].words[2]));
    }
  }
}
