/** server.c for one handler at a time: from a received buffer to the response and the new stores. */
module Server {
  import opened CStrings
  import opened Protocol
  import Decimals
  import Packing
  import S = SensorManager
  import A = AlertEngine
  import R = RegistryRuns
  import H = Handlers

  /** What a message needs from outside: the clock, and the answer of the auth service. */
  datatype Env = Env(now: int, clock: int -> int, auth: int, role: string)

  datatype World = World(registry: seq<S.Entry>, rules: seq<A.Threshold>, history: seq<A.Alert>)

  datatype Outcome = Outcome(world: World, response: string, alert: H.Option<string>, login: bool)

  const NOT_FOUND := BuildError("404", "Command not found")
  const MISSING := BuildError("400", "Missing arguments")
  const REGISTERED := BuildOk("SENSOR_REGISTERED")
  const RECEIVED := BuildOk("MEASUREMENT_RECEIVED")

  function Reply(w: World, response: string): Outcome {
    Outcome(w, response, H.None, false)
  }

  function OnRegister(w: World, id: string, ty: string, env: Env): Outcome {
    Reply(w.(registry := S.AfterRegister(w.registry, ty, id, env.now)),
          if S.Accepts(w.registry, id) then REGISTERED else BuildError("500", "Failed to register sensor"))
  }

  function OnMeasurement(w: World, id: string, value: real, unit: string, env: Env): Outcome {
    if S.Has(w.registry, id) then
      var r := S.AfterMeasure(w.registry, id, value, unit, env.now);
      var ty := w.registry[S.Index(w.registry, id)].ty;
      var block := A.Block(w.rules, id, ty, value);
      Outcome(World(r, w.rules, w.history + A.Stamped(block, env.clock)), RECEIVED,
              if |block| > 0 then H.Some(H.AlertText(id, ty, value, unit)) else H.None, false)
    else Reply(w, BuildError("404", "Sensor not registered"))
  }

  function OnLogin(w: World, env: Env): Outcome {
    if env.auth == 1 then Outcome(w, BuildOk(Snprintf(128, "ROLE_" + env.role)), H.None, true)
    else if env.auth == 0 then Reply(w, BuildError("401", "Invalid credentials"))
    else Reply(w, BuildError("503", "Auth service unavailable"))
  }

  function AnswerRegister(w: World, ws: seq<string>, env: Env): Outcome {
    if ArgCount(ws) >= 2 then OnRegister(w, ws[1], ws[2], env) else Reply(w, MISSING)
  }

  function AnswerMeasurement(w: World, ws: seq<string>, env: Env): Outcome {
    if ArgCount(ws) >= 3 then OnMeasurement(w, ws[1], Decimals.Atof(ws[2]), ws[3], env) else Reply(w, MISSING)
  }

  /** The switch of handle_client on the words of the first line. */
  function Answer(w: World, ws: seq<string>, env: Env): Outcome {
    if ws == [] then Reply(w, NOT_FOUND) else
      match CommandOf(ws[0])
      case Ping => Reply(w, "PONG\r\n")
      case RegisterSensor => AnswerRegister(w, ws, env)
      case Measurement => AnswerMeasurement(w, ws, env)
      case Login => if ArgCount(ws) >= 2 then OnLogin(w, env) else Reply(w, MISSING)
      case OperatorIdentify => Reply(w, BuildOk("OPERATOR_CONNECTED"))
      case GetSensors => Reply(w, BuildSensorsList(Packing.Pack(S.Items(w.registry), 1024)))
      case GetAlerts => Reply(w, BuildAlertsList(Packing.Pack(A.Items(A.Window(w.history)), 1024)))
      case GetStatus => Reply(w, BuildStatus("5 sensors active - System OK"))
      case Unknown => Reply(w, NOT_FOUND)
  }

  class Handler {
    const sensors: S.Manager
    const alerts: A.Engine
    const msg: ParsedMessage

    ghost predicate Valid()
      reads sensors, sensors.sensors, alerts, alerts.thresholds, alerts.alerts
    {
      sensors.Valid() && alerts.Valid() && msg.Valid()
    }

    ghost function View(): World
      reads sensors, sensors.sensors, alerts, alerts.thresholds, alerts.alerts
      requires Valid()
    {
      World(sensors.Registry(), alerts.Rules(), alerts.history)
    }

    /** A handler over the stores that main has initialised. */
    constructor (manager: S.Manager, engine: A.Engine)
      requires manager.Valid() && engine.Valid()
      ensures Valid() && sensors == manager && alerts == engine
    {
      sensors, alerts := manager, engine;
      msg := new ParsedMessage();
    }

    /** Stores a measurement and looks up the type, as two critical sections. */
    method StoreAndType(id: string, value: real, unit: string, now: int) returns (stored: bool, ty: string)
      requires Valid() && NulFree(id) && NulFree(unit)
      modifies sensors.sensors
      ensures Valid() && stored == S.Has(old(sensors.Registry()), id)
      ensures sensors.Registry() == S.AfterMeasure(old(sensors.Registry()), id, value, unit, now)
      ensures stored ==> NulFree(ty) && ty == old(sensors.Registry())[S.Index(old(sensors.Registry()), id)].ty
      ensures alerts.Rules() == old(alerts.Rules())
    {
      ghost var before := sensors.Registry();
      S.HasIff(before, id);
      ty := "";
      var result := sensors.AddMeasurement(id, value, unit, now);
      stored := result == 0;
      if stored {
        MeasureKeepsLookup(before, id, value, unit, now);
        var found, slot := sensors.GetSensorType(id);
        ty := CStr(sensors.sensors[slot].ty);
        CStrIsNulFree(sensors.sensors[slot].ty);
        assert sensors.Registry()[slot].ty == ty;
      }
    }

    /** case CMD_MEASUREMENT with enough arguments. */
    method Measure(id: string, value: real, unit: string, env: Env) returns (response: string, alert: H.Option<string>)
      requires Valid() && NulFree(id) && NulFree(unit)
      modifies sensors.sensors, alerts, alerts.thresholds, alerts.alerts
      ensures Valid()
      ensures Outcome(View(), response, alert, false) == OnMeasurement(old(View()), id, value, unit, env)
    {
      alert := H.None;
      var stored, ty := StoreAndType(id, value, unit, env.now);
      if stored {
        response := BuildOk("MEASUREMENT_RECEIVED");
        var triggered := alerts.CheckMeasurement(id, ty, value, env.clock);
        if triggered > 0 {
          alert := H.Some(H.AlertText(id, ty, value, unit));
        }
      } else {
        response := BuildError("404", "Sensor not registered");
      }
    }

    /** args[i] as the C string the handler reads. */
    method Arg(i: nat, ghost ws: seq<string>) returns (arg: string)
      requires msg.Parsed(ws) && i < msg.argc
      ensures arg == ws[i + 1] && NulFree(arg)
    {
      arg := CStr(msg.raw[msg.args[i]..]);
      CStrIsNulFree(msg.raw[msg.args[i]..]);
    }

    method Reading(ghost ws: seq<string>) returns (id: string, value: real, unit: string)
      requires msg.Parsed(ws) && msg.argc >= 3
      ensures id == ws[1] && value == Decimals.Atof(ws[2]) && unit == ws[3]
      ensures NulFree(id) && NulFree(unit)
    {
      id := Arg(0, ws);
      var text := Arg(1, ws);
      unit := Arg(2, ws);
      value := Decimals.Atof(text);
    }

    /** case CMD_REGISTER_SENSOR with enough arguments: the second argument is the type. */
    method Register(id: string, ty: string, env: Env) returns (response: string)
      requires Valid() && NulFree(id) && NulFree(ty)
      modifies sensors, sensors.sensors
      ensures Valid()
      ensures Outcome(View(), response, H.None, false) == OnRegister(old(View()), id, ty, env)
    {
      S.AcceptsIff(sensors.Registry(), id);
      var result := sensors.Register(ty, id, env.now);
      if result == 0 {
        response := BuildOk("SENSOR_REGISTERED");
      } else {
        response := BuildError("500", "Failed to register sensor");
      }
    }

    /** The cases that change no store. */
    method Query(ghost ws: seq<string>, env: Env) returns (response: string, login: bool)
      requires Valid() && msg.Parsed(ws) && !msg.kind.RegisterSensor? && !msg.kind.Measurement?
      ensures response == Answer(View(), ws, env).response && login == Answer(View(), ws, env).login
      ensures Answer(View(), ws, env).world == View() && Answer(View(), ws, env).alert == H.None
    {
      login := false;
      match msg.kind {
        case Ping => response := "PONG\r\n";
        case Login =>
          if msg.argc >= 2 {
            response, login := LogIn(env);
          } else {
            response := BuildError("400", "Missing arguments");
          }
        case OperatorIdentify => response := BuildOk("OPERATOR_CONNECTED");
        case GetSensors =>
          var result, list := sensors.GetActiveSensors(1024);
          response := BuildSensorsList(list);
        case GetAlerts =>
          var result, list := alerts.GetActiveAlerts(1024);
          response := BuildAlertsList(list);
        case GetStatus => response := BuildStatus("5 sensors active - System OK");
        case _ => response := BuildError("404", "Command not found");
      }
    }

    method LogIn(env: Env) returns (response: string, login: bool)
      requires Valid()
      ensures response == OnLogin(View(), env).response && login == OnLogin(View(), env).login
    {
      login := env.auth == 1;
      if env.auth == 1 {
        response := BuildOk(Snprintf(128, "ROLE_" + env.role));
      } else if env.auth == 0 {
        response := BuildError("401", "Invalid credentials");
      } else {
        response := BuildError("503", "Auth service unavailable");
      }
    }

    method Registration(ghost ws: seq<string>) returns (id: string, ty: string)
      requires msg.Parsed(ws) && msg.argc >= 2
      ensures id == ws[1] && ty == ws[2] && NulFree(id) && NulFree(ty)
    {
      id := Arg(0, ws);
      ty := Arg(1, ws);
    }

    method OnRegisterMessage(ghost ws: seq<string>, env: Env) returns (response: string)
      requires Valid() && msg.Parsed(ws)
      modifies sensors, sensors.sensors
      ensures Valid()
      ensures Outcome(View(), response, H.None, false) == AnswerRegister(old(View()), ws, env)
    {
      if msg.argc >= 2 {
        var id, ty := Registration(ws);
        response := Register(id, ty, env);
      } else {
        response := BuildError("400", "Missing arguments");
      }
    }

    method OnMeasurementMessage(ghost ws: seq<string>, env: Env) returns (response: string, alert: H.Option<string>)
      requires Valid() && msg.Parsed(ws)
      modifies sensors.sensors, alerts, alerts.thresholds, alerts.alerts
      ensures Valid()
      ensures Outcome(View(), response, alert, false) == AnswerMeasurement(old(View()), ws, env)
    {
      alert := H.None;
      if msg.argc >= 3 {
        var id, value, unit := Reading(ws);
        response, alert := Measure(id, value, unit, env);
      } else {
        response := BuildError("400", "Missing arguments");
      }
    }

    method Dispatch(ghost ws: seq<string>, env: Env) returns (response: string, alert: H.Option<string>, login: bool)
      requires Valid() && msg.Parsed(ws)
      modifies sensors, sensors.sensors, alerts, alerts.thresholds, alerts.alerts
      ensures Valid()
      ensures Outcome(View(), response, alert, login) == Answer(old(View()), ws, env)
    {
      alert := H.None;
      login := false;
      if msg.kind.RegisterSensor? {
        response := OnRegisterMessage(ws, env);
      } else if msg.kind.Measurement? {
        response, alert := OnMeasurementMessage(ws, env);
      } else {
        response, login := Query(ws, env);
      }
    }

    /** One received buffer, from parsing to the response that will be sent. */
    method Handle(buffer: seq<char>, received: int, env: Env)
      returns (response: string, alert: H.Option<string>, login: bool)
      requires Valid() && received <= |buffer|
      modifies sensors, sensors.sensors, alerts, alerts.thresholds, alerts.alerts, msg, msg.raw, msg.args
      ensures Valid()
      ensures Outcome(View(), response, alert, login) ==
              if 0 < received < 1024 then Answer(old(View()), Words(FirstLine(buffer[..received])), env)
              else Reply(old(View()), NOT_FOUND)
    {
      response, alert, login := BuildError("404", "Command not found"), H.None, false;
      var parsed := msg.Parse(buffer, received);
      if parsed == 0 {
        response, alert, login := Dispatch(Words(FirstLine(buffer[..received])), env);
      }
    }
  }

  lemma MeasureKeepsLookup(r: seq<S.Entry>, id: string, value: real, unit: string, now: int)
    requires S.Has(r, id)
    ensures var q := S.AfterMeasure(r, id, value, unit, now);
            S.Has(q, id) && S.Index(q, id) == S.Index(r, id) && q[S.Index(q, id)].ty == r[S.Index(r, id)].ty
  {
    R.LookupStable(r, S.AfterMeasure(r, id, value, unit, now), id);
  }
}
