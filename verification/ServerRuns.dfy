/** Whole conversations with the server, judged by the answers that clients see. */
module ServerRuns {
  import opened CStrings
  import opened Protocol
  import opened Server
  import Decimals
  import S = SensorManager
  import A = AlertEngine
  import AlertRuns
  import R = RegistryRuns
  import Packing
  import H = Handlers

  /** A received message: the words of its first line, and the outside world's part. */
  datatype Msg = Msg(words: seq<string>, env: Env)

  function WorldAfter(rules: seq<A.Threshold>, msgs: seq<Msg>): World {
    if msgs == [] then World([], rules, []) else
      Answer(WorldAfter(rules, msgs[..|msgs| - 1]), msgs[|msgs| - 1].words, msgs[|msgs| - 1].env).world
  }

  /** How message k is answered. */
  function AnswerTo(rules: seq<A.Threshold>, msgs: seq<Msg>, k: nat): Outcome
    requires k < |msgs|
  {
    Answer(WorldAfter(rules, msgs[..k]), msgs[k].words, msgs[k].env)
  }

  predicate IsRegister(m: Msg) {
    m.words != [] && Spells(m.words[0], "REGISTER_SENSOR") && |m.words| >= 3
  }

  predicate IsMeasurement(m: Msg) {
    m.words != [] && Spells(m.words[0], "MEASUREMENT") && |m.words| >= 4
  }

  predicate IsLogin(m: Msg) {
    m.words != [] && Spells(m.words[0], "LOGIN") && |m.words| >= 3
  }

  /** How the server takes these messages. */
  lemma Recognised(m: Msg)
    ensures IsRegister(m) <==> m.words != [] && CommandOf(m.words[0]).RegisterSensor? && ArgCount(m.words) >= 2
    ensures IsMeasurement(m) <==> m.words != [] && CommandOf(m.words[0]).Measurement? && ArgCount(m.words) >= 3
    ensures IsLogin(m) <==> m.words != [] && CommandOf(m.words[0]).Login? && ArgCount(m.words) >= 2
  {
    if m.words != [] {
      CommandTable(m.words[0]);
    }
  }

  /** The lines that clients read. */
  function OkLine(details: string): string {
    "OK " + details + "\r\n"
  }

  function ErrorLine(code: string, desc: string): string {
    "ERROR " + code + " " + desc + "\r\n"
  }

  lemma OkBuilt(details: string)
    requires |details| <= 506
    ensures BuildOk(details) == OkLine(details)
  {
  }

  lemma ErrorBuilt(code: string, desc: string)
    requires |code| + |desc| <= 502
    ensures BuildError(code, desc) == ErrorLine(code, desc)
  {
    assert |"ERROR " + code + " " + desc| == 7 + |code| + |desc|;
  }

  /** Message k registered a sensor, was answered OK SENSOR_REGISTERED, and its id is stored as `id`. */
  predicate RegisteredAs(rules: seq<A.Threshold>, msgs: seq<Msg>, k: nat, id: string) {
    k < |msgs| && IsRegister(msgs[k]) && Take(msgs[k].words[1], 31) == id
    && AnswerTo(rules, msgs, k).response == OkLine("SENSOR_REGISTERED")
  }

  // ---------- the registry behind a conversation ----------

  /** The registry operations that a message performs. */
  function OpsOf(m: Msg): seq<R.Op> {
    if IsRegister(m) then [R.Register(m.words[2], m.words[1], m.env.now)]
    else if IsMeasurement(m) then [R.Measure(m.words[1], Decimals.Atof(m.words[2]), m.words[3], m.env.now)]
    else []
  }

  function Ops(msgs: seq<Msg>): seq<R.Op> {
    if msgs == [] then [] else Ops(msgs[..|msgs| - 1]) + OpsOf(msgs[|msgs| - 1])
  }

  lemma AnswerRegistry(w: World, m: Msg)
    ensures Answer(w, m.words, m.env).world.rules == w.rules
    ensures Answer(w, m.words, m.env).world.registry ==
            if OpsOf(m) == [] then w.registry else R.Apply(w.registry, OpsOf(m)[0])
  {
    Recognised(m);
  }

  lemma {:induction false} RegistryIsReplay(rules: seq<A.Threshold>, msgs: seq<Msg>)
    ensures WorldAfter(rules, msgs).registry == R.Replay(Ops(msgs))
    ensures WorldAfter(rules, msgs).rules == rules
  {
    if msgs != [] {
      var n := |msgs| - 1;
      RegistryIsReplay(rules, msgs[..n]);
      AnswerRegistry(WorldAfter(rules, msgs[..n]), msgs[n]);
      if OpsOf(msgs[n]) == [] {
        assert Ops(msgs) == Ops(msgs[..n]);
      } else {
        assert Ops(msgs)[..|Ops(msgs[..n])|] == Ops(msgs[..n]);
      }
    }
  }

  // ---------- answers ----------

  lemma LinesDiffer(details: string, code: string, desc: string)
    ensures OkLine(details) != ErrorLine(code, desc)
  {
    assert OkLine(details)[0] == 'O' && ErrorLine(code, desc)[0] == 'E';
  }

  /** A registration is answered OK SENSOR_REGISTERED exactly when its id is stored already or fewer than
      50 entries are stored; otherwise 500. */
  lemma RegisterAnswer(w: World, m: Msg)
    requires IsRegister(m)
    ensures var response := Answer(w, m.words, m.env).response;
            && (response == OkLine("SENSOR_REGISTERED")
                <==> (exists e :: e in w.registry && e.id == m.words[1]) || |w.registry| < 50)
            && (response == OkLine("SENSOR_REGISTERED") || response == ErrorLine("500", "Failed to register sensor"))
  {
    Recognised(m);
    OkBuilt("SENSOR_REGISTERED");
    ErrorBuilt("500", "Failed to register sensor");
    LinesDiffer("SENSOR_REGISTERED", "500", "Failed to register sensor");
    S.AcceptsIff(w.registry, m.words[1]);
  }

  lemma MeasurementAnswer(w: World, m: Msg)
    requires IsMeasurement(m)
    ensures var response := Answer(w, m.words, m.env).response;
            && (response == OkLine("MEASUREMENT_RECEIVED") <==> S.Has(w.registry, m.words[1]))
            && (response == ErrorLine("404", "Sensor not registered") <==> !S.Has(w.registry, m.words[1]))
    ensures Answer(w, m.words, m.env) == OnMeasurement(w, m.words[1], Decimals.Atof(m.words[2]), m.words[3], m.env)
  {
    Recognised(m);
    OkBuilt("MEASUREMENT_RECEIVED");
    ErrorBuilt("404", "Sensor not registered");
    LinesDiffer("MEASUREMENT_RECEIVED", "404", "Sensor not registered");
  }

  const ROLE := "OK ROLE_"

  /** The three other answers that begin with OK. */
  lemma OtherOks()
    ensures !(ROLE <= REGISTERED) && !(ROLE <= RECEIVED) && !(ROLE <= BuildOk("OPERATOR_CONNECTED"))
  {
    assert ROLE[3] == 'R' && ROLE[4] == 'O';
    assert REGISTERED[3] == 'S' && RECEIVED[3] == 'M' && BuildOk("OPERATOR_CONNECTED")[3] == 'O';
  }

  /** Answers that do not begin with OK. */
  lemma NotOks(text: string)
    requires text != [] && text[0] != 'O'
    ensures !(ROLE <= Framed(text)) && !(ROLE <= text)
  {
    assert ROLE[0] == 'O';
    assert Framed(text)[0] == text[0];
  }

  lemma ErrorIsNotOk(code: string, desc: string)
    ensures !(ROLE <= BuildError(code, desc))
  {
    NotOks("ERROR " + code + " " + desc);
  }

  lemma QueryIsNotRole(w: World, m: Msg)
    requires m.words != [] && !CommandOf(m.words[0]).RegisterSensor? && !CommandOf(m.words[0]).Measurement?
    requires !CommandOf(m.words[0]).Login?
    ensures !(ROLE <= Answer(w, m.words, m.env).response) && !Answer(w, m.words, m.env).login
  {
    OtherOks();
    ErrorIsNotOk("404", "Command not found");
    match CommandOf(m.words[0])
    case GetSensors => NotOks("SENSORS " + Packing.Pack(S.Items(w.registry), 1024));
    case GetAlerts => NotOks("ALERTS " + Packing.Pack(A.Items(A.Window(w.history)), 1024));
    case GetStatus => NotOks("STATUS 5 sensors active - System OK");
    case Ping => NotOks("PONG\r\n");
    case _ =>
  }

  lemma StoreAnswerIsNotRole(w: World, m: Msg)
    requires m.words != [] && (CommandOf(m.words[0]).RegisterSensor? || CommandOf(m.words[0]).Measurement?)
    ensures !(ROLE <= Answer(w, m.words, m.env).response) && !Answer(w, m.words, m.env).login
  {
    OtherOks();
    ErrorIsNotOk("400", "Missing arguments");
    ErrorIsNotOk("404", "Sensor not registered");
    ErrorIsNotOk("500", "Failed to register sensor");
  }

  /** Of all messages, whatever they are, exactly those answered with a role make their connection an
      operator. */
  lemma RoleMeansOperator(w: World, m: Msg)
    ensures Answer(w, m.words, m.env).login <==> ROLE <= Answer(w, m.words, m.env).response
    ensures Answer(w, m.words, m.env).login <==> IsLogin(m) && m.env.auth == 1
  {
    ErrorIsNotOk("404", "Command not found");
    Recognised(m);
    if m.words != [] {
      var command := CommandOf(m.words[0]);
      if command.Login? {
        ErrorIsNotOk("400", "Missing arguments");
        ErrorIsNotOk("401", "Invalid credentials");
        ErrorIsNotOk("503", "Auth service unavailable");
        RoleAnswer(m.env.role);
      } else if command.RegisterSensor? || command.Measurement? {
        StoreAnswerIsNotRole(w, m);
      } else {
        QueryIsNotRole(w, m);
      }
    }
  }

  /** A client that logs in can tell from the answer: OK exactly when it became an operator, with its
      whole role, which the server holds in 64 characters; 401 exactly when it was refused; 503 exactly
      when the auth service did not decide. The stores stay as they are. */
  lemma LoginTells(w: World, m: Msg)
    requires IsLogin(m)
    ensures var o := Answer(w, m.words, m.env);
            && o.world == w && o.alert == H.None && (o.login <==> m.env.auth == 1)
            && (o.login <==> "OK" <= o.response)
            && (o.login && |m.env.role| <= 63 ==> o.response == OkLine("ROLE_" + m.env.role))
            && (m.env.auth == 0 <==> o.response == ErrorLine("401", "Invalid credentials"))
            && (m.env.auth != 0 && m.env.auth != 1 <==> o.response == ErrorLine("503", "Auth service unavailable"))
  {
    LoginAnswer(w, m);
    RoleAnswer(m.env.role);
    ErrorBuilt("401", "Invalid credentials");
    ErrorBuilt("503", "Auth service unavailable");
    Refusals();
  }

  lemma LoginAnswer(w: World, m: Msg)
    requires IsLogin(m)
    ensures Answer(w, m.words, m.env) == OnLogin(w, m.env)
  {
    Recognised(m);
  }

  lemma Refusals()
    ensures ErrorLine("401", "Invalid credentials") != ErrorLine("503", "Auth service unavailable")
    ensures !("OK" <= ErrorLine("401", "Invalid credentials")) && !("OK" <= ErrorLine("503", "Auth service unavailable"))
  {
    var refused, undecided := ErrorLine("401", "Invalid credentials"), ErrorLine("503", "Auth service unavailable");
    assert refused[0] == undecided[0] == 'E';
    assert refused[6] == '4' && undecided[6] == '5';
  }

  lemma RoleAnswer(role: string)
    ensures "OK" <= BuildOk(Snprintf(128, "ROLE_" + role)) && ROLE <= BuildOk(Snprintf(128, "ROLE_" + role))
    ensures |role| <= 63 ==> BuildOk(Snprintf(128, "ROLE_" + role)) == OkLine("ROLE_" + role)
  {
    var details := Snprintf(128, "ROLE_" + role);
    var r := BuildOk(details);
    assert r == "OK " + details + "\r\n";
    assert r[..2] == "OK";
    assert details[..5] == "ROLE_" && r[..8] == ROLE;
    if |role| <= 63 {
      assert details == "ROLE_" + role;
    }
  }

  // ---------- the type of a sensor, from the conversation alone ----------

  /** The type named by the first registration that was answered OK and is stored under `id`. */
  function FirstType(rules: seq<A.Threshold>, msgs: seq<Msg>, id: string): H.Option<string> {
    if msgs == [] then H.None else
      var n := |msgs| - 1;
      var earlier := FirstType(rules, msgs[..n], id);
      if earlier.Some? then earlier
      else if RegisteredAs(rules, msgs, n, id) then H.Some(Take(msgs[n].words[2], 15))
      else H.None
  }

  function TypeIn(r: seq<S.Entry>, id: string): H.Option<string> {
    if S.Has(r, id) then H.Some(r[S.Index(r, id)].ty) else H.None
  }

  lemma TypeStep(r: seq<S.Entry>, op: R.Op, id: string)
    requires |op.id| > 31 ==> !S.Has(r, op.id)
    ensures TypeIn(R.Apply(r, op), id) ==
            if S.Has(r, id) then TypeIn(r, id)
            else if op.Register? && S.Accepts(r, op.id) && Take(op.id, 31) == id then H.Some(Take(op.ty, 15))
            else H.None
  {
    R.FoundStep(r, op, id);
    var q := R.Apply(r, op);
    if S.Has(r, id) {
      assert R.Extends(r, q);
      R.LookupStable(r, q, id);
    } else if S.Has(q, id) {
      assert forall i :: 0 <= i < |r| ==> q[i].id == r[i].id;
      assert S.Index(q, id) == |r|;
    }
  }

  /** What one message does to the lookup of an id. */
  lemma TypeAfterMessage(w: World, m: Msg, id: string)
    requires OpsOf(m) != [] && |OpsOf(m)[0].id| > 31 ==> !S.Has(w.registry, OpsOf(m)[0].id)
    ensures var o := Answer(w, m.words, m.env);
            TypeIn(o.world.registry, id) ==
            if TypeIn(w.registry, id).Some? then TypeIn(w.registry, id)
            else if IsRegister(m) && Take(m.words[1], 31) == id && o.response == OkLine("SENSOR_REGISTERED")
            then H.Some(Take(m.words[2], 15)) else H.None
  {
    AnswerRegistry(w, m);
    if OpsOf(m) != [] {
      TypeStep(w.registry, OpsOf(m)[0], id);
    }
    if IsRegister(m) {
      RegisterAnswer(w, m);
      S.AcceptsIff(w.registry, m.words[1]);
    }
  }

  /** The server's lookup agrees with the conversation. */
  lemma {:induction false} LookupIsFirstType(rules: seq<A.Threshold>, msgs: seq<Msg>, id: string)
    ensures TypeIn(WorldAfter(rules, msgs).registry, id) == FirstType(rules, msgs, id)
  {
    if msgs != [] {
      var n := |msgs| - 1;
      LookupIsFirstType(rules, msgs[..n], id);
      RegistryIsReplay(rules, msgs[..n]);
      if OpsOf(msgs[n]) != [] {
        R.LongIdAbsent(Ops(msgs[..n]), OpsOf(msgs[n])[0].id);
      }
      TypeAfterMessage(WorldAfter(rules, msgs[..n]), msgs[n], id);
    }
  }

  lemma RegisteredEarlier(rules: seq<A.Threshold>, msgs: seq<Msg>, n: nat, j: nat, id: string)
    requires j < n <= |msgs|
    ensures RegisteredAs(rules, msgs[..n], j, id) == RegisteredAs(rules, msgs, j, id)
  {
    assert msgs[..n][..j] == msgs[..j];
  }

  lemma FirstTypeLast(rules: seq<A.Threshold>, msgs: seq<Msg>, id: string)
    requires msgs != [] && RegisteredAs(rules, msgs, |msgs| - 1, id)
    ensures FirstType(rules, msgs, id).Some?
  {
  }

  lemma FirstTypeKept(rules: seq<A.Threshold>, msgs: seq<Msg>, id: string)
    requires msgs != [] && FirstType(rules, msgs[..|msgs| - 1], id).Some?
    ensures FirstType(rules, msgs, id) == FirstType(rules, msgs[..|msgs| - 1], id)
  {
  }

  lemma {:induction false} FirstTypeStays(rules: seq<A.Threshold>, msgs: seq<Msg>, n: nat, id: string)
    requires n <= |msgs| && FirstType(rules, msgs[..n], id).Some?
    ensures FirstType(rules, msgs, id) == FirstType(rules, msgs[..n], id)
  {
    if n < |msgs| {
      var front := msgs[..|msgs| - 1];
      assert front[..n] == msgs[..n];
      FirstTypeStays(rules, front, n, id);
      FirstTypeKept(rules, msgs, id);
    } else {
      assert msgs[..n] == msgs;
    }
  }

  lemma FirstTypeFound(rules: seq<A.Threshold>, msgs: seq<Msg>, j: nat, id: string)
    requires RegisteredAs(rules, msgs, j, id)
    ensures FirstType(rules, msgs, id).Some?
  {
    RegisteredEarlier(rules, msgs, j + 1, j, id);
    FirstTypeLast(rules, msgs[..j + 1], id);
    FirstTypeStays(rules, msgs, j + 1, id);
  }

  lemma {:induction false} FirstTypeFrom(rules: seq<A.Threshold>, msgs: seq<Msg>, id: string) returns (j: nat)
    requires FirstType(rules, msgs, id).Some?
    ensures RegisteredAs(rules, msgs, j, id)
  {
    var n := |msgs| - 1;
    if FirstType(rules, msgs[..n], id).Some? {
      j := FirstTypeFrom(rules, msgs[..n], id);
      RegisteredEarlier(rules, msgs, n, j, id);
    } else {
      j := n;
    }
  }

  /** There is a first type exactly when some registration was answered OK under the id. */
  lemma FirstTypeIff(rules: seq<A.Threshold>, msgs: seq<Msg>, id: string)
    ensures FirstType(rules, msgs, id).Some? <==> exists j: nat :: RegisteredAs(rules, msgs, j, id)
  {
    if FirstType(rules, msgs, id).Some? {
      var j := FirstTypeFrom(rules, msgs, id);
    }
    if j: nat :| RegisteredAs(rules, msgs, j, id) {
      FirstTypeFound(rules, msgs, j, id);
    }
  }

  // ---------- main results ----------

  /** The server knows an id exactly when some earlier registration was answered OK and is stored under it. */
  lemma KnownIff(rules: seq<A.Threshold>, msgs: seq<Msg>, k: nat, id: string)
    requires k <= |msgs|
    ensures S.Has(WorldAfter(rules, msgs[..k]).registry, id) <==> exists j: nat :: j < k && RegisteredAs(rules, msgs, j, id)
  {
    LookupIsFirstType(rules, msgs[..k], id);
    FirstTypeIff(rules, msgs[..k], id);
    forall j: nat | j < k ensures RegisteredAs(rules, msgs[..k], j, id) == RegisteredAs(rules, msgs, j, id) {
      RegisteredEarlier(rules, msgs, k, j, id);
    }
    if j: nat :| RegisteredAs(rules, msgs[..k], j, id) {
      assert j < k && RegisteredAs(rules, msgs, j, id);
    }
    if j: nat :| j < k && RegisteredAs(rules, msgs, j, id) {
      assert RegisteredAs(rules, msgs[..k], j, id);
    }
  }

  /** A measurement with enough arguments is answered OK exactly when some earlier registration was
      answered OK and is stored under the measurement's id, and 404 exactly when none was. */
  lemma MeasurementOkIff(rules: seq<A.Threshold>, msgs: seq<Msg>, k: nat)
    requires k < |msgs| && IsMeasurement(msgs[k])
    ensures AnswerTo(rules, msgs, k).response == OkLine("MEASUREMENT_RECEIVED")
       <==> exists j: nat :: j < k && RegisteredAs(rules, msgs, j, msgs[k].words[1])
    ensures AnswerTo(rules, msgs, k).response == ErrorLine("404", "Sensor not registered")
       <==> !exists j: nat :: j < k && RegisteredAs(rules, msgs, j, msgs[k].words[1])
  {
    MeasurementAnswer(WorldAfter(rules, msgs[..k]), msgs[k]);
    KnownIff(rules, msgs, k, msgs[k].words[1]);
  }

  /** How many registrations were answered OK for an id that was not known before. */
  function NewSensors(rules: seq<A.Threshold>, msgs: seq<Msg>): nat {
    if msgs == [] then 0 else
      var n := |msgs| - 1;
      NewSensors(rules, msgs[..n]) +
      if IsRegister(msgs[n]) && FirstType(rules, msgs[..n], msgs[n].words[1]).None?
         && AnswerTo(rules, msgs, n).response == OkLine("SENSOR_REGISTERED") then 1 else 0
  }

  lemma SizeStep(r: seq<S.Entry>, op: R.Op)
    ensures |R.Apply(r, op)| == |r| + if op.Register? && !S.Has(r, op.id) && S.Accepts(r, op.id) then 1 else 0
  {
  }

  lemma {:induction false} StoredIsNew(rules: seq<A.Threshold>, msgs: seq<Msg>)
    ensures |WorldAfter(rules, msgs).registry| == NewSensors(rules, msgs)
  {
    if msgs != [] {
      var n := |msgs| - 1;
      var w, m := WorldAfter(rules, msgs[..n]), msgs[n];
      StoredIsNew(rules, msgs[..n]);
      AnswerRegistry(w, m);
      if IsRegister(m) {
        LookupIsFirstType(rules, msgs[..n], m.words[1]);
        RegisterAnswer(w, m);
        S.AcceptsIff(w.registry, m.words[1]);
        SizeStep(w.registry, OpsOf(m)[0]);
      } else if IsMeasurement(m) {
        SizeStep(w.registry, OpsOf(m)[0]);
      }
    }
  }

  /** In every conversation a registration with enough arguments is answered OK exactly when an earlier
      one stored under its id was, or fewer than 50 new sensors were registered before; otherwise 500. */
  lemma RegistrationOkIff(rules: seq<A.Threshold>, msgs: seq<Msg>, k: nat)
    requires k < |msgs| && IsRegister(msgs[k])
    ensures var response := AnswerTo(rules, msgs, k).response;
            && (response == OkLine("SENSOR_REGISTERED")
                <==> (exists j: nat :: j < k && RegisteredAs(rules, msgs, j, msgs[k].words[1]))
                     || NewSensors(rules, msgs[..k]) < 50)
            && (response != OkLine("SENSOR_REGISTERED") ==> response == ErrorLine("500", "Failed to register sensor"))
  {
    var w := WorldAfter(rules, msgs[..k]);
    RegisterAnswer(w, msgs[k]);
    S.HasIff(w.registry, msgs[k].words[1]);
    KnownIff(rules, msgs, k, msgs[k].words[1]);
    StoredIsNew(rules, msgs[..k]);
  }

  /** A sensor with an id of at most 31 characters that was answered OK once is answered OK ever after. */
  lemma RegisteredForGood(rules: seq<A.Threshold>, msgs: seq<Msg>, j: nat, k: nat)
    requires j < k < |msgs| && IsRegister(msgs[j]) && IsRegister(msgs[k]) && msgs[j].words[1] == msgs[k].words[1]
    requires |msgs[j].words[1]| <= 31 && AnswerTo(rules, msgs, j).response == OkLine("SENSOR_REGISTERED")
    ensures AnswerTo(rules, msgs, k).response == OkLine("SENSOR_REGISTERED")
  {
    assert RegisteredAs(rules, msgs, j, msgs[k].words[1]);
    RegistrationOkIff(rules, msgs, k);
  }

  /** With ids of at most 31 characters in registrations: exactly when that very id was registered. */
  lemma MeasurementOkShort(rules: seq<A.Threshold>, msgs: seq<Msg>, k: nat)
    requires k < |msgs| && IsMeasurement(msgs[k])
    requires forall j :: 0 <= j < k && IsRegister(msgs[j]) ==> |msgs[j].words[1]| <= 31
    ensures AnswerTo(rules, msgs, k).response == OkLine("MEASUREMENT_RECEIVED")
       <==> exists j: nat :: j < k && IsRegister(msgs[j]) && msgs[j].words[1] == msgs[k].words[1]
                             && AnswerTo(rules, msgs, j).response == OkLine("SENSOR_REGISTERED")
  {
    MeasurementOkIff(rules, msgs, k);
    if j: nat :| j < k && RegisteredAs(rules, msgs, j, msgs[k].words[1]) {
      assert IsRegister(msgs[j]) && msgs[j].words[1] == msgs[k].words[1];
    }
    if j: nat :| j < k && IsRegister(msgs[j]) && msgs[j].words[1] == msgs[k].words[1]
                 && AnswerTo(rules, msgs, j).response == OkLine("SENSOR_REGISTERED") {
      assert RegisteredAs(rules, msgs, j, msgs[k].words[1]);
    }
  }

  /** A measurement is broadcast exactly when its sensor was registered and the value satisfies some
      active threshold of the type that was registered first; the alert names that type. */
  lemma BroadcastIff(rules: seq<A.Threshold>, msgs: seq<Msg>, k: nat)
    requires k < |msgs| && IsMeasurement(msgs[k])
    ensures var ws := msgs[k].words; var ty := FirstType(rules, msgs[..k], ws[1]); var value := Decimals.Atof(ws[2]);
            var alert := AnswerTo(rules, msgs, k).alert;
            && (alert.Some? <==> ty.Some? && exists i: nat :: i < |rules| && A.Breaks(rules[i], ty.value, value))
            && (alert.Some? ==> alert.value == H.AlertText(ws[1], ty.value, value, ws[3]))
  {
    var ws := msgs[k].words;
    var w := WorldAfter(rules, msgs[..k]);
    var value := Decimals.Atof(ws[2]);
    RegistryIsReplay(rules, msgs[..k]);
    LookupIsFirstType(rules, msgs[..k], ws[1]);
    MeasurementAnswer(w, msgs[k]);
    if S.Has(w.registry, ws[1]) {
      AlertRuns.AnyBreaksIff(rules, ws[1], w.registry[S.Index(w.registry, ws[1])].ty, value);
    }
  }

  /** Only measurements add alerts or are broadcast. */
  lemma OthersRaiseNothing(w: World, m: Msg)
    requires !IsMeasurement(m)
    ensures Answer(w, m.words, m.env).alert == H.None && Answer(w, m.words, m.env).world.history == w.history
  {
    Recognised(m);
  }

  /** The alerts that one reading adds: one for each rule it breaks, in the order of the rules, unresolved,
      each reporting its own rule and the reading, and stamped when it was added. */
  ghost predicate RaisedBy(h: seq<A.Alert>, rules: seq<A.Threshold>, id: string, ty: string, value: real,
                           clock: int -> int)
  {
    var at := AlertRuns.FiringAt(rules, ty, value);
    && |h| == |at| == |AlertRuns.Broken(rules, ty, value)|
    && forall j :: 0 <= j < |at| ==>
         && at[j] in AlertRuns.Broken(rules, ty, value) && (j > 0 ==> at[j - 1] < at[j])
         && A.Reports(h[j].alarm, rules[at[j]], id, ty, value) && h[j].stamp == clock(j) && !h[j].resolved
  }

  lemma BlockRaised(rules: seq<A.Threshold>, id: string, ty: string, value: real, clock: int -> int)
    ensures RaisedBy(A.Stamped(A.Block(rules, id, ty, value), clock), rules, id, ty, value, clock)
  {
    AlertRuns.BlockIsFilter(rules, id, ty, value);
    AlertRuns.BlockCount(rules, id, ty, value);
  }

  /** In every conversation a measurement adds to the alerts what its reading raises under the type that was
      registered first; nothing when its sensor was not registered, and nothing older changes. */
  lemma MeasurementRaises(rules: seq<A.Threshold>, msgs: seq<Msg>, k: nat)
    requires k < |msgs| && IsMeasurement(msgs[k])
    ensures var ws := msgs[k].words; var ty := FirstType(rules, msgs[..k], ws[1]);
            var before, after := WorldAfter(rules, msgs[..k]).history, AnswerTo(rules, msgs, k).world.history;
            && before <= after
            && (ty.None? ==> after == before)
            && (ty.Some? ==> RaisedBy(after[|before|..], rules, ws[1], ty.value, Decimals.Atof(ws[2]), msgs[k].env.clock))
  {
    var ws := msgs[k].words;
    var w := WorldAfter(rules, msgs[..k]);
    RegistryIsReplay(rules, msgs[..k]);
    LookupIsFirstType(rules, msgs[..k], ws[1]);
    MeasurementAnswer(w, msgs[k]);
    if S.Has(w.registry, ws[1]) {
      BlockRaised(rules, ws[1], w.registry[S.Index(w.registry, ws[1])].ty, Decimals.Atof(ws[2]), msgs[k].env.clock);
    }
  }

  // ---------- the fixed answers ----------

  lemma FixedBuilt()
    ensures NOT_FOUND == ErrorLine("404", "Command not found") && MISSING == ErrorLine("400", "Missing arguments")
    ensures BuildOk("OPERATOR_CONNECTED") == OkLine("OPERATOR_CONNECTED")
  {
    ErrorBuilt("404", "Command not found");
    ErrorBuilt("400", "Missing arguments");
    OkBuilt("OPERATOR_CONNECTED");
  }

  lemma StatusBuilt()
    ensures BuildStatus("5 sensors active - System OK") == "STATUS " + "5 sensors active - System OK" + "\r\n"
  {
  }

  /** Messages whose answer does not depend on the stores: none of them changes anything. */
  lemma FixedAnswers(w: World, m: Msg)
    requires m.words == [] || (!IsRegister(m) && !IsMeasurement(m) && !IsLogin(m))
    requires m.words != [] ==> !Spells(m.words[0], "GET_SENSORS") && !Spells(m.words[0], "GET_ALERTS")
    ensures var o := Answer(w, m.words, m.env);
            && o.world == w && o.alert == H.None && !o.login
            && o.response ==
               if m.words == [] then ErrorLine("404", "Command not found")
               else if Spells(m.words[0], "PING") then "PONG\r\n"
               else if Spells(m.words[0], "GET_STATUS") then "STATUS " + "5 sensors active - System OK" + "\r\n"
               else if Spells(m.words[0], "OPERATOR_IDENTIFY") then OkLine("OPERATOR_CONNECTED")
               else if Spells(m.words[0], "REGISTER_SENSOR") || Spells(m.words[0], "MEASUREMENT")
                       || Spells(m.words[0], "LOGIN")
               then ErrorLine("400", "Missing arguments")
               else ErrorLine("404", "Command not found")
  {
    FixedBuilt();
    StatusBuilt();
    Recognised(m);
    if m.words != [] {
      CommandTable(m.words[0]);
    }
  }
}
