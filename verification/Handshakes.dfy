/** First contact with the server, from the bytes that clients send: login of an operator, registration
    of a sensor. */
module Handshakes {
  import opened Protocol
  import opened Server
  import opened ServerRuns
  import C = SensorClient
  import S = SensorManager
  import H = Handlers

  lemma SpelledIsToken(word: string, name: string)
    requires Spells(word, name) && CapitalName(name) && name != []
    ensures C.Token(word)
  {
    forall i | 0 <= i < |word| ensures word[i] > ' ' {
      assert word[i] == name[i] || word[i] as int == name[i] as int + 32;
    }
  }

  lemma ThreeWords(a: string, b: string, c: string, text: string)
    requires C.Token(a) && C.Token(b) && C.Token(c) && text == a + " " + b + " " + c + "\r\n"
    ensures Words(FirstLine(text)) == [a, b, c]
  {
    var ws := [a, b, c];
    assert ws[1..] == [b, c] && ws[1..][1..] == [c];
    assert Join(ws[1..]) == b + " " + c;
    assert Join(ws) == a + " " + (b + " " + c);
    assert text == Join(ws) + "\r\n";
    C.TokensParse(ws, text);
  }

  lemma OneWordLine(word: string, text: string)
    requires C.Token(word) && text == word + "\r\n"
    ensures Words(FirstLine(text)) == [word]
  {
    assert Join([word]) == word;
    C.TokensParse([word], text);
  }

  lemma LoginWords(command: string, user: string, password: string)
    requires Spells(command, "LOGIN") && C.Token(user) && C.Token(password)
    ensures Words(FirstLine(command + " " + user + " " + password + "\r\n")) == [command, user, password]
  {
    CommandNames();
    SpelledIsToken(command, "LOGIN");
    ThreeWords(command, user, password, command + " " + user + " " + password + "\r\n");
  }

  /** A login line, whatever its capitalisation: the connection becomes an operator exactly when the auth
      service grants it, the answer tells which of the three outcomes it was, and no store changes. */
  method LogIn(server: Handler, command: string, user: string, password: string, env: Env)
    returns (response: string, operator: bool)
    requires server.Valid() && Spells(command, "LOGIN") && C.Token(user) && C.Token(password)
    requires |command + " " + user + " " + password + "\r\n"| < MAX_BUFFER_SIZE
    modifies server.sensors, server.sensors.sensors, server.alerts, server.alerts.thresholds, server.alerts.alerts
    modifies server.msg, server.msg.raw, server.msg.args
    ensures server.Valid() && server.View() == old(server.View())
    ensures operator <==> env.auth == 1
    ensures operator <==> "OK" <= response
    ensures operator && |env.role| <= 63 ==> response == OkLine("ROLE_" + env.role)
    ensures env.auth == 0 <==> response == ErrorLine("401", "Invalid credentials")
    ensures env.auth != 0 && env.auth != 1 <==> response == ErrorLine("503", "Auth service unavailable")
  {
    var line := command + " " + user + " " + password + "\r\n";
    LoginWords(command, user, password);
    LoginTells(server.View(), Msg([command, user, password], env));
    assert line[..|line|] == line;
    var alert;
    response, alert, operator := server.Handle(line, |line|, env);
  }

  /** OPERATOR_IDENTIFY is answered to anybody and makes nobody an operator. */
  method Identify(server: Handler, command: string, env: Env) returns (response: string, operator: bool)
    requires server.Valid() && Spells(command, "OPERATOR_IDENTIFY")
    modifies server.sensors, server.sensors.sensors, server.alerts, server.alerts.thresholds, server.alerts.alerts
    modifies server.msg, server.msg.raw, server.msg.args
    ensures server.Valid() && server.View() == old(server.View())
    ensures response == OkLine("OPERATOR_CONNECTED") && "OK" <= response && !operator
  {
    var line := command + "\r\n";
    assert OkLine("OPERATOR_CONNECTED")[..2] == "OK";
    IdentifyAnswer(server.View(), command, env);
    assert line[..|line|] == line;
    var alert;
    response, alert, operator := server.Handle(line, |line|, env);
  }

  lemma IdentifyIsOther(word: string)
    requires Spells(word, "OPERATOR_IDENTIFY")
    ensures !Spells(word, "GET_SENSORS") && !Spells(word, "GET_ALERTS")
    ensures !Spells(word, "PING") && !Spells(word, "GET_STATUS")
    ensures !Spells(word, "REGISTER_SENSOR") && !Spells(word, "MEASUREMENT") && !Spells(word, "LOGIN")
  {
  }

  lemma IdentifyAnswer(w: World, command: string, env: Env)
    requires Spells(command, "OPERATOR_IDENTIFY")
    ensures Answer(w, Words(FirstLine(command + "\r\n")), env) == Outcome(w, OkLine("OPERATOR_CONNECTED"), H.None, false)
  {
    CommandNames();
    SpelledIsToken(command, "OPERATOR_IDENTIFY");
    OneWordLine(command, command + "\r\n");
    IdentifyIsOther(command);
    FixedAnswers(w, Msg([command], env));
  }

  lemma ClientCommands()
    ensures Spells("LOGIN", "LOGIN") && Spells("OPERATOR_IDENTIFY", "OPERATOR_IDENTIFY")
  {
  }

  /** The handshake of the operator client, which looks for OK at the start of both answers: it gets
      through exactly when the login is granted, and then the connection is an operator. */
  method Authenticate(server: Handler, user: string, password: string, env: Env, later: Env)
    returns (accepted: bool, operator: bool)
    requires server.Valid() && C.Token(user) && C.Token(password)
    requires |"LOGIN" + " " + user + " " + password + "\r\n"| < MAX_BUFFER_SIZE
    modifies server.sensors, server.sensors.sensors, server.alerts, server.alerts.thresholds, server.alerts.alerts
    modifies server.msg, server.msg.raw, server.msg.args
    ensures server.Valid() && server.View() == old(server.View())
    ensures accepted == operator == (env.auth == 1)
  {
    ClientCommands();
    var response;
    response, operator := LogIn(server, "LOGIN", user, password, env);
    accepted := "OK" <= response;
    if accepted {
      var second, again := Identify(server, "OPERATOR_IDENTIFY", later);
      accepted := "OK" <= second;
    }
  }

  lemma RegisterHandled(w: World, id: string, ty: string, env: Env)
    requires C.Token(id) && C.Token(ty)
    ensures Words(FirstLine(C.RegisterMessage(id, ty))) == ["REGISTER_SENSOR", id, ty]
    ensures Answer(w, ["REGISTER_SENSOR", id, ty], env).world.registry == S.AfterRegister(w.registry, ty, id, env.now)
  {
    C.RegisterMessageParses(id, ty);
    C.MessageCommands();
  }

  /** The registration message of a sensor script: the script goes on, because the answer begins with OK,
      exactly when the id is stored already or fewer than 50 sensors are. */
  method RegisterSensor(server: Handler, id: string, ty: string, env: Env) returns (accepted: bool)
    requires server.Valid() && C.Token(id) && C.Token(ty) && |C.RegisterMessage(id, ty)| < MAX_BUFFER_SIZE
    modifies server.sensors, server.sensors.sensors, server.alerts, server.alerts.thresholds, server.alerts.alerts
    modifies server.msg, server.msg.raw, server.msg.args
    ensures server.Valid()
    ensures server.View().registry == S.AfterRegister(old(server.View()).registry, ty, id, env.now)
    ensures accepted <==> (exists e :: e in old(server.View()).registry && e.id == id) || |old(server.View()).registry| < 50
  {
    var line := C.RegisterMessage(id, ty);
    RegisterHandled(server.View(), id, ty, env);
    RegisterAnswer(server.View(), Msg(["REGISTER_SENSOR", id, ty], env));
    AcceptedIffOk();
    assert line[..|line|] == line;
    var response, alert, login := server.Handle(line, |line|, env);
    accepted := "OK" <= response;
  }

  lemma AcceptedIffOk()
    ensures "OK" <= OkLine("SENSOR_REGISTERED") && !("OK" <= ErrorLine("500", "Failed to register sensor"))
  {
    assert OkLine("SENSOR_REGISTERED")[..2] == "OK" && ErrorLine("500", "Failed to register sensor")[0] == 'E';
  }
}
