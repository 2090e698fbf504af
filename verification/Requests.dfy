/** What each connection asked for and what the server did about it, under every interleaving: each request
    is carried out exactly once and in order, answered exactly once, and nothing is done unasked. */
module Requests {
  import opened Handlers
  import opened LockOrder
  import opened OperatorTable
  import opened SafeRuns
  import opened Streams
  import Broadcasts
  import R = RegistryRuns
  import A = AlertEngine

  // ---------- from the moves alone ----------

  /** The requests that connection t received, in order. */
  function Received(thresholds: seq<A.Threshold>, moves: seq<Move>, t: nat): seq<Request>
    requires LegalRun(thresholds, moves)
  {
    if moves == [] then [] else
      var n := |moves| - 1;
      var before := Received(thresholds, moves[..n], t);
      var s := Reached(thresholds, moves[..n]);
      if moves[n].Run? && moves[n].t == t && s.conns[t].pc.Recv? then before + [moves[n].inp.request] else before
  }

  /** What a request asks the stores or the operator table to do: a refused login asks for nothing. */
  function Asks(request: Request): seq<Request> {
    match request
    case Register(_, _) => [request]
    case Measure(_, _, _) => [request]
    case Login(granted) => if granted then [request] else []
    case GetSensors => [request]
    case GetAlerts => [request]
    case _ => []
  }

  function AllAsked(requests: seq<Request>): seq<Request> {
    if requests == [] then [] else AllAsked(requests[..|requests| - 1]) + Asks(requests[|requests| - 1])
  }

  // ---------- from the states alone ----------

  function OpRequest(op: R.Op): Request {
    match op
    case Register(ty, id, now) => Register(id, ty)
    case Measure(id, value, unit, now) => Measure(id, value, unit)
  }

  /** What a step of handler t did: the registry operation or the login that appeared, or the list that
      was read under the mutex of its store. */
  function Did(s: State, q: State, t: nat): seq<Request>
    requires t < |s.conns|
  {
    if |q.store.ops| > |s.store.ops| then [OpRequest(q.store.ops[|q.store.ops| - 1])]
    else if |q.table.logins| > |s.table.logins| then [Login(true)]
    else match s.conns[t].pc
      case ListHold(l) => [if l == Sensors then GetSensors else GetAlerts]
      case _ => []
  }

  function Carried(thresholds: seq<A.Threshold>, moves: seq<Move>, t: nat): seq<Request>
    requires LegalRun(thresholds, moves)
  {
    if moves == [] then [] else
      var n := |moves| - 1;
      var before := Carried(thresholds, moves[..n], t);
      if moves[n].Run? && moves[n].t == t
      then before + Did(Reached(thresholds, moves[..n]), Reached(thresholds, moves), t) else before
  }

  /** The request that is still to be carried out at a program point. */
  function OnItsWay(pc: Pc): seq<Request> {
    match pc
    case RegisterWait(id, ty) => [Register(id, ty)]
    case RegisterHold(id, ty) => [Register(id, ty)]
    case MeasureWait(id, v, u) => [Measure(id, v, u)]
    case MeasureHold(id, v, u) => [Measure(id, v, u)]
    case LoginWait => [Login(true)]
    case LoginHold => [Login(true)]
    case ListWait(l) => [if l == Sensors then GetSensors else GetAlerts]
    case ListHold(l) => [if l == Sensors then GetSensors else GetAlerts]
    case _ => []
  }

  // ---------- each request once ----------

  /** What the step out of a program point does. */
  function Effect(pc: Pc): seq<Request> {
    if pc.RegisterHold? || pc.MeasureHold? || pc.LoginHold? || pc.ListHold? then OnItsWay(pc) else []
  }

  lemma OpsAfter(s: State, t: nat, inp: Input)
    requires t < |s.conns|
    ensures NextStore(s, t, inp).ops == s.store.ops +
              match s.conns[t].pc
              case RegisterHold(id, ty) => [R.Register(ty, id, inp.now)]
              case MeasureHold(id, v, u) => [R.Measure(id, v, u, inp.now)]
              case _ => []
  {
    assert s.store.ops + [] == s.store.ops;
  }

  lemma LoginsAfter(s: State, t: nat)
    requires t < |s.conns|
    ensures NextTable(s, t).logins == s.table.logins + if s.conns[t].pc.LoginHold? then [t] else []
  {
    assert s.table.logins + [] == s.table.logins;
  }

  lemma DidIsEffect(s: State, t: nat, inp: Input)
    requires CanRun(s, t, inp)
    ensures Did(s, Step(s, t, inp), t) == Effect(s.conns[t].pc)
  {
    OpsAfter(s, t, inp);
    LoginsAfter(s, t);
  }

  lemma WayStep(s: State, t: nat, inp: Input)
    requires t < |s.conns| && PcOk(s.conns[t].pc)
    ensures OnItsWay(s.conns[t].pc) + (if s.conns[t].pc.Recv? then Asks(inp.request) else [])
         == Effect(s.conns[t].pc) + OnItsWay(NextPc(s, t, inp))
  {
    var pc := s.conns[t].pc;
    if pc.Recv? {
      WayDispatched(inp.request);
    } else if StorePart(pc) || ScanPart(pc) {
      WayInStores(s, t, inp);
    } else if pc.LogWait? || pc.LogHold? {
      WayInLog(s, t, inp);
    }
  }

  lemma WayDispatched(request: Request)
    ensures OnItsWay(Recv) == Effect(Recv) == [] && OnItsWay(Dispatch(request)) == Asks(request)
  {
  }

  lemma WayInStores(s: State, t: nat, inp: Input)
    requires t < |s.conns| && !s.conns[t].pc.Recv? && (StorePart(s.conns[t].pc) || ScanPart(s.conns[t].pc))
    ensures OnItsWay(s.conns[t].pc) == Effect(s.conns[t].pc) + OnItsWay(NextPc(s, t, inp))
  {
  }

  lemma WayInLog(s: State, t: nat, inp: Input)
    requires t < |s.conns| && PcOk(s.conns[t].pc) && (s.conns[t].pc.LogWait? || s.conns[t].pc.LogHold?)
    ensures OnItsWay(s.conns[t].pc) == Effect(s.conns[t].pc) == OnItsWay(NextPc(s, t, inp)) == []
  {
  }

  lemma StepCarries(s: State, t: nat, inp: Input)
    requires CanRun(s, t, inp) && PcOk(s.conns[t].pc)
    ensures OnItsWay(s.conns[t].pc) + (if s.conns[t].pc.Recv? then Asks(inp.request) else [])
         == Did(s, Step(s, t, inp), t) + OnItsWay(NextPc(s, t, inp))
  {
    WayStep(s, t, inp);
    DidIsEffect(s, t, inp);
  }

  /** Nothing is known of connections that do not exist yet. */
  lemma {:induction false} NothingBefore(thresholds: seq<A.Threshold>, moves: seq<Move>, t: nat)
    requires LegalRun(thresholds, moves) && t >= |Reached(thresholds, moves).conns|
    ensures Received(thresholds, moves, t) == [] && Carried(thresholds, moves, t) == []
  {
    if moves != [] {
      var n := |moves| - 1;
      var s := Reached(thresholds, moves[..n]);
      match moves[n]
      case Accept(fd) => NothingBefore(thresholds, moves[..n], t);
      case Run(u, inp) =>
        StepFrame(s, u, inp);
        NothingBefore(thresholds, moves[..n], t);
    }
  }

  lemma AskedOneMore(requests: seq<Request>, request: Request)
    ensures AllAsked(requests + [request]) == AllAsked(requests) + Asks(request)
  {
    assert (requests + [request])[..|requests|] == requests;
  }

  lemma Regroup(a: seq<Request>, carried: seq<Request>, way: seq<Request>, more: seq<Request>,
                did: seq<Request>, next: seq<Request>)
    requires a == carried + way && way + more == did + next
    ensures a + more == (carried + did) + next
  {
    assert a + more == carried + (way + more);
  }

  /** Moves of others leave a handler where it is, or bring it. */
  lemma PcOfOther(thresholds: seq<A.Threshold>, moves: seq<Move>, t: nat)
    requires LegalRun(thresholds, moves) && moves != [] && !(moves[|moves| - 1].Run? && moves[|moves| - 1].t == t)
    requires t < |Reached(thresholds, moves).conns|
    ensures var s := Reached(thresholds, moves[..|moves| - 1]);
            Reached(thresholds, moves).conns[t].pc == if t < |s.conns| then s.conns[t].pc else LogWait(LogWait(Recv))
  {
    var n := |moves| - 1;
    var s := Reached(thresholds, moves[..n]);
    match moves[n]
    case Accept(fd) =>
      if t < |s.conns| {
        assert Accepted(s, fd).conns[t] == s.conns[t];
      }
    case Run(u, inp) => StepFrame(s, u, inp);
  }

  ghost predicate CarriedOk(thresholds: seq<A.Threshold>, moves: seq<Move>, t: nat, pc: Pc)
    requires LegalRun(thresholds, moves)
  {
    AllAsked(Received(thresholds, moves, t)) == Carried(thresholds, moves, t) + OnItsWay(pc)
  }

  lemma CarriedByStep(thresholds: seq<A.Threshold>, moves: seq<Move>, t: nat, inp: Input)
    requires LegalRun(thresholds, moves) && moves != [] && moves[|moves| - 1] == Run(t, inp)
    requires var s := Reached(thresholds, moves[..|moves| - 1]); t < |s.conns| && PcOk(s.conns[t].pc)
    requires CarriedOk(thresholds, moves[..|moves| - 1], t, Reached(thresholds, moves[..|moves| - 1]).conns[t].pc)
    ensures CarriedOk(thresholds, moves, t, NextPc(Reached(thresholds, moves[..|moves| - 1]), t, inp))
  {
    var n := |moves| - 1;
    var s := Reached(thresholds, moves[..n]);
    var before := Received(thresholds, moves[..n], t);
    var more := if s.conns[t].pc.Recv? then Asks(inp.request) else [];
    StepCarries(s, t, inp);
    AskedOneMore(before, inp.request);
    assert AllAsked(before) + [] == AllAsked(before);
    Regroup(AllAsked(before), Carried(thresholds, moves[..n], t), OnItsWay(s.conns[t].pc), more,
            Did(s, Step(s, t, inp), t), OnItsWay(NextPc(s, t, inp)));
  }

  lemma CarriedByOther(thresholds: seq<A.Threshold>, moves: seq<Move>, t: nat, pc: Pc)
    requires LegalRun(thresholds, moves) && moves != [] && !(moves[|moves| - 1].Run? && moves[|moves| - 1].t == t)
    requires CarriedOk(thresholds, moves[..|moves| - 1], t, pc)
    ensures CarriedOk(thresholds, moves, t, pc)
  {
  }

  lemma NothingYet(received: seq<Request>, carried: seq<Request>)
    requires received == [] && carried == []
    ensures AllAsked(received) == carried + OnItsWay(LogWait(LogWait(Recv)))
  {
  }

  lemma CarriedNew(thresholds: seq<A.Threshold>, moves: seq<Move>, t: nat)
    requires LegalRun(thresholds, moves) && t >= |Reached(thresholds, moves).conns|
    ensures CarriedOk(thresholds, moves, t, LogWait(LogWait(Recv)))
  {
    NothingBefore(thresholds, moves, t);
    NothingYet(Received(thresholds, moves, t), Carried(thresholds, moves, t));
  }

  /** Under every interleaving: what a connection asked for is what was carried out for it, in the same
      order, and then what is still on its way. */
  lemma {:induction false} CarriedInOrder(thresholds: seq<A.Threshold>, moves: seq<Move>, t: nat)
    requires LegalRun(thresholds, moves) && t < |Reached(thresholds, moves).conns|
    ensures CarriedOk(thresholds, moves, t, Reached(thresholds, moves).conns[t].pc)
  {
    var n := |moves| - 1;
    var s := Reached(thresholds, moves[..n]);
    var q := Reached(thresholds, moves);
    if moves[n].Run? && moves[n].t == t {
      StepFrame(s, t, moves[n].inp);
      CarriedInOrder(thresholds, moves[..n], t);
      LocksReached(thresholds, moves[..n]);
      CarriedByStep(thresholds, moves, t, moves[n].inp);
    } else {
      PcOfOther(thresholds, moves, t);
      if t < |s.conns| {
        CarriedInOrder(thresholds, moves[..n], t);
      } else {
        CarriedNew(thresholds, moves[..n], t);
      }
      CarriedByOther(thresholds, moves, t, q.conns[t].pc);
    }
  }

  // ---------- logins ----------

  function Count(requests: seq<Request>, r: Request): nat {
    if requests == [] then 0 else
      Count(requests[..|requests| - 1], r) + if requests[|requests| - 1] == r then 1 else 0
  }

  function Times(logins: seq<nat>, t: nat): nat {
    if logins == [] then 0 else Times(logins[..|logins| - 1], t) + if logins[|logins| - 1] == t then 1 else 0
  }

  lemma CountAppend(a: seq<Request>, b: seq<Request>, r: Request)
    requires |b| <= 1
    ensures Count(a + b, r) == Count(a, r) + if b == [r] then 1 else 0
  {
    if b == [] {
      assert a + b == a;
    } else {
      assert (a + b)[..|a|] == a;
    }
  }

  lemma {:induction false} CountAsked(requests: seq<Request>)
    ensures Count(AllAsked(requests), Login(true)) == Count(requests, Login(true))
  {
    if requests != [] {
      var n := |requests| - 1;
      CountAsked(requests[..n]);
      CountAppend(AllAsked(requests[..n]), Asks(requests[n]), Login(true));
    }
  }

  lemma TimesAppend(logins: seq<nat>, u: nat, t: nat)
    ensures Times(logins + [u], t) == Times(logins, t) + if u == t then 1 else 0
  {
    assert (logins + [u])[..|logins|] == logins;
  }

  lemma EffectIsLogin(pc: Pc)
    ensures Effect(pc) == [Login(true)] <==> pc.LoginHold?
    ensures |OnItsWay(pc)| <= 1
    ensures OnItsWay(pc) == [Login(true)] <==> pc.LoginWait? || pc.LoginHold?
  {
  }

  lemma LoginsStep(s: State, u: nat, inp: Input, t: nat)
    requires CanRun(s, u, inp)
    ensures Times(NextTable(s, u).logins, t) ==
            Times(s.table.logins, t) + if u == t && Did(s, Step(s, u, inp), u) == [Login(true)] then 1 else 0
  {
    LoginsAfter(s, u);
    DidIsEffect(s, u, inp);
    EffectIsLogin(s.conns[u].pc);
    if s.conns[u].pc.LoginHold? {
      TimesAppend(s.table.logins, u, t);
    } else {
      assert s.table.logins + [] == s.table.logins;
    }
  }

  lemma {:induction false} LoginsCarried(thresholds: seq<A.Threshold>, moves: seq<Move>, t: nat)
    requires LegalRun(thresholds, moves)
    ensures Times(Reached(thresholds, moves).table.logins, t) == Count(Carried(thresholds, moves, t), Login(true))
  {
    if moves != [] {
      var n := |moves| - 1;
      var s := Reached(thresholds, moves[..n]);
      LoginsCarried(thresholds, moves[..n], t);
      match moves[n]
      case Accept(fd) =>
      case Run(u, inp) =>
        LoginsStep(s, u, inp, t);
        if u == t {
          CountAppend(Carried(thresholds, moves[..n], t), Did(s, Step(s, u, inp), u), Login(true));
        }
    }
  }

  lemma LoginOnItsWay(asked: seq<Request>, carried: seq<Request>, pc: Pc)
    requires asked == carried + OnItsWay(pc)
    ensures Count(asked, Login(true)) == Count(carried, Login(true)) + if pc.LoginWait? || pc.LoginHold? then 1 else 0
  {
    EffectIsLogin(pc);
    CountAppend(carried, OnItsWay(pc), Login(true));
  }

  /** Under every interleaving a connection stands in the list of logins as often as it received a granted
      login, less one while the last of them is on its way to the table. */
  lemma LoginsReceived(thresholds: seq<A.Threshold>, moves: seq<Move>, s: State, t: nat)
    requires LegalRun(thresholds, moves) && s == Reached(thresholds, moves) && t < |s.conns|
    ensures Times(s.table.logins, t) + (if s.conns[t].pc.LoginWait? || s.conns[t].pc.LoginHold? then 1 else 0)
         == Count(Received(thresholds, moves, t), Login(true))
  {
    CarriedInOrder(thresholds, moves, t);
    LoginsCarried(thresholds, moves, t);
    CountAsked(Received(thresholds, moves, t));
    LoginOnItsWay(AllAsked(Received(thresholds, moves, t)), Carried(thresholds, moves, t), s.conns[t].pc);
  }

  lemma {:induction false} TimesIn(logins: seq<nat>, t: nat, i: nat)
    requires i < |logins| && logins[i] == t
    ensures Times(logins, t) > 0
  {
    if i < |logins| - 1 {
      TimesIn(logins[..|logins| - 1], t, i);
    }
  }

  /** A connection that never received a granted login has no slot in any interleaving. */
  lemma NoLoginNoSlot(thresholds: seq<A.Threshold>, moves: seq<Move>, s: State, t: nat, i: nat)
    requires LegalRun(thresholds, moves) && s == Reached(thresholds, moves) && t < |s.conns|
    requires Count(Received(thresholds, moves, t), Login(true)) == 0
    requires i < |s.table.slots|
    ensures i < |s.table.logins| && s.table.logins[i] != t
    ensures s.table.slots[i].mutex != Some(t)
  {
    LoginsReceived(thresholds, moves, s, t);
    TableReached(thresholds, moves);
    if s.table.logins[i] == t {
      TimesIn(s.table.logins, t, i);
    }
  }

  /** And in a safe run it is sent no alert. */
  lemma NoLoginNoAlert(thresholds: seq<A.Threshold>, moves: seq<Move>, s: State, t: nat)
    requires SafeRun(thresholds, moves) && s == Reached(thresholds, moves) && t < |s.conns|
    requires Count(Received(thresholds, moves, t), Login(true)) == 0
    ensures Broadcasts.Texts(s.conns[t].chunks) == []
  {
    TableReached(thresholds, moves);
    forall i: nat | i < |s.table.slots| ensures s.table.logins[i] != t {
      NoLoginNoSlot(thresholds, moves, s, t, i);
    }
    Broadcasts.NoSlotNoAlert(thresholds, moves, s, t);
  }

  // ---------- when a connection is given up ----------

  /** A send of the connection's own response failed. */
  function SendBroke(thresholds: seq<A.Threshold>, moves: seq<Move>, t: nat): bool
    requires LegalRun(thresholds, moves)
  {
    moves != [] &&
      var n := |moves| - 1;
      var s := Reached(thresholds, moves[..n]);
      || SendBroke(thresholds, moves[..n], t)
      || (moves[n].Run? && moves[n].t == t && s.conns[t].pc.Sending?
          && s.conns[t].pc.sent < |s.conns[t].pc.response| && moves[n].inp.sent <= 0)
  }

  lemma StepLeaves(s: State, t: nat, inp: Input)
    requires CanRun(s, t, inp) && PcOk(s.conns[t].pc)
    ensures var pc := s.conns[t].pc;
            Ending(NextPc(s, t, inp)) <==>
              || Ending(pc) || (pc.Recv? && inp.request.HangUp?)
              || (pc.Sending? && pc.sent < |pc.response| && inp.sent <= 0)
  {
    if s.conns[t].pc.LogWait? || s.conns[t].pc.LogHold? {
      LogLeaves(s, t, inp);
    } else if StorePart(s.conns[t].pc) || ScanPart(s.conns[t].pc) {
      StoreLeaves(s, t, inp);
    }
  }

  lemma LogLeaves(s: State, t: nat, inp: Input)
    requires CanRun(s, t, inp) && PcOk(s.conns[t].pc) && (s.conns[t].pc.LogWait? || s.conns[t].pc.LogHold?)
    ensures Ending(NextPc(s, t, inp)) <==> Ending(s.conns[t].pc)
  {
  }

  lemma StoreLeaves(s: State, t: nat, inp: Input)
    requires CanRun(s, t, inp) && (StorePart(s.conns[t].pc) || ScanPart(s.conns[t].pc))
    ensures Ending(NextPc(s, t, inp)) <==> s.conns[t].pc.Recv? && inp.request.HangUp?
  {
  }

  lemma {:induction false} NotBrokenBefore(thresholds: seq<A.Threshold>, moves: seq<Move>, t: nat)
    requires LegalRun(thresholds, moves) && t >= |Reached(thresholds, moves).conns|
    ensures !SendBroke(thresholds, moves, t)
  {
    if moves != [] {
      var n := |moves| - 1;
      match moves[n]
      case Accept(fd) => NotBrokenBefore(thresholds, moves[..n], t);
      case Run(u, inp) =>
        StepFrame(Reached(thresholds, moves[..n]), u, inp);
        NotBrokenBefore(thresholds, moves[..n], t);
    }
  }

  ghost predicate LeavesAsTold(thresholds: seq<A.Threshold>, moves: seq<Move>, t: nat, pc: Pc)
    requires LegalRun(thresholds, moves)
  {
    Ending(pc) <==> HangUp in Received(thresholds, moves, t) || SendBroke(thresholds, moves, t)
  }

  lemma LeavesByStep(thresholds: seq<A.Threshold>, moves: seq<Move>, t: nat, inp: Input)
    requires LegalRun(thresholds, moves) && moves != [] && moves[|moves| - 1] == Run(t, inp)
    requires var s := Reached(thresholds, moves[..|moves| - 1]); t < |s.conns| && PcOk(s.conns[t].pc)
    requires LeavesAsTold(thresholds, moves[..|moves| - 1], t, Reached(thresholds, moves[..|moves| - 1]).conns[t].pc)
    ensures LeavesAsTold(thresholds, moves, t, NextPc(Reached(thresholds, moves[..|moves| - 1]), t, inp))
  {
    StepLeaves(Reached(thresholds, moves[..|moves| - 1]), t, inp);
  }

  lemma LeavesByOther(thresholds: seq<A.Threshold>, moves: seq<Move>, t: nat, pc: Pc)
    requires LegalRun(thresholds, moves) && moves != [] && !(moves[|moves| - 1].Run? && moves[|moves| - 1].t == t)
    requires LeavesAsTold(thresholds, moves[..|moves| - 1], t, pc)
    ensures LeavesAsTold(thresholds, moves, t, pc)
  {
  }

  lemma LeavesNew(thresholds: seq<A.Threshold>, moves: seq<Move>, t: nat)
    requires LegalRun(thresholds, moves) && t >= |Reached(thresholds, moves).conns|
    ensures LeavesAsTold(thresholds, moves, t, LogWait(LogWait(Recv)))
  {
    NothingBefore(thresholds, moves, t);
    NotBrokenBefore(thresholds, moves, t);
  }

  /** Under every interleaving a connection is on its way out exactly when it hung up or a send of a
      response to it failed. */
  lemma {:induction false} LeavesIff(thresholds: seq<A.Threshold>, moves: seq<Move>, t: nat)
    requires LegalRun(thresholds, moves) && t < |Reached(thresholds, moves).conns|
    ensures LeavesAsTold(thresholds, moves, t, Reached(thresholds, moves).conns[t].pc)
  {
    var n := |moves| - 1;
    var s := Reached(thresholds, moves[..n]);
    var q := Reached(thresholds, moves);
    if moves[n].Run? && moves[n].t == t {
      StepFrame(s, t, moves[n].inp);
      LeavesIff(thresholds, moves[..n], t);
      LocksReached(thresholds, moves[..n]);
      LeavesByStep(thresholds, moves, t, moves[n].inp);
    } else {
      PcOfOther(thresholds, moves, t);
      if t < |s.conns| {
        LeavesIff(thresholds, moves[..n], t);
      } else {
        LeavesNew(thresholds, moves[..n], t);
      }
      LeavesByOther(thresholds, moves, t, q.conns[t].pc);
    }
  }

  // ---------- each request is answered ----------

  function Responses(chunks: seq<Chunk>): nat {
    if chunks == [] then 0 else
      Responses(chunks[..|chunks| - 1]) + if chunks[|chunks| - 1].Response? then 1 else 0
  }

  /** Between receiving a request and starting its response. */
  predicate Working(pc: Pc) {
    match pc
    case LogWait(k) => Works(k)
    case LogHold(k) => Works(k)
    case _ => Works(pc)
  }

  predicate Works(pc: Pc) {
    pc.RegisterWait? || pc.RegisterHold? || pc.MeasureWait? || pc.MeasureHold? || pc.TypeWait? || pc.TypeHold?
    || pc.CheckWait? || pc.CheckHold? || pc.AlertWait? || pc.AlertLoop? || pc.AlertLock? || pc.AlertSend?
    || pc.AlertUnlock? || pc.LoginWait? || pc.LoginHold? || pc.LoginExit? || pc.ListWait? || pc.ListHold?
    || pc.RespondWait?
  }

  function Owed(pc: Pc): nat {
    if Working(pc) then 1 else 0
  }

  lemma WorkStep(s: State, t: nat, inp: Input)
    requires CanRun(s, t, inp) && PcOk(s.conns[t].pc)
    ensures var pc := s.conns[t].pc;
            Owed(NextPc(s, t, inp)) + (if pc.RespondWait? then 1 else 0)
            == Owed(pc) + if pc.Recv? && !inp.request.HangUp? then 1 else 0
  {
  }

  lemma ResponsesAppend(chunks: seq<Chunk>, c: Chunk)
    ensures Responses(chunks + [c]) == Responses(chunks) + if c.Response? then 1 else 0
  {
    assert (chunks + [c])[..|chunks|] == chunks;
  }

  lemma ResponsesOfPart(c: Conn, r: string, k: nat, n: nat)
    requires StreamOk(c) && c.pc == Sending(r, k) && k + n <= |r|
    ensures Responses(WithResponsePart(c, r, k, n).chunks) == Responses(c.chunks)
  {
    var front := c.chunks[..|c.chunks| - 1];
    assert c.chunks == front + [Response(r, k)];
    assert WithResponsePart(c, r, k, n).chunks == front + [Response(r, k + n)];
    ResponsesAppend(front, Response(r, k));
    ResponsesAppend(front, Response(r, k + n));
  }

  lemma OwnResponses(s: State, t: nat, inp: Input)
    requires CanRun(s, t, inp) && !s.conns[t].pc.AlertSend? && StreamOk(s.conns[t])
    ensures Responses(Step(s, t, inp).conns[t].chunks)
         == Responses(s.conns[t].chunks) + if s.conns[t].pc.RespondWait? then 1 else 0
  {
    var c := s.conns[t];
    if c.pc.RespondWait? {
      ResponsesAppend(c.chunks, Response(inp.response, 0));
    } else if c.pc.Sending? {
      SendingConnIs(s, t, inp);
      if c.pc.sent < |c.pc.response| {
        ResponsesOfPart(c, c.pc.response, c.pc.sent, Clamp(inp.sent));
      }
    } else {
      QuietConn(s, t, inp);
    }
  }

  lemma AlertResponses(s: State, t: nat, inp: Input, u: nat)
    requires TableInv(s) && ServesOpen(s) && CanRun(s, t, inp) && s.conns[t].pc.AlertSend? && u < |s.conns|
    ensures Responses(Step(s, t, inp).conns[u].chunks) == Responses(s.conns[u].chunks)
  {
    AlertedConns(s, t, inp, u);
    ResponsesAppend(s.conns[u].chunks, AlertLine(s.conns[t].pc.msg, Clamp(inp.sent)));
  }

  lemma ResponsesStep(s: State, u: nat, inp: Input, t: nat)
    requires TableInv(s) && ServesOpen(s) && CanRun(s, u, inp) && StreamOk(s.conns[u]) && t < |s.conns|
    ensures |Step(s, u, inp).conns| == |s.conns|
    ensures Responses(Step(s, u, inp).conns[t].chunks)
         == Responses(s.conns[t].chunks) + if u == t && s.conns[t].pc.RespondWait? then 1 else 0
  {
    StepFrame(s, u, inp);
    if s.conns[u].pc.AlertSend? {
      AlertResponses(s, u, inp, t);
    } else if u == t {
      OwnResponses(s, t, inp);
    } else {
      OthersQuiet(s, u, inp);
    }
  }

  function Questions(requests: seq<Request>): nat {
    if requests == [] then 0 else
      Questions(requests[..|requests| - 1]) + if requests[|requests| - 1].HangUp? then 0 else 1
  }

  lemma QuestionsAppend(requests: seq<Request>, request: Request)
    ensures Questions(requests + [request]) == Questions(requests) + if request.HangUp? then 0 else 1
  {
    assert (requests + [request])[..|requests|] == requests;
  }

  ghost predicate Answered(thresholds: seq<A.Threshold>, moves: seq<Move>, t: nat, c: Conn)
    requires LegalRun(thresholds, moves)
  {
    Responses(c.chunks) + Owed(c.pc) == Questions(Received(thresholds, moves, t))
  }

  lemma AnsweredByStep(thresholds: seq<A.Threshold>, moves: seq<Move>, u: nat, inp: Input, t: nat)
    requires SafeRun(thresholds, moves) && moves != [] && moves[|moves| - 1] == Run(u, inp)
    requires SafeRun(thresholds, moves[..|moves| - 1])
    requires var s := Reached(thresholds, moves[..|moves| - 1]);
             t < |s.conns| && Answered(thresholds, moves[..|moves| - 1], t, s.conns[t])
    ensures t < |Reached(thresholds, moves).conns|
    ensures Answered(thresholds, moves, t, Reached(thresholds, moves).conns[t])
  {
    var n := |moves| - 1;
    var s := Reached(thresholds, moves[..n]);
    StepFrame(s, u, inp);
    SafeReached(thresholds, moves[..n]);
    StreamsReached(thresholds, moves[..n]);
    ResponsesStep(s, u, inp, t);
    if u == t {
      LocksReached(thresholds, moves[..n]);
      WorkStep(s, t, inp);
      QuestionsAppend(Received(thresholds, moves[..n], t), inp.request);
    }
  }

  lemma AnsweredNew(thresholds: seq<A.Threshold>, moves: seq<Move>, t: nat, fd: nat)
    requires LegalRun(thresholds, moves) && t >= |Reached(thresholds, moves).conns|
    ensures Answered(thresholds, moves, t, Conn(fd, LogWait(LogWait(Recv)), "", []))
  {
    NothingBefore(thresholds, moves, t);
  }

  /** In every safe run, under any interleaving, a connection's responses are as many as the requests it
      made, less one while the last of them is being worked on. */
  lemma {:induction false} AnsweredOnce(thresholds: seq<A.Threshold>, moves: seq<Move>, t: nat)
    requires SafeRun(thresholds, moves) && t < |Reached(thresholds, moves).conns|
    ensures Answered(thresholds, moves, t, Reached(thresholds, moves).conns[t])
  {
    var n := |moves| - 1;
    var s := Reached(thresholds, moves[..n]);
    SafePrefix(thresholds, moves);
    match moves[n]
    case Accept(fd) =>
      if t < |s.conns| {
        AnsweredOnce(thresholds, moves[..n], t);
        assert Accepted(s, fd).conns[t] == s.conns[t];
      } else {
        AnsweredNew(thresholds, moves[..n], t, fd);
      }
    case Run(u, inp) =>
      StepFrame(s, u, inp);
      AnsweredOnce(thresholds, moves[..n], t);
      AnsweredByStep(thresholds, moves, u, inp, t);
  }
}
