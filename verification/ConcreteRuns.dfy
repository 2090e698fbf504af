/** Concrete runs that show why the results about operators need their conditions: a second login leaves a
    live slot whose write mutex is destroyed and doubles every alert, an operator on descriptor 0 is sent
    none, and an operator that is about to be answered is sent an alert first. */
module ConcreteRuns {
  import opened Handlers
  import opened LockOrder
  import opened OperatorTable
  import opened SafeRuns
  import opened Streams
  import opened Broadcasts
  import opened Deliveries
  import S = SensorManager
  import A = AlertEngine
  import StoreRuns

  const QUIET := Input(Other, 0, "OK\r\n", 0)
  const SENT := Input(Other, 4, "OK\r\n", 0)

  function Asks(request: Request): Input {
    Input(request, 0, "", 0)
  }

  /** What stays fixed in a part of a run: the thresholds, the connections before the last one and the
      last one's descriptor, and whether the run is clean so far or only safe. */
  datatype Scene = Scene(thresholds: seq<A.Threshold>, others: seq<Conn>, fd: nat, clean: bool)

  ghost predicate Kind(thresholds: seq<A.Threshold>, moves: seq<Move>, clean: bool) {
    if clean then CleanRun(thresholds, moves) else SafeRun(thresholds, moves)
  }

  ghost predicate Reachable(thresholds: seq<A.Threshold>, s: State, clean: bool) {
    exists moves :: Kind(thresholds, moves, clean) && Reached(thresholds, moves) == s
  }

  /** The connection is over, about to answer, or in the middle of a response. */
  predicate Parked(c: Conn) {
    c.pc.Done? || c.pc.RespondWait? || c.pc.Sending?
  }

  /** A reachable state in which only the last connection moves, and what the runs look at. */
  ghost predicate At(c: Scene, s: State, pc: Pc, sensors: seq<S.Entry>, table: Table) {
    var t := |c.others|;
    && Reachable(c.thresholds, s, c.clean) && |s.conns| == t + 1 && s.conns[..t] == c.others
    && (forall u :: 0 <= u < t ==> Parked(c.others[u]))
    && s.conns[t].fd == c.fd && s.conns[t].pc == pc
    && s.store.thresholds == c.thresholds && s.store.sensors == sensors && s.table == table
  }

  // ---------- one step ----------

  /** A handler beside parked ones never waits, unless it wants to write to one of them. */
  lemma LastCanRun(s: State, t: nat, inp: Input)
    requires LockInv(s) && |s.conns| == t + 1 && (forall u :: 0 <= u < t ==> Parked(s.conns[u]))
    requires !s.conns[t].pc.Done? && SendFits(s.conns[t].pc, inp)
    requires s.conns[t].pc.AlertLock? ==> s.conns[t].pc.mutex == t
    ensures CanRun(s, t, inp)
  {
    var w := Wants(s.conns[t].pc, t);
    if w.Some? && w.value in s.locks {
      var o := s.locks[w.value];
      assert w.value in Held(s.conns[o].pc, o);
      if o == t {
        OrderedAcquisition(s.conns[t].pc, t, w.value);
      }
    }
  }

  lemma CleanExtends(thresholds: seq<A.Threshold>, moves: seq<Move>, m: Move)
    requires CleanRun(thresholds, moves) && Legal(Reached(thresholds, moves), m)
    requires var s := Reached(thresholds, moves); m.Run? ==> m.t < |s.conns| && !s.conns[m.t].pc.RemoveHold?
    ensures LegalRun(thresholds, moves + [m]) && CleanRun(thresholds, moves + [m])
  {
    var more := moves + [m];
    assert more[..|moves|] == moves;
    forall n: nat | n < |more| ensures !BadAt(thresholds, more, n) {
      assert more[..n] == moves[..n];
      if n < |moves| {
        assert !BadAt(thresholds, moves, n);
      } else {
        assert moves[..n] == moves;
      }
    }
  }

  lemma SafeExtends(thresholds: seq<A.Threshold>, moves: seq<Move>, m: Move)
    requires SafeRun(thresholds, moves) && Legal(Reached(thresholds, moves), m)
    requires !TakesGone(Reached(thresholds, moves), m)
    ensures LegalRun(thresholds, moves + [m]) && SafeRun(thresholds, moves + [m])
  {
    var more := moves + [m];
    assert more[..|moves|] == moves;
    forall n: nat | n < |more| ensures !TakesGoneAt(thresholds, more, n) {
      assert more[..n] == moves[..n];
      if n < |moves| {
        assert !TakesGoneAt(thresholds, moves, n);
      } else {
        assert moves[..n] == moves;
      }
    }
  }

  lemma Extend(thresholds: seq<A.Threshold>, s: State, m: Move, clean: bool)
    requires Reachable(thresholds, s, clean) && Legal(s, m)
    requires clean && m.Run? ==> m.t < |s.conns| && !s.conns[m.t].pc.RemoveHold?
    requires !clean ==> !TakesGone(s, m)
    ensures Reachable(thresholds, Next(s, m), clean)
    ensures Next(s, m).store.thresholds == thresholds
  {
    var moves :| Kind(thresholds, moves, clean) && Reached(thresholds, moves) == s;
    var more := moves + [m];
    assert more[..|moves|] == moves;
    if clean {
      CleanExtends(thresholds, moves, m);
    } else {
      SafeExtends(thresholds, moves, m);
    }
    assert Kind(thresholds, more, clean) && Reached(thresholds, more) == Next(s, m);
    StoreRuns.ThresholdsFixed(thresholds, more);
  }

  lemma ReachableLocks(thresholds: seq<A.Threshold>, s: State, clean: bool)
    requires Reachable(thresholds, s, clean)
    ensures LockInv(s)
  {
    var moves :| Kind(thresholds, moves, clean) && Reached(thresholds, moves) == s;
    LocksReached(thresholds, moves);
  }

  /** The bytes of its own response that a handler sends in a step. */
  function Emitted(from: Pc, inp: Input): string
    requires SendFits(from, inp)
  {
    match from
    case Sending(r, k) => if k < |r| then r[k..k + Clamp(inp.sent)] else ""
    case _ => ""
  }

  lemma OthersStay(s: State, t: nat, inp: Input)
    requires CanRun(s, t, inp) && |s.conns| == t + 1 && (s.conns[t].pc.AlertSend? ==> t == 0)
    ensures Step(s, t, inp).conns[..t] == s.conns[..t]
  {
    StepFrame(s, t, inp);
    if !s.conns[t].pc.AlertSend? {
      OthersQuiet(s, t, inp);
    }
  }

  lemma OwnWire(s: State, t: nat, inp: Input)
    requires CanRun(s, t, inp) && !s.conns[t].pc.AlertSend?
    ensures |Step(s, t, inp).conns| == |s.conns|
    ensures Step(s, t, inp).conns[t].wire == s.conns[t].wire + Emitted(s.conns[t].pc, inp)
  {
    if s.conns[t].pc.Sending? {
      SendingConnIs(s, t, inp);
    } else {
      assert s.conns[t].wire + "" == s.conns[t].wire;
    }
  }

  /** The step that `inp` allows, and where it leads. */
  lemma Go(c: Scene, s: State, inp: Input, from: Pc, a: seq<S.Entry>, before: Table,
           pc: Pc, sensors: seq<S.Entry>, table: Table)
    returns (q: State)
    requires At(c, s, from, a, before) && !from.Done? && SendFits(from, inp) && (c.clean ==> !from.RemoveHold?)
    requires from.AlertLock? ==> from.mutex == |c.others|
    requires from.AlertSend? ==> c.others == []
    requires var t := |c.others|;
             NextPc(s, t, inp) == pc && NextStore(s, t, inp).sensors == sensors && NextTable(s, t) == table
    ensures At(c, q, pc, sensors, table)
    ensures !from.AlertSend? ==> q.conns[|c.others|].wire == s.conns[|c.others|].wire + Emitted(from, inp)
  {
    var t := |c.others|;
    ReachableLocks(c.thresholds, s, c.clean);
    assert forall u :: 0 <= u < t ==> s.conns[u] == s.conns[..t][u];
    LastCanRun(s, t, inp);
    Extend(c.thresholds, s, Run(t, inp), c.clean);
    StepFrame(s, t, inp);
    OthersStay(s, t, inp);
    if !from.AlertSend? {
      OwnWire(s, t, inp);
    }
    q := Step(s, t, inp);
  }

  /** A step that changes neither registry nor operator table. */
  lemma Walk(c: Scene, s: State, inp: Input, from: Pc, pc: Pc, sensors: seq<S.Entry>, table: Table)
    returns (q: State)
    requires At(c, s, from, sensors, table) && !from.Done? && SendFits(from, inp)
    requires !from.RegisterHold? && !from.MeasureHold? && !from.AlertWait? && !from.LoginHold? && !from.RemoveHold?
    requires from.AlertLock? ==> from.mutex == |c.others|
    requires from.AlertSend? ==> c.others == []
    requires NextPc(s, |c.others|, inp) == pc
    ensures At(c, q, pc, sensors, table)
    ensures !from.AlertSend? ==> q.conns[|c.others|].wire == s.conns[|c.others|].wire + Emitted(from, inp)
  {
    q := Go(c, s, inp, from, sensors, table, pc, sensors, table);
  }

  /** A log call, from the place that wants the logger to the place after it. */
  lemma Log(c: Scene, from: State, next: Pc, sensors: seq<S.Entry>, table: Table) returns (s: State)
    requires At(c, from, LogWait(next), sensors, table)
    ensures At(c, s, next, sensors, table) && s.conns[|c.others|].wire == from.conns[|c.others|].wire
  {
    s := Walk(c, from, QUIET, LogWait(next), LogHold(next), sensors, table);
    s := Walk(c, s, QUIET, LogHold(next), next, sensors, table);
  }

  // ---------- pieces of a conversation ----------

  const EMPTY := Table([], [], [], [], [])

  /** A connection arrives beside parked ones. */
  lemma Accepting(c: Scene, from: State) returns (s: State)
    requires Reachable(c.thresholds, from, c.clean) && from.conns == c.others
    requires (forall u :: 0 <= u < |c.others| ==> Parked(c.others[u])) && OpenOn(c.others, c.fd) == |c.others|
    ensures At(c, s, LogWait(LogWait(Recv)), from.store.sensors, from.table)
    ensures s.conns[|c.others|].wire == ""
  {
    Extend(c.thresholds, from, Accept(c.fd), c.clean);
    s := Accepted(from, c.fd);
    assert s.conns[..|c.others|] == c.others;
  }

  lemma Connect(c: Scene, from: State) returns (s: State)
    requires Reachable(c.thresholds, from, c.clean) && from.conns == c.others
    requires (forall u :: 0 <= u < |c.others| ==> Parked(c.others[u])) && OpenOn(c.others, c.fd) == |c.others|
    ensures At(c, s, Recv, from.store.sensors, from.table)
    ensures s.conns[|c.others|].wire == ""
  {
    s := Accepting(c, from);
    s := Log(c, s, LogWait(Recv), from.store.sensors, from.table);
    s := Log(c, s, Recv, from.store.sensors, from.table);
  }

  lemma Starting(thresholds: seq<A.Threshold>, clean: bool)
    ensures Reachable(thresholds, Init(thresholds), clean)
  {
    assert Kind(thresholds, [], clean) && Reached(thresholds, []) == Init(thresholds);
  }

  /** The first connection. */
  lemma ConnectFirst(c: Scene) returns (s: State)
    requires c.others == []
    ensures At(c, s, Recv, [], EMPTY) && s.conns[0].wire == ""
  {
    Starting(c.thresholds, c.clean);
    s := Connect(c, Init(c.thresholds));
  }

  /** A table with one more operator. */
  function Joined(table: Table, fd: nat): Table {
    Table(table.slots + [Slot(fd, Some(0))], table.logins + [0], table.since + [|table.broadcasts|],
          table.until + [0], table.broadcasts)
  }

  /** LOGIN is granted. */
  lemma Enter(c: Scene, from: State, table: Table) returns (s: State)
    requires At(c, from, Recv, [], table)
    ensures At(c, s, LoginHold, [], table) && s.conns[|c.others|].wire == from.conns[|c.others|].wire
  {
    s := Walk(c, from, Asks(Login(true)), Recv, LoginWait, [], table);
    s := Walk(c, s, QUIET, LoginWait, LoginHold, [], table);
  }

  /** The slot is filled. */
  lemma FillSlot(c: Scene, from: State, table: Table) returns (s: State)
    requires c.others == [] && At(c, from, LoginHold, [], table) && |table.slots| < 100
    ensures At(c, s, LogWait(LoginExit), [], Joined(table, c.fd)) && s.conns[0].wire == from.conns[0].wire
  {
    s := Go(c, from, QUIET, LoginHold, [], table, LogWait(LoginExit), [], Joined(table, c.fd));
  }

  lemma Respond(c: Scene, from: State, sensors: seq<S.Entry>, table: Table) returns (s: State)
    requires At(c, from, RespondWait, sensors, table)
    ensures At(c, s, Recv, sensors, table)
  {
    s := Walk(c, from, QUIET, RespondWait, Sending("OK\r\n", 0), sensors, table);
    s := Walk(c, s, SENT, Sending("OK\r\n", 0), Sending("OK\r\n", 4), sensors, table);
    s := Walk(c, s, QUIET, Sending("OK\r\n", 4), LogWait(Recv), sensors, table);
    s := Log(c, s, Recv, sensors, table);
  }

  lemma LogIn(c: Scene, from: State, table: Table) returns (s: State)
    requires c.others == [] && At(c, from, Recv, [], table) && |table.slots| < 100
    ensures At(c, s, Recv, [], Joined(table, c.fd))
  {
    var more := Joined(table, c.fd);
    s := Enter(c, from, table);
    s := FillSlot(c, s, table);
    s := Log(c, s, LoginExit, [], more);
    s := Walk(c, s, QUIET, LoginExit, LogWait(RespondWait), [], more);
    s := Log(c, s, RespondWait, [], more);
    s := Respond(c, s, [], more);
  }

  lemma TwoLogins(c: Scene) returns (s: State)
    requires c.others == []
    ensures At(c, s, Recv, [], Joined(Joined(EMPTY, c.fd), c.fd))
  {
    s := ConnectFirst(c);
    s := LogIn(c, s, EMPTY);
    s := LogIn(c, s, Joined(EMPTY, c.fd));
  }

  // ---------- a slot that outlives its mutex ----------

  lemma HangingUp(c: Scene, from: State, table: Table) returns (s: State)
    requires At(c, from, Recv, [], table)
    ensures At(c, s, RemoveHold, [], table)
  {
    s := Walk(c, from, Asks(HangUp), Recv, LogWait(LogWait(RemoveWait)), [], table);
    s := Log(c, s, LogWait(RemoveWait), [], table);
    s := Log(c, s, RemoveWait, [], table);
    s := Walk(c, s, QUIET, RemoveWait, RemoveHold, [], table);
  }

  lemma Leave(c: Scene, from: State, table: Table, after: Table) returns (s: State)
    requires !c.clean && At(c, from, RemoveHold, [], table) && NextTable(from, |c.others|) == after
    ensures At(c, s, Done, [], after)
  {
    s := Go(c, from, QUIET, RemoveHold, [], table, Closing, [], after);
    s := Walk(c, s, QUIET, Closing, Destroying, [], after);
    s := Walk(c, s, QUIET, Destroying, Done, [], after);
  }

  lemma ClearsFirstOnly(fd: nat)
    ensures ClearOperator([Slot(fd, Some(0)), Slot(fd, Some(0))], fd) == [Slot(-1, None), Slot(fd, Some(0))]
  {
  }

  /** The only connection is gone, its mutex destroyed, and a live slot still points to that mutex. */
  ghost predicate Dangling(s: State) {
    && |s.conns| == 1 && Destroyed(s.conns[0].pc)
    && |s.table.slots| == 2 && Live(s.table.slots[1]) && s.table.slots[1].mutex == Some(0)
  }

  function Twofold(fd: nat): Table {
    Table([Slot(fd, Some(0)), Slot(fd, Some(0))], [0, 0], [0, 0], [0, 0], [])
  }

  function Halved(fd: nat): Table {
    Table([Slot(-1, None), Slot(fd, Some(0))], [0, 0], [0, 0], [0, 0], [])
  }

  lemma JoinedTwice(fd: nat)
    ensures Joined(Joined(EMPTY, fd), fd) == Twofold(fd)
  {
  }

  lemma HalvedNext(s: State, fd: nat)
    requires |s.conns| == 1 && s.conns[0].pc.RemoveHold? && s.conns[0].fd == fd && s.table == Twofold(fd)
    ensures NextTable(s, 0) == Halved(fd)
  {
    ClearsFirstOnly(fd);
    RemovalTable(s, 0);
  }

  lemma TwiceAndAway(c: Scene) returns (s: State)
    requires !c.clean && c.others == []
    ensures At(c, s, Done, [], Halved(c.fd))
  {
    JoinedTwice(c.fd);
    s := TwoLogins(c);
    s := HangingUp(c, s, Twofold(c.fd));
    HalvedNext(s, c.fd);
    s := Leave(c, s, Twofold(c.fd), Halved(c.fd));
  }

  /** Connect, log in, log in again, hang up: the second slot is live and its mutex destroyed. */
  lemma SecondSlotOutlivesMutex(thresholds: seq<A.Threshold>, fd: nat)
    requires fd > 0
    ensures exists moves :: SafeRun(thresholds, moves) && Dangling(Reached(thresholds, moves))
  {
    var s := TwiceAndAway(Scene(thresholds, [], fd, false));
    var moves :| Kind(thresholds, moves, false) && Reached(thresholds, moves) == s;
    assert Dangling(Reached(thresholds, moves));
  }

  // ---------- a broadcast by a handler that is its own operator ----------

  const HOT := [A.Threshold("temperature", 30.0, A.Warning, ">", true)]
  const E0 := S.Entry("T1", "temperature", 0.0, "", 0, true)
  const E1 := S.Entry("T1", "temperature", 31.0, "C", 0, true)
  const MSG := AlertText("T1", "temperature", 31.0, "C")

  lemma Registry()
    ensures S.AfterRegister([], "temperature", "T1", 0) == [E0]
    ensures S.Has([E0], "T1") && S.AfterMeasure([E0], "T1", 31.0, "C", 0) == [E1]
    ensures S.Has([E1], "T1") && S.Index([E1], "T1") == 0
  {
  }

  lemma RegisterOne(c: Scene, from: State, table: Table) returns (s: State)
    requires At(c, from, Recv, [], table)
    ensures At(c, s, Recv, [E0], table)
  {
    Registry();
    s := Walk(c, from, Asks(Register("T1", "temperature")), Recv, RegisterWait("T1", "temperature"), [], table);
    s := Walk(c, s, QUIET, RegisterWait("T1", "temperature"), RegisterHold("T1", "temperature"), [], table);
    s := Go(c, s, QUIET, RegisterHold("T1", "temperature"), [], table, LogWait(RespondWait), [E0], table);
    s := Log(c, s, RespondWait, [E0], table);
    s := Respond(c, s, [E0], table);
  }

  lemma StoreOne(c: Scene, from: State, table: Table) returns (s: State)
    requires At(c, from, Recv, [E0], table)
    ensures At(c, s, TypeWait("T1", 31.0, "C"), [E1], table)
  {
    Registry();
    s := Walk(c, from, Asks(Measure("T1", 31.0, "C")), Recv, MeasureWait("T1", 31.0, "C"), [E0], table);
    s := Walk(c, s, QUIET, MeasureWait("T1", 31.0, "C"), MeasureHold("T1", 31.0, "C"), [E0], table);
    s := Go(c, s, QUIET, MeasureHold("T1", 31.0, "C"), [E0], table, LogWait(TypeWait("T1", 31.0, "C")), [E1], table);
    s := Log(c, s, TypeWait("T1", 31.0, "C"), [E1], table);
  }

  lemma StartCheck(c: Scene, from: State, table: Table) returns (s: State)
    requires At(c, from, TypeWait("T1", 31.0, "C"), [E1], table)
    ensures At(c, s, CheckHold("T1", 0, 31.0, "C", 0, 0), [E1], table)
  {
    Registry();
    s := Walk(c, from, QUIET, TypeWait("T1", 31.0, "C"), TypeHold("T1", 31.0, "C"), [E1], table);
    s := Walk(c, s, QUIET, TypeHold("T1", 31.0, "C"), CheckWait("T1", 0, 31.0, "C"), [E1], table);
    s := Walk(c, s, QUIET, CheckWait("T1", 0, 31.0, "C"), CheckHold("T1", 0, 31.0, "C", 0, 0), [E1], table);
  }

  lemma CheckOne(c: Scene, from: State, table: Table) returns (s: State)
    requires c.thresholds == HOT && At(c, from, CheckHold("T1", 0, 31.0, "C", 0, 0), [E1], table)
    ensures At(c, s, AlertWait(MSG), [E1], table)
  {
    assert A.Fires(HOT[0], "temperature", 31.0);
    s := Walk(c, from, QUIET, CheckHold("T1", 0, 31.0, "C", 0, 0),
              LogWait(CheckHold("T1", 0, 31.0, "C", 1, 1)), [E1], table);
    s := Log(c, s, CheckHold("T1", 0, 31.0, "C", 1, 1), [E1], table);
    s := Walk(c, s, QUIET, CheckHold("T1", 0, 31.0, "C", 1, 1), AlertWait(MSG), [E1], table);
  }

  /** A table with one more broadcast. */
  function Started(table: Table): Table {
    table.(broadcasts := table.broadcasts + [MSG])
  }

  lemma ReachBroadcast(c: Scene, from: State, table: Table) returns (s: State)
    requires c.thresholds == HOT && At(c, from, Recv, [], table)
    ensures At(c, s, AlertLoop(MSG, 0), [E1], Started(table))
  {
    s := RegisterOne(c, from, table);
    s := StoreOne(c, s, table);
    s := StartCheck(c, s, table);
    s := CheckOne(c, s, table);
    s := Go(c, s, QUIET, AlertWait(MSG), [E1], table, AlertLoop(MSG, 0), [E1], Started(table));
  }

  /** The loop reaches a live slot. */
  lemma MeetSlot(c: Scene, from: State, table: Table, msg: string, i: nat, fd: nat, m: nat) returns (s: State)
    requires At(c, from, AlertLoop(msg, i), [E1], table) && i < |table.slots| && table.slots[i] == Slot(fd, Some(m))
    requires fd > 0
    ensures At(c, s, AlertLock(msg, i, m), [E1], table)
  {
    assert Live(table.slots[i]);
    s := Walk(c, from, QUIET, AlertLoop(msg, i), AlertLock(msg, i, m), [E1], table);
  }

  /** The loop passes a slot that is not live. */
  lemma SkipSlot(c: Scene, from: State, table: Table, msg: string, i: nat, next: nat) returns (s: State)
    requires At(c, from, AlertLoop(msg, i), [E1], table) && i < |table.slots| && !Live(table.slots[i])
    requires next == i + 1
    ensures At(c, s, AlertLoop(msg, next), [E1], table)
  {
    s := Walk(c, from, QUIET, AlertLoop(msg, i), AlertLoop(msg, next), [E1], table);
  }

  lemma EndLoop(c: Scene, from: State, table: Table, msg: string, i: nat) returns (s: State)
    requires At(c, from, AlertLoop(msg, i), [E1], table) && i >= |table.slots|
    ensures At(c, s, RespondWait, [E1], table)
  {
    s := Walk(c, from, QUIET, AlertLoop(msg, i), RespondWait, [E1], table);
  }

  lemma SendSlot(c: Scene, from: State, table: Table, msg: string, i: nat) returns (s: State)
    requires c.others == [] && At(c, from, AlertLock(msg, i, 0), [E1], table)
    ensures At(c, s, AlertLoop(msg, i + 1), [E1], table)
  {
    s := Walk(c, from, QUIET, AlertLock(msg, i, 0), AlertSend(msg, i, 0), [E1], table);
    s := Walk(c, s, QUIET, AlertSend(msg, i, 0), AlertUnlock(msg, i, 0), [E1], table);
    s := Walk(c, s, QUIET, AlertUnlock(msg, i, 0), AlertLoop(msg, i + 1), [E1], table);
  }

  /** A live slot is served; send transmits nothing. */
  lemma ServeSlot(c: Scene, from: State, table: Table, msg: string, i: nat, next: nat) returns (s: State)
    requires At(c, from, AlertLoop(msg, i), [E1], table) && i < |table.slots| && table.slots[i] == Slot(c.fd, Some(0))
    requires c.fd > 0 && c.others == [] && next == i + 1
    ensures At(c, s, AlertLoop(msg, next), [E1], table)
  {
    s := MeetSlot(c, from, table, msg, i, c.fd, 0);
    s := SendSlot(c, s, table, msg, i);
  }

  lemma ParkedOwnsNone(s: State, t: nat)
    requires LockInv(s) && |s.conns| == t + 1 && (forall u :: 0 <= u < t ==> Parked(s.conns[u]))
    requires s.conns[t].pc.RespondWait?
    ensures Operators !in s.locks
  {
    assert forall o :: 0 <= o < |s.conns| ==> Operators !in Held(s.conns[o].pc, o);
  }

  /** A handler that answers owns no mutex. */
  lemma OperatorsFree(c: Scene, s: State, sensors: seq<S.Entry>, table: Table)
    requires At(c, s, RespondWait, sensors, table)
    ensures Operators !in s.locks
  {
    ReachableLocks(c.thresholds, s, c.clean);
    var t := |c.others|;
    assert forall u :: 0 <= u < t ==> s.conns[u] == s.conns[..t][u];
    ParkedOwnsNone(s, t);
  }

  lemma Twice(msg: string)
    ensures Merge([Segment(0, 1), Segment(0, 1)], [msg]) == [msg, msg]
  {
    var g := [Segment(0, 1), Segment(0, 1)];
    assert g[..1] == [Segment(0, 1)] && g[..1][..0] == [];
    assert Copies(g[..1], 0) == 1 && Copies(g, 0) == 2;
    assert Repeat(msg, 1) == [msg];
    assert Repeat(msg, 2) == [msg, msg];
    assert [msg][..0] == [];
  }

  lemma ServeBoth(c: Scene, from: State, table: Table, msg: string) returns (s: State)
    requires c.others == [] && c.fd > 0 && At(c, from, AlertLoop(msg, 0), [E1], table)
    requires |table.slots| == 2 && table.slots[0] == Slot(c.fd, Some(0)) && table.slots[1] == Slot(c.fd, Some(0))
    ensures At(c, s, AlertLoop(msg, 2), [E1], table)
  {
    s := ServeSlot(c, from, table, msg, 0, 1);
    s := ServeSlot(c, s, table, msg, 1, 2);
  }

  lemma DoubleRun(c: Scene) returns (s: State)
    requires c.thresholds == HOT && c.others == [] && c.fd > 0
    ensures At(c, s, RespondWait, [E1], Started(Twofold(c.fd)))
  {
    JoinedTwice(c.fd);
    s := TwoLogins(c);
    s := ReachBroadcast(c, s, Twofold(c.fd));
    s := ServeBoth(c, s, Started(Twofold(c.fd)), MSG);
    s := EndLoop(c, s, Started(Twofold(c.fd)), MSG, 2);
  }

  /** One connection registered twice before the only broadcast, which it was sent twice. */
  ghost predicate Doubled(s: State, fd: nat) {
    && |s.conns| == 1 && s.conns[0].fd == fd && Operators !in s.locks
    && s.table.logins == [0, 0] && s.table.since == [0, 0] && s.table.broadcasts == [MSG]
    && Texts(s.conns[0].chunks) == [MSG, MSG]
  }

  lemma TwoCopiesDue(table: Table, fd: nat, msg: string)
    requires fd > 0 && table == Twofold(fd).(broadcasts := [msg])
    ensures Due(table, 2, 0, fd) == [msg, msg]
  {
    assert SegmentsOf(table, 2, 0) == [Segment(0, 1), Segment(0, 1)];
    Twice(msg);
  }

  lemma DoubleDue(moves: seq<Move>, s: State, fd: nat)
    requires CleanRun(HOT, moves) && Reached(HOT, moves) == s && |s.conns| == 1 && s.conns[0].fd == fd > 0
    requires Operators !in s.locks && s.table == Twofold(fd).(broadcasts := [MSG])
    ensures Doubled(s, fd)
  {
    CleanIsSafe(HOT, moves);
    OrderReached(HOT, moves);
    PendingIdle(s);
    TwoCopiesDue(s.table, fd, MSG);
  }

  lemma DoubledAt(c: Scene, s: State, moves: seq<Move>)
    requires c.others == [] && c.fd > 0 && At(c, s, RespondWait, [E1], Started(Twofold(c.fd)))
    requires CleanRun(HOT, moves) && Reached(HOT, moves) == s
    ensures Doubled(s, c.fd)
  {
    OperatorsFree(c, s, [E1], s.table);
    assert [] + [MSG] == [MSG];
    DoubleDue(moves, s, c.fd);
  }

  /** A client that logs in twice is sent a later broadcast twice, also in a clean run. */
  lemma SecondSlotDoublesAlerts(fd: nat)
    requires fd > 0
    ensures exists moves :: CleanRun(HOT, moves) && Doubled(Reached(HOT, moves), fd)
  {
    var c := Scene(HOT, [], fd, true);
    var s := DoubleRun(c);
    var moves :| Kind(HOT, moves, true) && Reached(HOT, moves) == s;
    DoubledAt(c, s, moves);
  }

  /** The broadcast passes over the only slot. */
  lemma PassOver(c: Scene, from: State, table: Table, msg: string) returns (s: State)
    requires At(c, from, AlertLoop(msg, 0), [E1], table) && |table.slots| == 1 && !Live(table.slots[0])
    ensures At(c, s, RespondWait, [E1], table)
  {
    s := SkipSlot(c, from, table, msg, 0, 1);
    s := EndLoop(c, s, table, msg, 1);
  }

  lemma ZeroRun(c: Scene) returns (s: State)
    requires c.thresholds == HOT && c.others == [] && c.fd == 0
    ensures At(c, s, RespondWait, [E1], Started(Joined(EMPTY, 0)))
  {
    s := ConnectFirst(c);
    s := LogIn(c, s, EMPTY);
    s := ReachBroadcast(c, s, Joined(EMPTY, 0));
    s := PassOver(c, s, Started(Joined(EMPTY, 0)), MSG);
  }

  /** An operator that registered before the only broadcast was not sent it. */
  ghost predicate Skipped(s: State) {
    && |s.conns| == 1 && s.conns[0].fd == 0 && Operators !in s.locks
    && s.table.slots == [Slot(0, Some(0))] && s.table.since == [0] && s.table.broadcasts == [MSG]
    && Texts(s.conns[0].chunks) == []
  }

  lemma NothingOnZero(moves: seq<Move>, s: State)
    requires CleanRun(HOT, moves) && Reached(HOT, moves) == s && |s.conns| == 1 && s.conns[0].fd == 0
    requires Operators !in s.locks && s.table == Started(Joined(EMPTY, 0))
    ensures LogsInOnce(HOT, moves) && Skipped(s)
  {
    CleanIsSafe(HOT, moves);
    OrderReached(HOT, moves);
  }

  /** An operator on descriptor 0 obtains a slot and is sent nothing. */
  lemma DescriptorZeroIsSkipped()
    ensures exists moves :: LogsInOnce(HOT, moves) && Skipped(Reached(HOT, moves))
  {
    var c := Scene(HOT, [], 0, true);
    var s := ZeroRun(c);
    OperatorsFree(c, s, [E1], s.table);
    var moves :| Kind(HOT, moves, true) && Reached(HOT, moves) == s;
    NothingOnZero(moves, s);
  }

  // ---------- beyond a safe run ----------

  const HALF := Input(Other, 2, "OK\r\n", 0)

  lemma HalfEmitted()
    ensures Emitted(Sending("OK\r\n", 0), HALF) == "OK"
  {
    assert "OK\r\n"[0..2] == "OK";
  }

  /** A request is answered, up to the second byte of the response. */
  lemma HalfSent(c: Scene, from: State, table: Table) returns (s: State)
    requires At(c, from, Recv, [], table) && from.conns[|c.others|].wire == ""
    ensures At(c, s, Sending("OK\r\n", 2), [], table) && s.conns[|c.others|].wire == "OK"
  {
    s := Walk(c, from, Asks(Other), Recv, RespondWait, [], table);
    s := Walk(c, s, QUIET, RespondWait, Sending("OK\r\n", 0), [], table);
    assert s.conns[|c.others|].wire == "";
    s := Walk(c, s, HALF, Sending("OK\r\n", 0), Sending("OK\r\n", 2), [], table);
    HalfEmitted();
  }

  lemma DoneIsClosed(conns: seq<Conn>, fd: nat)
    requires |conns| == 1 && conns[0].pc.Done?
    ensures OpenOn(conns, fd) == 1 && forall u :: 0 <= u < 1 ==> Parked(conns[u])
  {
  }

  lemma Beside(c: Scene, from: State) returns (s: State)
    requires Reachable(c.thresholds, from, c.clean) && from.conns == c.others
    requires |c.others| == 1 && c.others[0].pc.Done?
    ensures At(c, s, Recv, from.store.sensors, from.table) && s.conns[1].wire == ""
  {
    DoneIsClosed(c.others, c.fd);
    s := Connect(c, from);
  }

  /** A connection that reuses the descriptor of the one that left, stopped in the middle of a response. */
  lemma HalfAnswered(c: Scene, from: State, table: Table) returns (s: State)
    requires Reachable(c.thresholds, from, c.clean) && from.conns == c.others && from.table == table
    requires from.store.sensors == [] && |c.others| == 1 && c.others[0].pc.Done?
    ensures At(c, s, Sending("OK\r\n", 2), [], table) && s.conns[1].wire == "OK"
  {
    s := Beside(c, from);
    s := HalfSent(c, s, table);
  }

  /** A third connection starts a broadcast, which reaches the leftover slot. */
  lemma ReachLeftover(c: Scene, from: State, fd: nat) returns (s: State)
    requires c.thresholds == HOT && fd > 0 && c.fd != fd
    requires Reachable(HOT, from, c.clean) && from.conns == c.others && from.table == Halved(fd)
    requires from.store.sensors == [] && |c.others| == 2 && c.others[0].pc.Done?
    requires c.others[1].pc.Sending? && c.others[1].fd == fd
    ensures At(c, s, AlertLock(MSG, 1, 0), [E1], Started(Halved(fd)))
  {
    s := Connect(c, from);
    s := ReachBroadcast(c, s, Halved(fd));
    s := SkipSlot(c, s, Started(Halved(fd)), MSG, 0, 1);
    s := MeetSlot(c, s, Started(Halved(fd)), MSG, 1, fd, 0);
  }

  /** What the state looks like just before the mutex of a gone connection is taken. */
  ghost predicate Brink(s: State, fd: nat, msg: string) {
    && |s.conns| == 3 && s.conns[0].pc.Done? && s.conns[1].fd == fd && s.conns[1].pc == Sending("OK\r\n", 2)
    && s.conns[1].wire == "OK" && s.conns[2].pc == AlertLock(msg, 1, 0)
    && |s.table.slots| == 2 && s.table.slots[1] == Slot(fd, Some(0))
  }

  lemma ToBrink(fd: nat, other: nat) returns (s: State)
    requires fd > 0 && other != fd
    ensures Reachable(HOT, s, false) && Brink(s, fd, MSG)
  {
    s := TwiceAndAway(Scene(HOT, [], fd, false));
    var one := Scene(HOT, s.conns, fd, false);
    s := HalfAnswered(one, s, Halved(fd));
    var two := Scene(HOT, s.conns, other, false);
    s := ReachLeftover(two, s, fd);
    assert s.conns[1] == s.conns[..2][1];
  }

  /** An alert stands inside a response that is still being sent. */
  ghost predicate Torn(s: State, msg: string) {
    && |s.conns| == 3 && s.conns[1].pc == Sending("OK\r\n", 2) && s.conns[1].wire == "OK" + msg
    && s.conns[1].chunks != [] && s.conns[1].chunks[|s.conns[1].chunks| - 1] == AlertLine(msg, |msg|)
  }

  const LOCK := Run(2, QUIET)

  function Sends(msg: string): Move {
    Run(2, Input(Other, |msg|, "", 0))
  }

  lemma LockGone(s: State, fd: nat, msg: string)
    requires Brink(s, fd, msg) && Write(0) !in s.locks
    ensures Legal(s, LOCK) && TakesGone(s, LOCK)
    ensures var q := Next(s, LOCK);
            && |q.conns| == 3 && q.conns[0].pc.Done? && q.conns[1] == s.conns[1]
            && q.conns[2].pc == AlertSend(msg, 1, 0) && q.table == s.table
  {
    StepFrame(s, 2, QUIET);
    OthersQuiet(s, 2, QUIET);
  }

  lemma SendTears(q: State, fd: nat, msg: string)
    requires |q.conns| == 3 && q.conns[0].pc.Done? && q.conns[1].fd == fd && q.conns[1].pc == Sending("OK\r\n", 2)
    requires q.conns[1].wire == "OK" && q.conns[2].pc == AlertSend(msg, 1, 0)
    requires |q.table.slots| == 2 && q.table.slots[1] == Slot(fd, Some(0))
    ensures Legal(q, Sends(msg)) && Torn(Next(q, Sends(msg)), msg)
  {
    var to := OpenOn(q.conns, fd);
    assert to == 1;
    assert msg[..|msg|] == msg;
  }

  /** The run that leaves a slot behind is safe and framed until a broadcast takes the destroyed mutex;
      its next step sends the alert into the middle of another client's response. */
  lemma AlertTearsResponse(fd: nat, other: nat)
    requires fd > 0 && other != fd
    ensures exists moves :: SafeRun(HOT, moves)
              && Legal(Reached(HOT, moves), LOCK) && TakesGone(Reached(HOT, moves), LOCK)
              && Legal(Next(Reached(HOT, moves), LOCK), Sends(MSG))
              && Torn(Next(Next(Reached(HOT, moves), LOCK), Sends(MSG)), MSG)
  {
    var s := ToBrink(fd, other);
    var moves :| Kind(HOT, moves, false) && Reached(HOT, moves) == s;
    GoneMutexUnlocked(HOT, moves, 0);
    LockGone(s, fd, MSG);
    SendTears(Next(s, LOCK), fd, MSG);
  }

  // ---------- an alert before the answer ----------

  /** A granted login, up to its answer. */
  lemma Granted(c: Scene) returns (s: State)
    requires c.others == []
    ensures At(c, s, RespondWait, [], Joined(EMPTY, c.fd)) && s.conns[0].wire == ""
  {
    var more := Joined(EMPTY, c.fd);
    s := ConnectFirst(c);
    s := Enter(c, s, EMPTY);
    s := FillSlot(c, s, EMPTY);
    s := Log(c, s, LoginExit, [], more);
    s := Walk(c, s, QUIET, LoginExit, LogWait(RespondWait), [], more);
    s := Log(c, s, RespondWait, [], more);
    assert s.conns[0].wire == "";
  }

  /** A second connection starts a broadcast, which reaches the slot of the first one. */
  lemma ReachWaiting(c: Scene, from: State, fd: nat) returns (s: State)
    requires c.thresholds == HOT && fd > 0 && c.fd != fd && from.store.sensors == []
    requires Reachable(HOT, from, c.clean) && from.conns == c.others && from.table == Joined(EMPTY, fd)
    requires |c.others| == 1 && c.others[0].pc.RespondWait? && c.others[0].fd == fd
    ensures At(c, s, AlertLock(MSG, 0, 0), [E1], Started(Joined(EMPTY, fd)))
  {
    assert OpenOn(c.others, c.fd) == 1;
    s := Connect(c, from);
    s := ReachBroadcast(c, s, Joined(EMPTY, fd));
    s := MeetSlot(c, s, Started(Joined(EMPTY, fd)), MSG, 0, fd, 0);
  }

  lemma ToWaiting(fd: nat, other: nat) returns (s: State)
    requires fd > 0 && other != fd
    ensures Reachable(HOT, s, true) && Waiting(s, fd, MSG)
  {
    s := Granted(Scene(HOT, [], fd, true));
    var beside := Scene(HOT, s.conns, other, true);
    s := ReachWaiting(beside, s, fd);
    assert s.conns[0] == s.conns[..1][0];
  }

  /** An operator is about to be answered, and a broadcast is about to take its write mutex. */
  ghost predicate Waiting(s: State, fd: nat, msg: string) {
    && |s.conns| == 2 && s.conns[0].fd == fd && s.conns[0].pc.RespondWait? && s.conns[0].wire == ""
    && s.conns[1].pc == AlertLock(msg, 0, 0)
    && s.table == Joined(EMPTY, fd).(broadcasts := [msg])
  }

  /** The operator was sent the alert, and nothing else, before its answer. */
  ghost predicate Early(s: State, fd: nat, msg: string) {
    && |s.conns| == 2 && s.conns[0].fd == fd && s.conns[0].pc.RespondWait? && s.conns[0].wire == msg
    && s.table.logins == [0] && s.table.slots == [Slot(fd, Some(0))]
  }

  function ByOther(n: nat): Move {
    Run(1, Input(Other, n, "", 0))
  }

  lemma LockWaiting(s: State, fd: nat, msg: string)
    requires LockInv(s) && Waiting(s, fd, msg)
    ensures Legal(s, ByOther(0))
    ensures var q := Next(s, ByOther(0));
            && |q.conns| == 2 && q.conns[0] == s.conns[0] && q.conns[1].pc == AlertSend(msg, 0, 0) && q.table == s.table
  {
    assert forall o :: 0 <= o < |s.conns| ==> Write(0) !in Held(s.conns[o].pc, o);
    OthersQuiet(s, 1, ByOther(0).inp);
  }

  lemma SendEarly(q: State, fd: nat, msg: string)
    requires |q.conns| == 2 && q.conns[0].fd == fd && q.conns[0].pc.RespondWait? && q.conns[0].wire == ""
    requires q.conns[1].pc == AlertSend(msg, 0, 0) && q.table == Joined(EMPTY, fd).(broadcasts := [msg])
    ensures Legal(q, ByOther(|msg|)) && Early(Next(q, ByOther(|msg|)), fd, msg)
  {
    assert q.table.slots == [Slot(fd, Some(0))];
    assert OpenOn(q.conns, fd) == 0;
    assert "" + msg[..|msg|] == msg;
  }

  /** A client whose login was granted reads an alert where it waits for the answer, also in a run in
      which every connection logs in once. */
  lemma AlertBeforeAnswer(fd: nat, other: nat)
    requires fd > 0 && other != fd
    ensures exists moves :: LogsInOnce(HOT, moves) && Early(Reached(HOT, moves), fd, MSG)
  {
    var s := ToWaiting(fd, other);
    ReachableLocks(HOT, s, true);
    LockWaiting(s, fd, MSG);
    Extend(HOT, s, ByOther(0), true);
    var q := Next(s, ByOther(0));
    SendEarly(q, fd, MSG);
    Extend(HOT, q, ByOther(|MSG|), true);
    var moves :| Kind(HOT, moves, true) && Reached(HOT, moves) == Next(q, ByOther(|MSG|));
    assert LogsInOnce(HOT, moves);
  }
}
