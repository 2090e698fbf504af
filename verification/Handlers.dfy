/** server.c as an interleaving transition system: any number of connections, each running
    handle_client, over the sensor store, the alert engine, the operator table and the log.
    One step is one critical action: taking a mutex, one iteration of a loop, one send, one unlock. */
module Handlers {
  import opened CStrings
  import Decimals
  import R = RegistryRuns
  import S = SensorManager
  import A = AlertEngine

  const MAX_OPERATORS: nat := 100

  /** sensor_mutex, alert_mutex, operator_mutex, the write_mutex of a connection, g_logger_mutex. */
  datatype Lock = Sensors | Alerts | Operators | Write(conn: nat) | Logger

  datatype Option<T> = None | Some(value: T)

  /** What one received message asks for; HangUp is end of stream, error or timeout. */
  datatype Request =
    | Register(id: string, ty: string)
    | Measure(id: string, value: real, unit: string)
    | Login(granted: bool)
    | GetSensors
    | GetAlerts
    | Identify
    | Other
    | HangUp

  /** Where a handler stands. `...Wait` wants a mutex, `...Hold` owns it. */
  datatype Pc =
    | Recv
    | RegisterWait(id: string, ty: string)
    | RegisterHold(id: string, ty: string)
    | MeasureWait(id: string, value: real, unit: string)
    | MeasureHold(id: string, value: real, unit: string)
    | TypeWait(id: string, value: real, unit: string)
    | TypeHold(id: string, value: real, unit: string)
    /** `slot` is the pointer into the sensor array that left the critical section. */
    | CheckWait(id: string, slot: nat, value: real, unit: string)
    | CheckHold(id: string, slot: nat, value: real, unit: string, i: nat, fired: nat)
    | AlertWait(msg: string)
    | AlertLoop(msg: string, i: nat)
    | AlertLock(msg: string, i: nat, mutex: nat)
    | AlertSend(msg: string, i: nat, mutex: nat)
    | AlertUnlock(msg: string, i: nat, mutex: nat)
    | LoginWait
    | LoginHold
    | LoginExit
    | ListWait(lock: Lock)
    | ListHold(lock: Lock)
    | RespondWait
    | Sending(response: string, sent: nat)
    | SendFailed
    | RemoveWait
    | RemoveHold
    | Closing
    | Destroying
    | Done
    | LogWait(next: Pc)
    | LogHold(next: Pc)

  /** A piece of a connection's output, as it was meant: a response or an alert line, and how much
      of it was transmitted. */
  datatype Chunk =
    | Response(text: string, sent: nat)
    | AlertLine(text: string, sent: nat)

  /** `wire` is every byte sent on the descriptor; `chunks` is the history of what was being sent. */
  datatype Conn = Conn(fd: nat, pc: Pc, wire: string, chunks: seq<Chunk>)

  /** A slot of operator_clients and operator_write_mutexes: (-1, NULL) once cleared. */
  datatype Slot = Slot(fd: int, mutex: Option<nat>)

  datatype Checked = Checked(id: string, ty: string, value: real, returned: nat)

  /** The sensor array with the operations that produced it, the array of visible alerts, and every alarm
      ever raised. */
  datatype Store = Store(sensors: seq<S.Entry>, ops: seq<R.Op>, thresholds: seq<A.Threshold>,
                         visible: seq<A.Alert>, alarms: seq<A.Alarm>, checks: seq<Checked>)

  /** The operator table with its history: who logged in, which broadcasts were started, and for each
      slot how many broadcasts had been started when it was filled and when it was cleared. */
  datatype Table = Table(slots: seq<Slot>, logins: seq<nat>, since: seq<nat>, until: seq<nat>, broadcasts: seq<string>)

  datatype State = State(conns: seq<Conn>, locks: map<Lock, nat>, store: Store, table: Table)

  /** The outside world's part of a step: the message, the result of send, the response bytes. */
  datatype Input = Input(request: Request, sent: int, response: string, now: int)

  datatype Move = Accept(fd: nat) | Run(t: nat, inp: Input)

  function Init(thresholds: seq<A.Threshold>): State {
    State([], map[], Store([], [], thresholds, [], [], []), Table([], [], [], [], []))
  }

  // ---------- locks of a program point ----------

  function Wants(pc: Pc, t: nat): Option<Lock> {
    match pc
    case RegisterWait(_, _) => Some(Sensors)
    case MeasureWait(_, _, _) => Some(Sensors)
    case TypeWait(_, _, _) => Some(Sensors)
    case CheckWait(_, _, _, _) => Some(Alerts)
    case AlertWait(_) => Some(Operators)
    case AlertLock(_, _, m) => Some(Write(m))
    case LoginWait => Some(Operators)
    case ListWait(l) => Some(l)
    case RespondWait => Some(Write(t))
    case RemoveWait => Some(Operators)
    case LogWait(_) => Some(Logger)
    case _ => None
  }

  /** Owned at a point outside the logger. */
  function Owned(pc: Pc, t: nat): set<Lock> {
    match pc
    case RegisterHold(_, _) => {Sensors}
    case MeasureHold(_, _, _) => {Sensors}
    case TypeHold(_, _, _) => {Sensors}
    case CheckHold(_, _, _, _, _, _) => {Alerts}
    case AlertLoop(_, _) => {Operators}
    case AlertLock(_, _, _) => {Operators}
    case AlertSend(_, _, m) => {Operators, Write(m)}
    case AlertUnlock(_, _, m) => {Operators, Write(m)}
    case LoginHold => {Operators}
    case LoginExit => {Operators}
    case ListHold(l) => {l}
    case Sending(_, _) => {Write(t)}
    case SendFailed => {Write(t)}
    case RemoveHold => {Operators}
    case _ => {}
  }

  /** A log call is made with whatever the handler owns at that place. */
  function Held(pc: Pc, t: nat): set<Lock> {
    match pc
    case LogWait(k) => Owned(k, t)
    case LogHold(k) => Owned(k, t) + {Logger}
    case _ => Owned(pc, t)
  }

  /** The mutex the next step of this program point releases. */
  function Frees(s: State, t: nat): Option<Lock>
    requires t < |s.conns|
  {
    match s.conns[t].pc
    case RegisterHold(_, _) => Some(Sensors)
    case MeasureHold(_, _, _) => Some(Sensors)
    case TypeHold(_, _, _) => Some(Sensors)
    case CheckHold(_, _, _, _, i, _) => if i < |s.store.thresholds| then None else Some(Alerts)
    case AlertLoop(_, i) => if i < |s.table.slots| then None else Some(Operators)
    case AlertUnlock(_, _, m) => Some(Write(m))
    case LoginExit => Some(Operators)
    case ListHold(l) => Some(l)
    case Sending(r, k) => if k < |r| then None else Some(Write(t))
    case SendFailed => Some(Write(t))
    case RemoveHold => Some(Operators)
    case LogHold(_) => Some(Logger)
    case _ => None
  }

  // ---------- descriptors ----------

  /** The descriptor is open from accept until close. */
  predicate Open(pc: Pc) {
    !pc.Destroying? && !pc.Done?
  }

  /** The handler has left remove_operator. */
  predicate Gone(pc: Pc) {
    pc.Closing? || pc.Destroying? || pc.Done?
  }

  /** pthread_mutex_destroy has been called on the connection's write mutex. */
  predicate Destroyed(pc: Pc) {
    pc.Done?
  }

  /** The connection that the system associates with a descriptor; |conns| when there is none. */
  function OpenOn(conns: seq<Conn>, fd: int): (i: nat)
    ensures i <= |conns|
    ensures forall j :: 0 <= j < i ==> !(Open(conns[j].pc) && conns[j].fd == fd)
    ensures i < |conns| ==> Open(conns[i].pc) && conns[i].fd == fd
  {
    if conns == [] || (Open(conns[0].pc) && conns[0].fd == fd) then 0 else 1 + OpenOn(conns[1..], fd)
  }

  // ---------- the effect of a step ----------

  /** What the pointer into the sensor array reads. */
  function TypeAt(store: Store, slot: nat): string {
    if slot < |store.sensors| then store.sensors[slot].ty else ""
  }

  function AlertText(id: string, ty: string, value: real, unit: string): string {
    Snprintf(256, "ALERTA " + id + "," + ty + "," + Decimals.Print(value, 2) + "," + unit + "\r\n")
  }

  /** operator_clients[i] > 0 && operator_write_mutexes[i] != NULL */
  predicate Live(slot: Slot) {
    slot.fd > 0 && slot.mutex.Some?
  }

  function Dispatch(request: Request): Pc {
    match request
    case Register(id, ty) => RegisterWait(id, ty)
    case Measure(id, value, unit) => MeasureWait(id, value, unit)
    case Login(granted) => if granted then LoginWait else RespondWait
    case GetSensors => ListWait(Sensors)
    case GetAlerts => ListWait(Alerts)
    case Identify => LogWait(RespondWait)
    case Other => RespondWait
    case HangUp => LogWait(LogWait(RemoveWait))
  }

  function NextPc(s: State, t: nat, inp: Input): Pc
    requires t < |s.conns|
  {
    match s.conns[t].pc
    case Recv => Dispatch(inp.request)
    case RegisterWait(id, ty) => RegisterHold(id, ty)
    case RegisterHold(_, _) => LogWait(RespondWait)
    case MeasureWait(id, v, u) => MeasureHold(id, v, u)
    case MeasureHold(id, v, u) =>
      if S.Has(s.store.sensors, id) then LogWait(TypeWait(id, v, u)) else LogWait(RespondWait)
    case TypeWait(id, v, u) => TypeHold(id, v, u)
    case TypeHold(id, v, u) =>
      if S.Has(s.store.sensors, id) then CheckWait(id, S.Index(s.store.sensors, id), v, u) else RespondWait
    case CheckWait(id, slot, v, u) => CheckHold(id, slot, v, u, 0, 0)
    case CheckHold(id, slot, v, u, i, fired) =>
      if i < |s.store.thresholds| then
        if A.Fires(s.store.thresholds[i], TypeAt(s.store, slot), v)
        then LogWait(CheckHold(id, slot, v, u, i + 1, fired + 1))
        else CheckHold(id, slot, v, u, i + 1, fired)
      else if fired > 0 then AlertWait(AlertText(id, TypeAt(s.store, slot), v, u))
      else RespondWait
    case AlertWait(msg) => AlertLoop(msg, 0)
    case AlertLoop(msg, i) =>
      if i < |s.table.slots| then
        if Live(s.table.slots[i]) then AlertLock(msg, i, s.table.slots[i].mutex.value) else AlertLoop(msg, i + 1)
      else RespondWait
    case AlertLock(msg, i, m) => AlertSend(msg, i, m)
    case AlertSend(msg, i, m) => AlertUnlock(msg, i, m)
    case AlertUnlock(msg, i, m) => AlertLoop(msg, i + 1)
    case LoginWait => LoginHold
    case LoginHold => if |s.table.slots| < MAX_OPERATORS then LogWait(LoginExit) else LoginExit
    case LoginExit => LogWait(RespondWait)
    case ListWait(l) => ListHold(l)
    case ListHold(_) => RespondWait
    case RespondWait => Sending(inp.response, 0)
    case Sending(r, k) =>
      if k >= |r| then LogWait(Recv)
      else if inp.sent > 0 then Sending(r, k + inp.sent)
      else LogWait(SendFailed)
    case SendFailed => LogWait(LogWait(RemoveWait))
    case RemoveWait => RemoveHold
    case RemoveHold => Closing
    case Closing => Destroying
    case Destroying => Done
    case Done => Done
    case LogWait(k) => LogHold(k)
    case LogHold(k) => k
  }

  function NextLocks(s: State, t: nat): map<Lock, nat>
    requires t < |s.conns|
  {
    match Wants(s.conns[t].pc, t)
    case Some(l) => s.locks[l := t]
    case None =>
      match Frees(s, t)
      case Some(l) => s.locks - {l}
      case None => s.locks
  }

  function NextStore(s: State, t: nat, inp: Input): Store
    requires t < |s.conns|
  {
    var store := s.store;
    match s.conns[t].pc
    case RegisterHold(id, ty) =>
      store.(sensors := S.AfterRegister(store.sensors, ty, id, inp.now), ops := store.ops + [R.Register(ty, id, inp.now)])
    case MeasureHold(id, v, u) =>
      store.(sensors := S.AfterMeasure(store.sensors, id, v, u, inp.now), ops := store.ops + [R.Measure(id, v, u, inp.now)])
    case CheckHold(id, slot, v, u, i, fired) =>
      var ty := TypeAt(store, slot);
      if i >= |store.thresholds| then store.(checks := store.checks + [Checked(id, ty, v, fired)])
      else if A.Fires(store.thresholds[i], ty, v)
      then
        var alarm := A.AlarmOf(store.thresholds[i], id, ty, v);
        store.(visible := A.Push(store.visible, A.Alert(alarm, inp.now, false)), alarms := store.alarms + [alarm])
      else store
    case _ => store
  }

  /** Position of the first slot with this descriptor; |slots| when there is none. */
  function SlotOf(slots: seq<Slot>, fd: int): (i: nat)
    ensures i <= |slots|
    ensures forall j :: 0 <= j < i ==> slots[j].fd != fd
    ensures i < |slots| ==> slots[i].fd == fd
  {
    if slots == [] || slots[0].fd == fd then 0 else 1 + SlotOf(slots[1..], fd)
  }

  /** register_operator. */
  function AddOperator(slots: seq<Slot>, fd: int, conn: nat): seq<Slot> {
    if |slots| < MAX_OPERATORS then slots + [Slot(fd, Some(conn))] else slots
  }

  /** remove_operator: only the first slot of the descriptor is cleared. */
  function ClearOperator(slots: seq<Slot>, fd: int): (r: seq<Slot>)
    ensures |r| == |slots|
  {
    var i := SlotOf(slots, fd);
    if i < |slots| then slots[i := Slot(-1, None)] else slots
  }

  function NextTable(s: State, t: nat): Table
    requires t < |s.conns|
  {
    var table := s.table;
    match s.conns[t].pc
    case AlertWait(msg) => table.(broadcasts := table.broadcasts + [msg])
    case LoginHold =>
      Table(AddOperator(table.slots, s.conns[t].fd, t), table.logins + [t],
            if |table.slots| < MAX_OPERATORS then table.since + [|table.broadcasts|] else table.since,
            if |table.slots| < MAX_OPERATORS then table.until + [0] else table.until,
            table.broadcasts)
    case RemoveHold =>
      var i := SlotOf(table.slots, s.conns[t].fd);
      table.(slots := ClearOperator(table.slots, s.conns[t].fd),
             until := if i < |table.until| then table.until[i := |table.broadcasts|] else table.until)
    case _ => table
  }

  function Clamp(n: int): nat {
    if n > 0 then n else 0
  }

  /** A send that transmits a prefix of the alert line. */
  function WithAlert(c: Conn, msg: string, n: nat): Conn
    requires n <= |msg|
  {
    c.(wire := c.wire + msg[..n], chunks := c.chunks + [AlertLine(msg, n)])
  }

  function WithResponsePart(c: Conn, response: string, k: nat, n: nat): Conn
    requires k + n <= |response|
  {
    c.(wire := c.wire + response[k..k + n],
       chunks := if c.chunks == [] then [] else c.chunks[|c.chunks| - 1 := Response(response, k + n)])
  }

  /** Output of a step: the handler's own response bytes go to its own descriptor, which is open;
      an alert goes to whatever connection the descriptor in the slot belongs to now. */
  function Delivered(s: State, t: nat, inp: Input): (conns: seq<Conn>)
    requires t < |s.conns| && SendFits(s.conns[t].pc, inp)
    ensures |conns| == |s.conns|
    ensures forall j :: 0 <= j < |conns| ==> conns[j].fd == s.conns[j].fd && conns[j].pc == s.conns[j].pc
  {
    match s.conns[t].pc
    case RespondWait => s.conns[t := s.conns[t].(chunks := s.conns[t].chunks + [Response(inp.response, 0)])]
    case Sending(r, k) =>
      if k < |r| then s.conns[t := WithResponsePart(s.conns[t], r, k, Clamp(inp.sent))] else s.conns
    case AlertSend(msg, i, m) =>
      var to := if i < |s.table.slots| then OpenOn(s.conns, s.table.slots[i].fd) else |s.conns|;
      if to < |s.conns| then s.conns[to := WithAlert(s.conns[to], msg, Clamp(inp.sent))] else s.conns
    case _ => s.conns
  }

  /** send never transmits more than it was given. */
  predicate SendFits(pc: Pc, inp: Input) {
    match pc
    case Sending(r, k) => k < |r| ==> inp.sent <= |r| - k
    case AlertSend(msg, i, m) => inp.sent <= |msg|
    case _ => true
  }

  predicate CanRun(s: State, t: nat, inp: Input) {
    && t < |s.conns| && !s.conns[t].pc.Done? && SendFits(s.conns[t].pc, inp)
    && (var w := Wants(s.conns[t].pc, t); w.Some? ==> w.value !in s.locks)
  }

  function Step(s: State, t: nat, inp: Input): State
    requires CanRun(s, t, inp)
  {
    var conns := Delivered(s, t, inp);
    State(conns[t := conns[t].(pc := NextPc(s, t, inp))], NextLocks(s, t), NextStore(s, t, inp), NextTable(s, t))
  }

  /** accept: the new descriptor is not in use. The log line of the accepting thread and that of the
      started handler come first. */
  function Accepted(s: State, fd: nat): State {
    s.(conns := s.conns + [Conn(fd, LogWait(LogWait(Recv)), "", [])])
  }

  predicate Legal(s: State, m: Move) {
    match m
    case Accept(fd) => OpenOn(s.conns, fd) == |s.conns|
    case Run(t, inp) => CanRun(s, t, inp)
  }

  function Next(s: State, m: Move): State
    requires Legal(s, m)
  {
    match m
    case Accept(fd) => Accepted(s, fd)
    case Run(t, inp) => Step(s, t, inp)
  }

  // ---------- runs ----------

  predicate LegalRun(thresholds: seq<A.Threshold>, moves: seq<Move>)
    decreases |moves|, 0
  {
    moves == [] ||
    (LegalRun(thresholds, moves[..|moves| - 1])
     && Legal(Reached(thresholds, moves[..|moves| - 1]), moves[|moves| - 1]))
  }

  /** The state after a run from the empty server. */
  function Reached(thresholds: seq<A.Threshold>, moves: seq<Move>): State
    requires LegalRun(thresholds, moves)
    decreases |moves|, 1
  {
    if moves == [] then Init(thresholds)
    else Next(Reached(thresholds, moves[..|moves| - 1]), moves[|moves| - 1])
  }

  lemma {:induction false} PrefixLegal(thresholds: seq<A.Threshold>, moves: seq<Move>, n: nat)
    requires LegalRun(thresholds, moves) && n <= |moves|
    ensures LegalRun(thresholds, moves[..n])
  {
    if n < |moves| {
      PrefixLegal(thresholds, moves[..|moves| - 1], n);
      assert moves[..|moves| - 1][..n] == moves[..n];
    } else {
      assert moves[..n] == moves;
    }
  }

  // ---------- frames ----------

  /** Other handlers keep their place; descriptors never change. */
  lemma StepFrame(s: State, t: nat, inp: Input)
    requires CanRun(s, t, inp)
    ensures var q := Step(s, t, inp);
            && |q.conns| == |s.conns|
            && q.conns[t].pc == NextPc(s, t, inp)
            && (forall j :: 0 <= j < |q.conns| ==> q.conns[j].fd == s.conns[j].fd)
            && (forall j :: 0 <= j < |q.conns| && j != t ==> q.conns[j].pc == s.conns[j].pc)
  {
  }
}
