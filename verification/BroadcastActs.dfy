/** The steps of a broadcast in the transition system are those of the loop over the operator arrays. */
module BroadcastActs {
  import opened Handlers
  import opened LockOrder
  import opened OperatorTable
  import opened Broadcasts
  import opened Connections
  import A = AlertEngine

  /** What a step does to write mutexes and operators' descriptors as part of a broadcast. */
  function ActOf(s: State, t: nat): seq<Act>
    requires t < |s.conns|
  {
    match s.conns[t].pc
    case AlertLock(_, _, m) => [LockMutex(m)]
    case AlertSend(msg, i, _) => if i < |s.table.slots| then [SendTo(s.table.slots[i].fd, msg)] else []
    case AlertUnlock(_, _, m) => [UnlockMutex(m)]
    case _ => []
  }

  /** All such acts since the latest broadcast took the operator mutex. */
  function Acts(thresholds: seq<A.Threshold>, moves: seq<Move>): seq<Act>
    requires LegalRun(thresholds, moves)
  {
    if moves == [] then [] else
      var n := |moves| - 1;
      var s := Reached(thresholds, moves[..n]);
      match moves[n]
      case Accept(fd) => Acts(thresholds, moves[..n])
      case Run(t, inp) =>
        if s.conns[t].pc.AlertWait? then [] else Acts(thresholds, moves[..n]) + ActOf(s, t)
  }

  /** The operator table when the latest broadcast took the operator mutex. */
  function Audience(thresholds: seq<A.Threshold>, moves: seq<Move>): seq<Slot>
    requires LegalRun(thresholds, moves)
  {
    if moves == [] then [] else
      var n := |moves| - 1;
      var s := Reached(thresholds, moves[..n]);
      if moves[n].Run? && s.conns[moves[n].t].pc.AlertWait? then s.table.slots else Audience(thresholds, moves[..n])
  }

  /** What a broadcast that stands here has done so far. */
  function DoneAt(slots: seq<Slot>, pc: Pc): seq<Act>
    requires Alerting(pc) && Pinned(slots, pc)
  {
    match pc
    case AlertLoop(msg, i) => ActsFor(slots[..i], msg)
    case AlertLock(msg, i, m) => ActsFor(slots[..i], msg)
    case AlertSend(msg, i, m) => ActsFor(slots[..i], msg) + [LockMutex(m)]
    case AlertUnlock(msg, i, m) => ActsFor(slots[..i], msg) + [LockMutex(m), SendTo(slots[i].fd, msg)]
  }

  /** The acts recorded fit where the handler stands. */
  ghost predicate ActsOk(slots: seq<Slot>, pc: Pc, audience: seq<Slot>, acts: seq<Act>) {
    Alerting(pc) ==> audience == slots && Pinned(slots, pc) && acts == DoneAt(slots, pc)
  }

  lemma ActsStep(slots: seq<Slot>, i: nat, msg: string)
    requires i < |slots|
    ensures ActsFor(slots[..i + 1], msg) ==
            if Live(slots[i])
            then ActsFor(slots[..i], msg)
                 + [LockMutex(slots[i].mutex.value), SendTo(slots[i].fd, msg), UnlockMutex(slots[i].mutex.value)]
            else ActsFor(slots[..i], msg)
  {
    assert slots[..i + 1][..i] == slots[..i];
  }

  /** One step of the broadcast itself. */
  lemma ActsNext(s: State, t: nat, inp: Input, audience: seq<Slot>, acts: seq<Act>)
    requires CanRun(s, t, inp) && Alerting(s.conns[t].pc) && ActsOk(s.table.slots, s.conns[t].pc, audience, acts)
    ensures NextTable(s, t) == s.table
    ensures ActsOk(s.table.slots, NextPc(s, t, inp), audience, acts + ActOf(s, t))
  {
    var pc := s.conns[t].pc;
    if pc.i < |s.table.slots| {
      ActsStep(s.table.slots, pc.i, pc.msg);
    }
  }

  lemma NotYetAlerting(s: State, t: nat, inp: Input)
    requires CanRun(s, t, inp) && PcOk(s.conns[t].pc) && !Alerting(s.conns[t].pc)
    ensures Alerting(NextPc(s, t, inp)) ==> s.conns[t].pc.AlertWait? && NextPc(s, t, inp) == AlertLoop(s.conns[t].pc.msg, 0)
    ensures ActOf(s, t) == []
  {
  }

  /** While one handler broadcasts, a step of another one is no part of a broadcast. */
  lemma OthersDoNotAct(s: State, t: nat, u: nat, inp: Input)
    requires LockInv(s) && CanRun(s, t, inp) && u < |s.conns| && u != t && Alerting(s.conns[u].pc)
    ensures !s.conns[t].pc.AlertWait? && ActOf(s, t) == [] && NextTable(s, t).slots == s.table.slots
  {
    AlertingOwnsOperators(s.conns[u].pc, u);
    assert s.locks[Operators] == u;
    if Operators in Held(s.conns[t].pc, t) {
      OneOwner(s, t, u, Operators);
    }
    if NextTable(s, t).slots != s.table.slots {
      SlotsChangedUnderLock(s, t);
    }
  }

  lemma {:induction false} ActsReached(thresholds: seq<A.Threshold>, moves: seq<Move>, u: nat)
    requires LegalRun(thresholds, moves) && u < |Reached(thresholds, moves).conns|
    ensures ActsOk(Reached(thresholds, moves).table.slots, Reached(thresholds, moves).conns[u].pc,
                   Audience(thresholds, moves), Acts(thresholds, moves))
  {
    if moves != [] {
      var n := |moves| - 1;
      var s := Reached(thresholds, moves[..n]);
      LocksReached(thresholds, moves[..n]);
      match moves[n]
      case Accept(fd) =>
        if u < |s.conns| {
          ActsReached(thresholds, moves[..n], u);
          assert Accepted(s, fd).conns[u] == s.conns[u];
        }
      case Run(t, inp) =>
        ActsReached(thresholds, moves[..n], u);
        StepFrame(s, t, inp);
        if u == t {
          if Alerting(s.conns[t].pc) {
            ActsNext(s, t, inp, Audience(thresholds, moves[..n]), Acts(thresholds, moves[..n]));
          } else {
            NotYetAlerting(s, t, inp);
          }
        } else if Alerting(s.conns[u].pc) {
          OthersDoNotAct(s, t, u, inp);
        }
    }
  }

  /** Under every interleaving, a broadcast that is about to give the operator mutex back has done
      exactly what the loop over the operator arrays does: for each live slot of the table it started
      with, in order, lock, one send of its message on that slot's descriptor, unlock. */
  lemma BroadcastDoesLoop(thresholds: seq<A.Threshold>, moves: seq<Move>, t: nat)
    requires LegalRun(thresholds, moves) && t < |Reached(thresholds, moves).conns|
    requires var s := Reached(thresholds, moves); s.conns[t].pc.AlertLoop? && s.conns[t].pc.i >= |s.table.slots|
    ensures Reached(thresholds, moves).table.slots == Audience(thresholds, moves)
    ensures Acts(thresholds, moves) == ActsFor(Audience(thresholds, moves), Reached(thresholds, moves).conns[t].pc.msg)
  {
    ActsReached(thresholds, moves, t);
    var s := Reached(thresholds, moves);
    assert s.table.slots[..s.conns[t].pc.i] == s.table.slots;
  }
}
