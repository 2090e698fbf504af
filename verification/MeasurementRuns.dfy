/** What follows from every stored measurement, under every interleaving: one check, and one broadcast when
    the reading breaks a rule, in the order in which the measurements were stored. */
module MeasurementRuns {
  import opened Handlers
  import opened LockOrder
  import opened StoreRuns
  import AlertRuns
  import S = SensorManager
  import A = AlertEngine
  import R = RegistryRuns

  /** A check that returned, or a broadcast that started. */
  datatype Event = Finished(check: Checked) | Started(msg: string)

  function TypeOf(r: seq<S.Entry>, id: string): string {
    if S.Has(r, id) then r[S.Index(r, id)].ty else ""
  }

  /** What a reading of a sensor of type `ty` should lead to: a check that counts the rules it breaks, and an
      alert if there is one. */
  function FollowUp(ts: seq<A.Threshold>, id: string, ty: string, value: real, unit: string): seq<Event> {
    var n := |AlertRuns.Broken(ts, ty, value)|;
    [Finished(Checked(id, ty, value, n))] + if n > 0 then [Started(AlertText(id, ty, value, unit))] else []
  }

  // ---------- from the states before and after a step ----------

  /** What the measurement that appeared in the log of registry operations should lead to. */
  function DueFrom(s: State, q: State): seq<Event> {
    if |q.store.ops| <= |s.store.ops| then [] else
      match q.store.ops[|q.store.ops| - 1]
      case Register(ty, id, now) => []
      case Measure(id, value, unit, now) =>
        if S.Has(s.store.sensors, id)
        then FollowUp(s.store.thresholds, id, TypeOf(s.store.sensors, id), value, unit) else []
  }

  /** What appeared in the log of checks or in the order of broadcasts. */
  function NewIn(s: State, q: State): seq<Event> {
    if |q.store.checks| > |s.store.checks| then [Finished(q.store.checks[|q.store.checks| - 1])]
    else if |q.table.broadcasts| > |s.table.broadcasts| then [Started(q.table.broadcasts[|q.table.broadcasts| - 1])]
    else []
  }

  /** What the measurements that handler t stored should lead to, in order. */
  function Due(thresholds: seq<A.Threshold>, moves: seq<Move>, t: nat): seq<Event>
    requires LegalRun(thresholds, moves)
  {
    if moves == [] then [] else
      var n := |moves| - 1;
      var before := Due(thresholds, moves[..n], t);
      if moves[n].Run? && moves[n].t == t
      then before + DueFrom(Reached(thresholds, moves[..n]), Reached(thresholds, moves)) else before
  }

  /** The checks and broadcasts of handler t, in order. */
  function Happened(thresholds: seq<A.Threshold>, moves: seq<Move>, t: nat): seq<Event>
    requires LegalRun(thresholds, moves)
  {
    if moves == [] then [] else
      var n := |moves| - 1;
      var before := Happened(thresholds, moves[..n], t);
      if moves[n].Run? && moves[n].t == t
      then before + NewIn(Reached(thresholds, moves[..n]), Reached(thresholds, moves)) else before
  }

  /** What is still to come at a program point. */
  function ToCome(store: Store, pc: Pc): seq<Event> {
    match pc
    case TypeWait(id, v, u) => FollowUp(store.thresholds, id, TypeOf(store.sensors, id), v, u)
    case TypeHold(id, v, u) => FollowUp(store.thresholds, id, TypeOf(store.sensors, id), v, u)
    case CheckWait(id, slot, v, u) => FollowUp(store.thresholds, id, TypeAt(store, slot), v, u)
    case CheckHold(id, slot, v, u, i, fired) => FollowUp(store.thresholds, id, TypeAt(store, slot), v, u)
    case AlertWait(msg) => [Started(msg)]
    case _ => []
  }

  // ---------- one step ----------

  /** Nobody's step changes what is to come for the others. */
  lemma ToComeKept(a: Store, b: Store, pc: Pc)
    requires R.Extends(a.sensors, b.sensors) && a.thresholds == b.thresholds && LookupOk(a, pc)
    ensures ToCome(b, pc) == ToCome(a, pc)
  {
    match pc
    case TypeWait(id, _, _) => R.LookupStable(a.sensors, b.sensors, id);
    case TypeHold(id, _, _) => R.LookupStable(a.sensors, b.sensors, id);
    case CheckWait(id, _, _, _) => R.LookupStable(a.sensors, b.sensors, id);
    case CheckHold(id, _, _, _, _, _) => R.LookupStable(a.sensors, b.sensors, id);
    case _ =>
  }

  /** The step adds up: what was to come and what it makes due is what it did and what is to come. */
  ghost predicate AddsUp(s: State, t: nat, q: State)
    requires t < |s.conns| && t < |q.conns|
  {
    ToCome(s.store, Inner(s.conns[t].pc)) + DueFrom(s, q) == NewIn(s, q) + ToCome(q.store, Inner(q.conns[t].pc))
  }

  /** The logs after a step. */
  lemma LogsAfter(s: State, t: nat, inp: Input)
    requires CanRun(s, t, inp)
    ensures var q := Step(s, t, inp); var pc := s.conns[t].pc;
            && (!pc.RegisterHold? && !pc.MeasureHold? ==> q.store.ops == s.store.ops && q.store.sensors == s.store.sensors)
            && (!pc.CheckHold? ==> q.store.checks == s.store.checks)
            && (!pc.AlertWait? ==> q.table.broadcasts == s.table.broadcasts)
            && (pc.RegisterHold? ==> q.store.ops == s.store.ops + [R.Register(pc.ty, pc.id, inp.now)])
            && (pc.MeasureHold? ==> q.store.ops == s.store.ops + [R.Measure(pc.id, pc.value, pc.unit, inp.now)])
            && (pc.AlertWait? ==> q.table.broadcasts == s.table.broadcasts + [pc.msg])
            && q.store.thresholds == s.store.thresholds
  {
  }

  lemma MeasureAddsUp(s: State, t: nat, inp: Input)
    requires CanRun(s, t, inp) && s.conns[t].pc.MeasureHold? && s.store.sensors == R.Replay(s.store.ops)
    ensures AddsUp(s, t, Step(s, t, inp))
  {
    LogsAfter(s, t, inp);
    StoreStep(s, t, inp);
    MeasurePoint(s, t, inp, NextStore(s, t, inp));
  }

  lemma MeasurePoint(s: State, t: nat, inp: Input, after: Store)
    requires t < |s.conns| && s.conns[t].pc.MeasureHold?
    requires R.Extends(s.store.sensors, after.sensors) && after.thresholds == s.store.thresholds
    ensures var pc := s.conns[t].pc;
            ToCome(after, Inner(NextPc(s, t, inp))) ==
            if S.Has(s.store.sensors, pc.id)
            then FollowUp(s.store.thresholds, pc.id, TypeOf(s.store.sensors, pc.id), pc.value, pc.unit) else []
  {
    if S.Has(s.store.sensors, s.conns[t].pc.id) {
      R.LookupStable(s.store.sensors, after.sensors, s.conns[t].pc.id);
    }
  }

  lemma ScanAddsUp(s: State, t: nat, inp: Input)
    requires CanRun(s, t, inp) && s.conns[t].pc.CheckHold? && s.conns[t].pc.i < |s.store.thresholds|
    ensures AddsUp(s, t, Step(s, t, inp))
  {
    LogsAfter(s, t, inp);
    ScanStore(s, t, inp);
    ScanPc(s, t, inp);
  }

  lemma FinishAddsUp(s: State, t: nat, inp: Input)
    requires CanRun(s, t, inp) && s.conns[t].pc.CheckHold? && s.conns[t].pc.i >= |s.store.thresholds|
    requires CountOk(s.store, s.conns[t].pc)
    ensures AddsUp(s, t, Step(s, t, inp))
  {
    LogsAfter(s, t, inp);
    var CheckHold(id, slot, v, u, i, fired) := s.conns[t].pc;
    assert s.store.thresholds[..i] == s.store.thresholds;
    AlertRuns.BlockCount(s.store.thresholds, id, TypeAt(s.store, slot), v);
  }

  /** Neither storing nor checking. */
  lemma OtherAddsUp(s: State, t: nat, inp: Input)
    requires CanRun(s, t, inp) && PcOk(s.conns[t].pc) && LookupOk(s.store, Inner(s.conns[t].pc))
    requires !s.conns[t].pc.MeasureHold? && !s.conns[t].pc.RegisterHold? && !s.conns[t].pc.CheckHold?
    ensures AddsUp(s, t, Step(s, t, inp))
  {
    LogsAfter(s, t, inp);
    OtherPoints(s, t, inp);
  }

  lemma OtherPoints(s: State, t: nat, inp: Input)
    requires t < |s.conns| && PcOk(s.conns[t].pc) && LookupOk(s.store, Inner(s.conns[t].pc))
    requires !s.conns[t].pc.MeasureHold? && !s.conns[t].pc.RegisterHold? && !s.conns[t].pc.CheckHold?
    ensures ToCome(s.store, Inner(NextPc(s, t, inp)))
         == if s.conns[t].pc.AlertWait? then [] else ToCome(s.store, Inner(s.conns[t].pc))
  {
    var pc := s.conns[t].pc;
    if pc.LogWait? || pc.LogHold? {
      LogPoints(s, t, inp);
    } else if StorePart(pc) || ScanPart(pc) {
      StorePoints(s, t, inp);
    } else {
      QuietPoints(s, t, inp);
    }
  }

  lemma LogPoints(s: State, t: nat, inp: Input)
    requires t < |s.conns| && PcOk(s.conns[t].pc) && (s.conns[t].pc.LogWait? || s.conns[t].pc.LogHold?)
    ensures ToCome(s.store, Inner(NextPc(s, t, inp))) == ToCome(s.store, Inner(s.conns[t].pc))
  {
  }

  lemma StorePoints(s: State, t: nat, inp: Input)
    requires t < |s.conns| && LookupOk(s.store, s.conns[t].pc) && (StorePart(s.conns[t].pc) || ScanPart(s.conns[t].pc))
    requires !s.conns[t].pc.MeasureHold? && !s.conns[t].pc.RegisterHold? && !s.conns[t].pc.CheckHold?
    ensures ToCome(s.store, Inner(NextPc(s, t, inp))) == ToCome(s.store, s.conns[t].pc)
  {
  }

  lemma QuietPoints(s: State, t: nat, inp: Input)
    requires t < |s.conns| && !StorePart(s.conns[t].pc) && !ScanPart(s.conns[t].pc)
    requires !s.conns[t].pc.LogWait? && !s.conns[t].pc.LogHold?
    ensures ToCome(s.store, Inner(NextPc(s, t, inp))) == []
    ensures !s.conns[t].pc.AlertWait? ==> ToCome(s.store, Inner(s.conns[t].pc)) == []
  {
  }

  lemma StepAddsUp(s: State, t: nat, inp: Input)
    requires RegistryInv(s) && AlarmInv(s) && CanRun(s, t, inp) && PcOk(s.conns[t].pc)
    ensures AddsUp(s, t, Step(s, t, inp))
  {
    var pc := s.conns[t].pc;
    assert LookupOk(s.store, Inner(pc)) && CountOk(s.store, Inner(pc));
    if pc.MeasureHold? {
      MeasureAddsUp(s, t, inp);
    } else if pc.RegisterHold? {
      LogsAfter(s, t, inp);
    } else if pc.CheckHold? && pc.i < |s.store.thresholds| {
      ScanAddsUp(s, t, inp);
    } else if pc.CheckHold? {
      FinishAddsUp(s, t, inp);
    } else {
      OtherAddsUp(s, t, inp);
    }
  }

  // ---------- whole runs ----------

  ghost predicate Followed(thresholds: seq<A.Threshold>, moves: seq<Move>, t: nat, store: Store, pc: Pc)
    requires LegalRun(thresholds, moves)
  {
    Due(thresholds, moves, t) == Happened(thresholds, moves, t) + ToCome(store, Inner(pc))
  }

  lemma Regroup(due: seq<Event>, done: seq<Event>, way: seq<Event>, more: seq<Event>, did: seq<Event>, next: seq<Event>)
    requires due == done + way && way + more == did + next
    ensures due + more == (done + did) + next
  {
    assert due + more == done + (way + more);
  }

  lemma FollowedByStep(thresholds: seq<A.Threshold>, moves: seq<Move>, t: nat, inp: Input)
    requires LegalRun(thresholds, moves) && moves != [] && moves[|moves| - 1] == Run(t, inp)
    requires var s := Reached(thresholds, moves[..|moves| - 1]);
             && t < |s.conns| && PcOk(s.conns[t].pc)
             && RegistryInv(s) && AlarmInv(s) && Followed(thresholds, moves[..|moves| - 1], t, s.store, s.conns[t].pc)
    ensures var q := Reached(thresholds, moves);
            t < |q.conns| && Followed(thresholds, moves, t, q.store, q.conns[t].pc)
  {
    var n := |moves| - 1;
    var s, q := Reached(thresholds, moves[..n]), Reached(thresholds, moves);
    StepAddsUp(s, t, inp);
    Regroup(Due(thresholds, moves[..n], t), Happened(thresholds, moves[..n], t), ToCome(s.store, Inner(s.conns[t].pc)),
            DueFrom(s, q), NewIn(s, q), ToCome(q.store, Inner(q.conns[t].pc)));
  }

  lemma FollowedByOther(thresholds: seq<A.Threshold>, moves: seq<Move>, t: nat)
    requires LegalRun(thresholds, moves) && moves != [] && !(moves[|moves| - 1].Run? && moves[|moves| - 1].t == t)
    requires var s := Reached(thresholds, moves[..|moves| - 1]);
             && t < |s.conns| && RegistryInv(s) && Followed(thresholds, moves[..|moves| - 1], t, s.store, s.conns[t].pc)
    ensures var q := Reached(thresholds, moves);
            t < |q.conns| && Followed(thresholds, moves, t, q.store, q.conns[t].pc)
  {
    var s := Reached(thresholds, moves[..|moves| - 1]);
    match moves[|moves| - 1]
    case Accept(fd) =>
      assert Accepted(s, fd).conns[t] == s.conns[t];
    case Run(u, inp) =>
      StepFrame(s, u, inp);
      StoreStep(s, u, inp);
      ToComeKept(s.store, Step(s, u, inp).store, Inner(s.conns[t].pc));
  }

  lemma {:induction false} NothingBefore(thresholds: seq<A.Threshold>, moves: seq<Move>, t: nat)
    requires LegalRun(thresholds, moves) && t >= |Reached(thresholds, moves).conns|
    ensures Due(thresholds, moves, t) == [] && Happened(thresholds, moves, t) == []
  {
    if moves != [] {
      var n := |moves| - 1;
      if moves[n].Run? {
        StepFrame(Reached(thresholds, moves[..n]), moves[n].t, moves[n].inp);
      }
      NothingBefore(thresholds, moves[..n], t);
    }
  }

  /** Under every interleaving: the checks and broadcasts of a connection are, in order, what its stored
      measurements should lead to, up to what is still to come. Each stored measurement is checked once, under
      the type its sensor had when it was stored, the check counts the rules that the reading breaks, and one
      alert is broadcast exactly when there is one. */
  lemma {:induction false} MeasurementsFollowed(thresholds: seq<A.Threshold>, moves: seq<Move>, t: nat)
    requires LegalRun(thresholds, moves) && t < |Reached(thresholds, moves).conns|
    ensures var s := Reached(thresholds, moves); Followed(thresholds, moves, t, s.store, s.conns[t].pc)
  {
    var n := |moves| - 1;
    var s := Reached(thresholds, moves[..n]);
    RegistryReached(thresholds, moves[..n]);
    if t >= |s.conns| {
      NothingBefore(thresholds, moves[..n], t);
      NewIsIdle(thresholds, moves, t);
    } else {
      MeasurementsFollowed(thresholds, moves[..n], t);
      if moves[n].Run? && moves[n].t == t {
        LocksReached(thresholds, moves[..n]);
        AlarmsReached(thresholds, moves[..n]);
        FollowedByStep(thresholds, moves, t, moves[n].inp);
      } else {
        FollowedByOther(thresholds, moves, t);
      }
    }
  }

  lemma NewIsIdle(thresholds: seq<A.Threshold>, moves: seq<Move>, t: nat)
    requires LegalRun(thresholds, moves) && moves != []
    requires |Reached(thresholds, moves[..|moves| - 1]).conns| <= t < |Reached(thresholds, moves).conns|
    ensures !(moves[|moves| - 1].Run? && moves[|moves| - 1].t == t)
    ensures ToCome(Reached(thresholds, moves).store, Inner(Reached(thresholds, moves).conns[t].pc)) == []
  {
    var s := Reached(thresholds, moves[..|moves| - 1]);
    match moves[|moves| - 1]
    case Accept(fd) =>
    case Run(u, inp) => StepFrame(s, u, inp);
  }
}
