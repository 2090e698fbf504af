/** The shared stores under every interleaving: the registry is a sequential run, the type pointer
    that leaves its critical section stays right, and the alarms form one block per check. */
module StoreRuns {
  import opened Handlers
  import opened LockOrder
  import R = RegistryRuns
  import S = SensorManager
  import A = AlertEngine
  import AlertRuns
  import CStrings

  /** The place in handle_client, with a log call looked through. */
  function Inner(pc: Pc): Pc {
    match pc
    case LogWait(k) => k
    case LogHold(k) => k
    case _ => pc
  }

  // ---------- the registry ----------

  lemma ApplyExtends(r: seq<S.Entry>, op: R.Op)
    ensures R.Extends(r, R.Apply(r, op))
  {
  }

  /** A lookup that a handler relies on still holds. */
  ghost predicate LookupOk(store: Store, pc: Pc) {
    match pc
    case TypeWait(id, _, _) => S.Has(store.sensors, id)
    case TypeHold(id, _, _) => S.Has(store.sensors, id)
    case CheckWait(id, slot, _, _) => S.Has(store.sensors, id) && slot == S.Index(store.sensors, id)
    case CheckHold(id, slot, _, _, _, _) => S.Has(store.sensors, id) && slot == S.Index(store.sensors, id)
    case _ => true
  }

  ghost predicate RegistryInv(s: State) {
    && s.store.sensors == R.Replay(s.store.ops)
    && forall t :: 0 <= t < |s.conns| ==> LookupOk(s.store, Inner(s.conns[t].pc))
  }

  /** Registry operations append one operation of the run; everything else leaves it alone. */
  lemma StoreStep(s: State, t: nat, inp: Input)
    requires t < |s.conns| && s.store.sensors == R.Replay(s.store.ops)
    ensures var q := NextStore(s, t, inp);
            && q.sensors == R.Replay(q.ops)
            && R.Extends(s.store.sensors, q.sensors)
            && q.thresholds == s.store.thresholds
  {
    var q := NextStore(s, t, inp);
    if q.ops != s.store.ops {
      var op := q.ops[|q.ops| - 1];
      assert q.ops[..|q.ops| - 1] == s.store.ops;
      ApplyExtends(s.store.sensors, op);
    }
  }

  lemma LookupKept(a: Store, b: Store, pc: Pc)
    requires R.Extends(a.sensors, b.sensors) && LookupOk(a, pc)
    ensures LookupOk(b, pc)
  {
    match pc
    case TypeWait(id, _, _) => R.LookupStable(a.sensors, b.sensors, id);
    case TypeHold(id, _, _) => R.LookupStable(a.sensors, b.sensors, id);
    case CheckWait(id, _, _, _) => R.LookupStable(a.sensors, b.sensors, id);
    case CheckHold(id, _, _, _, _, _) => R.LookupStable(a.sensors, b.sensors, id);
    case _ =>
  }

  /** A handler that does not change the registry only goes where its lookup entitles it to. */
  lemma LookupFlow(s: State, t: nat, inp: Input)
    requires t < |s.conns| && PcOk(s.conns[t].pc) && !s.conns[t].pc.MeasureHold?
    requires LookupOk(s.store, Inner(s.conns[t].pc))
    ensures LookupOk(s.store, Inner(NextPc(s, t, inp)))
  {
  }

  lemma LookupAfterMeasure(s: State, t: nat, inp: Input)
    requires t < |s.conns| && s.conns[t].pc.MeasureHold?
    requires R.Extends(s.store.sensors, NextStore(s, t, inp).sensors)
    ensures LookupOk(NextStore(s, t, inp), Inner(NextPc(s, t, inp)))
  {
    if S.Has(s.store.sensors, s.conns[t].pc.id) {
      R.LookupStable(s.store.sensors, NextStore(s, t, inp).sensors, s.conns[t].pc.id);
    }
  }

  /** Where a step goes, the lookup it relies on holds in the registry it leaves behind. */
  lemma LookupAfterStep(s: State, t: nat, inp: Input)
    requires t < |s.conns| && PcOk(s.conns[t].pc) && s.store.sensors == R.Replay(s.store.ops)
    requires LookupOk(s.store, Inner(s.conns[t].pc))
    ensures LookupOk(NextStore(s, t, inp), Inner(NextPc(s, t, inp)))
  {
    StoreStep(s, t, inp);
    if s.conns[t].pc.MeasureHold? {
      LookupAfterMeasure(s, t, inp);
    } else {
      LookupFlow(s, t, inp);
      LookupKept(s.store, NextStore(s, t, inp), Inner(NextPc(s, t, inp)));
    }
  }

  lemma RegistryStep(s: State, t: nat, inp: Input)
    requires LockInv(s) && RegistryInv(s) && CanRun(s, t, inp)
    ensures RegistryInv(Step(s, t, inp))
  {
    var q := Step(s, t, inp);
    StepFrame(s, t, inp);
    StoreStep(s, t, inp);
    forall u | 0 <= u < |q.conns| ensures LookupOk(q.store, Inner(q.conns[u].pc)) {
      if u == t {
        LookupAfterStep(s, t, inp);
      } else {
        LookupKept(s.store, q.store, Inner(s.conns[u].pc));
      }
    }
  }

  lemma RegistryAccept(s: State, fd: nat)
    requires RegistryInv(s)
    ensures RegistryInv(Accepted(s, fd))
  {
    var q := Accepted(s, fd);
    forall u | 0 <= u < |q.conns| ensures LookupOk(q.store, Inner(q.conns[u].pc)) {
      if u < |s.conns| {
        assert q.conns[u] == s.conns[u];
      }
    }
  }

  /** In every interleaving the sensor array is the result of a sequential run of the operations in
      the order in which they held the sensor mutex. */
  lemma {:induction false} RegistryReached(thresholds: seq<A.Threshold>, moves: seq<Move>)
    requires LegalRun(thresholds, moves)
    ensures RegistryInv(Reached(thresholds, moves))
  {
    if moves != [] {
      var n := |moves| - 1;
      RegistryReached(thresholds, moves[..n]);
      LocksReached(thresholds, moves[..n]);
      var s := Reached(thresholds, moves[..n]);
      match moves[n]
      case Accept(fd) => RegistryAccept(s, fd);
      case Run(t, inp) => RegistryStep(s, t, inp);
    }
  }

  /** Under every interleaving a measurement is accepted exactly when some registration that held the
      sensor mutex earlier was accepted and is stored under its id. */
  lemma MeasurementStoredIff(thresholds: seq<A.Threshold>, moves: seq<Move>, t: nat, inp: Input)
    requires LegalRun(thresholds, moves) && t < |Reached(thresholds, moves).conns|
    requires Reached(thresholds, moves).conns[t].pc.MeasureHold?
    ensures var s := Reached(thresholds, moves); var pc := s.conns[t].pc;
            && (NextPc(s, t, inp) == LogWait(TypeWait(pc.id, pc.value, pc.unit))
                <==> exists k: nat :: R.Stores(s.store.ops, k, pc.id))
            && (NextPc(s, t, inp) == LogWait(TypeWait(pc.id, pc.value, pc.unit))
                || NextPc(s, t, inp) == LogWait(RespondWait))
  {
    RegistryReached(thresholds, moves);
    var s := Reached(thresholds, moves);
    R.FoundIffStored(s.store.ops, s.conns[t].pc.id);
  }

  /** Once a measurement was stored, the later lookup never answers NULL. */
  lemma TypeLookupSucceeds(thresholds: seq<A.Threshold>, moves: seq<Move>, t: nat, inp: Input)
    requires LegalRun(thresholds, moves) && t < |Reached(thresholds, moves).conns|
    requires Reached(thresholds, moves).conns[t].pc.TypeHold?
    ensures NextPc(Reached(thresholds, moves), t, inp).CheckWait?
  {
    RegistryReached(thresholds, moves);
    assert Inner(Reached(thresholds, moves).conns[t].pc).TypeHold?;
  }

  /** While a measurement is checked, outside the sensor mutex, the pointer reads the type of the
      first accepted registration stored under the sensor's id. */
  lemma TypePointerStable(thresholds: seq<A.Threshold>, moves: seq<Move>, t: nat, k: nat)
    requires LegalRun(thresholds, moves) && t < |Reached(thresholds, moves).conns|
    requires var pc := Inner(Reached(thresholds, moves).conns[t].pc); pc.CheckWait? || pc.CheckHold?
    requires var s := Reached(thresholds, moves); var id := Inner(s.conns[t].pc).id;
             R.Stores(s.store.ops, k, id) && forall j: nat :: j < k ==> !R.Stores(s.store.ops, j, id)
    ensures var s := Reached(thresholds, moves);
            TypeAt(s.store, Inner(s.conns[t].pc).slot) == CStrings.Take(s.store.ops[k].ty, 15)
  {
    RegistryReached(thresholds, moves);
    var s := Reached(thresholds, moves);
    R.FirstTypeWins(s.store.ops, k, Inner(s.conns[t].pc).id);
  }

  /** Such a first registration exists. */
  lemma CheckedSensorWasRegistered(thresholds: seq<A.Threshold>, moves: seq<Move>, t: nat)
    requires LegalRun(thresholds, moves) && t < |Reached(thresholds, moves).conns|
    requires var pc := Inner(Reached(thresholds, moves).conns[t].pc); pc.CheckWait? || pc.CheckHold?
    ensures var s := Reached(thresholds, moves);
            exists k: nat :: R.Stores(s.store.ops, k, Inner(s.conns[t].pc).id)
  {
    RegistryReached(thresholds, moves);
    var s := Reached(thresholds, moves);
    R.FoundIffStored(s.store.ops, Inner(s.conns[t].pc).id);
  }

  // ---------- the alarms ----------

  function Blocks(ts: seq<A.Threshold>, checks: seq<Checked>): seq<A.Alarm> {
    if checks == [] then [] else
      var c := checks[|checks| - 1];
      Blocks(ts, checks[..|checks| - 1]) + A.Block(ts, c.id, c.ty, c.value)
  }

  function SumReturned(checks: seq<Checked>): nat {
    if checks == [] then 0 else SumReturned(checks[..|checks| - 1]) + checks[|checks| - 1].returned
  }

  /** The part of its block that a check at this place has appended so far. */
  function Partial(store: Store, pc: Pc): seq<A.Alarm> {
    match pc
    case CheckHold(id, slot, v, _, i, _) =>
      A.Block(if i <= |store.thresholds| then store.thresholds[..i] else store.thresholds, id, TypeAt(store, slot), v)
    case _ => []
  }

  /** The block that the owner of the alert mutex is building. */
  function Unfinished(s: State): seq<A.Alarm> {
    if Alerts in s.locks && s.locks[Alerts] < |s.conns|
    then Partial(s.store, Inner(s.conns[s.locks[Alerts]].pc)) else []
  }

  ghost predicate CountOk(store: Store, pc: Pc) {
    match pc
    case CheckHold(id, slot, v, u, i, fired) => i <= |store.thresholds| && fired == |Partial(store, pc)|
    case _ => true
  }

  /** Completed blocks, then the unfinished one. */
  ghost predicate AlarmsOk(s: State) {
    s.store.alarms == Blocks(s.store.thresholds, s.store.checks) + Unfinished(s)
  }

  ghost predicate SumsOk(store: Store) {
    |Blocks(store.thresholds, store.checks)| == SumReturned(store.checks)
  }

  ghost predicate CountsOk(s: State) {
    forall t :: 0 <= t < |s.conns| ==> CountOk(s.store, Inner(s.conns[t].pc))
  }

  /** Each check returned the length of its block. */
  ghost predicate ReturnsOk(store: Store) {
    forall k :: 0 <= k < |store.checks| ==>
      store.checks[k].returned == |A.Block(store.thresholds, store.checks[k].id, store.checks[k].ty, store.checks[k].value)|
  }

  ghost predicate AlarmInv(s: State) {
    AlarmsOk(s) && SumsOk(s.store) && CountsOk(s) && ReturnsOk(s.store)
  }

  /** Only a check owns the alert mutex at CheckHold. */
  lemma CheckOwnsAlerts(s: State, t: nat)
    requires LockInv(s) && t < |s.conns| && Inner(s.conns[t].pc).CheckHold?
    ensures Alerts in s.locks && s.locks[Alerts] == t
    ensures Unfinished(s) == Partial(s.store, Inner(s.conns[t].pc))
  {
    assert Alerts in Held(s.conns[t].pc, t);
  }

  /** What the pointer reads is not changed by anybody's step. */
  lemma PartialKept(a: Store, b: Store, pc: Pc)
    requires R.Extends(a.sensors, b.sensors) && a.thresholds == b.thresholds && LookupOk(a, pc)
    ensures Partial(b, pc) == Partial(a, pc)
    ensures CountOk(a, pc) ==> CountOk(b, pc)
  {
    match pc
    case CheckHold(id, slot, v, u, i, fired) =>
      R.LookupStable(a.sensors, b.sensors, id);
    case _ =>
  }

  /** The alarm that one threshold of the scan raises, if any. */
  function Added(store: Store, pc: Pc): seq<A.Alarm>
    requires pc.CheckHold? && pc.i < |store.thresholds|
  {
    var ty := TypeAt(store, pc.slot);
    if A.Fires(store.thresholds[pc.i], ty, pc.value)
    then [A.AlarmOf(store.thresholds[pc.i], pc.id, ty, pc.value)] else []
  }

  lemma ScanStore(s: State, t: nat, inp: Input)
    requires t < |s.conns| && s.conns[t].pc.CheckHold? && s.conns[t].pc.i < |s.store.thresholds|
    ensures var q := NextStore(s, t, inp);
            && q.checks == s.store.checks && q.thresholds == s.store.thresholds && q.sensors == s.store.sensors
            && q.alarms == s.store.alarms + Added(s.store, s.conns[t].pc)
  {
  }

  lemma ScanPc(s: State, t: nat, inp: Input)
    requires t < |s.conns| && s.conns[t].pc.CheckHold? && s.conns[t].pc.i < |s.store.thresholds|
    ensures var pc := s.conns[t].pc;
            Inner(NextPc(s, t, inp)) ==
            CheckHold(pc.id, pc.slot, pc.value, pc.unit, pc.i + 1, pc.fired + |Added(s.store, pc)|)
  {
  }

  lemma PartialGrows(a: Store, b: Store, pc: Pc, n: nat)
    requires a.thresholds == b.thresholds && a.sensors == b.sensors
    requires pc.CheckHold? && pc.i < |a.thresholds|
    ensures Partial(b, CheckHold(pc.id, pc.slot, pc.value, pc.unit, pc.i + 1, n)) == Partial(a, pc) + Added(a, pc)
  {
    A.BlockStep(a.thresholds, pc.i, pc.id, TypeAt(a, pc.slot), pc.value);
  }

  /** One threshold of the scan appends to the alarms what it adds to the block. */
  lemma ScanStep(s: State, t: nat, inp: Input)
    requires t < |s.conns| && s.conns[t].pc.CheckHold? && s.conns[t].pc.i < |s.store.thresholds|
    requires CountOk(s.store, s.conns[t].pc)
    ensures var q := NextStore(s, t, inp); var pc := Inner(NextPc(s, t, inp));
            && q.checks == s.store.checks && q.thresholds == s.store.thresholds && q.sensors == s.store.sensors
            && pc.CheckHold? && CountOk(q, pc)
            && q.alarms == s.store.alarms + Added(s.store, s.conns[t].pc)
            && Partial(q, pc) == Partial(s.store, s.conns[t].pc) + Added(s.store, s.conns[t].pc)
  {
    ScanStore(s, t, inp);
    ScanPc(s, t, inp);
    var pc := s.conns[t].pc;
    PartialGrows(s.store, NextStore(s, t, inp), pc, pc.fired + |Added(s.store, pc)|);
  }

  /** The end of the scan. */
  lemma ScanEnd(s: State, t: nat, inp: Input)
    requires t < |s.conns| && s.conns[t].pc.CheckHold? && s.conns[t].pc.i >= |s.store.thresholds|
    requires CountOk(s.store, s.conns[t].pc)
    ensures var q := NextStore(s, t, inp); var pc := s.conns[t].pc;
            && q.alarms == s.store.alarms && q.thresholds == s.store.thresholds
            && q.checks == s.store.checks + [Checked(pc.id, TypeAt(s.store, pc.slot), pc.value, pc.fired)]
            && Blocks(q.thresholds, q.checks) == Blocks(s.store.thresholds, s.store.checks) + Partial(s.store, pc)
            && SumReturned(q.checks) == SumReturned(s.store.checks) + |Partial(s.store, pc)|
  {
    var pc := s.conns[t].pc;
    var q := NextStore(s, t, inp);
    assert q.checks[..|q.checks| - 1] == s.store.checks;
    assert s.store.thresholds[..pc.i] == s.store.thresholds;
  }

  /** A step outside the scan leaves the alarms alone. */
  lemma NoScanFrame(s: State, t: nat, inp: Input)
    requires t < |s.conns| && PcOk(s.conns[t].pc) && !s.conns[t].pc.CheckHold?
    ensures NextStore(s, t, inp).alarms == s.store.alarms && NextStore(s, t, inp).checks == s.store.checks
    ensures NextStore(s, t, inp).thresholds == s.store.thresholds
    ensures Inner(NextPc(s, t, inp)).CheckHold? ==>
              (s.conns[t].pc.CheckWait? && Inner(NextPc(s, t, inp)).i == 0 && Inner(NextPc(s, t, inp)).fired == 0)
              || Inner(NextPc(s, t, inp)) == Inner(s.conns[t].pc)
  {
  }

  lemma CountsAfter(s: State, t: nat, inp: Input)
    requires LockInv(s) && RegistryInv(s) && CountsOk(s) && CanRun(s, t, inp)
    ensures CountsOk(Step(s, t, inp))
  {
    var q := Step(s, t, inp);
    StepFrame(s, t, inp);
    StoreStep(s, t, inp);
    forall u | 0 <= u < |q.conns| ensures CountOk(q.store, Inner(q.conns[u].pc)) {
      if u != t {
        PartialKept(s.store, q.store, Inner(s.conns[u].pc));
      } else if s.conns[t].pc.CheckHold? {
        if s.conns[t].pc.i < |s.store.thresholds| {
          ScanStep(s, t, inp);
        }
      } else {
        NoScanFrame(s, t, inp);
        PartialKept(s.store, q.store, Inner(s.conns[t].pc));
      }
    }
  }

  /** A step by a handler that is not scanning leaves the unfinished block as it is. */
  lemma UnfinishedKept(s: State, t: nat, inp: Input)
    requires LockInv(s) && RegistryInv(s) && CanRun(s, t, inp) && !s.conns[t].pc.CheckHold?
    ensures Unfinished(Step(s, t, inp)) == Unfinished(s)
  {
    var q := Step(s, t, inp);
    StepFrame(s, t, inp);
    StoreStep(s, t, inp);
    NoScanFrame(s, t, inp);
    LockStep(s, t, inp);
    StepExchanges(s, t, inp);
    HeldStep(s, t, inp, Alerts);
    if Alerts in s.locks {
      var o := s.locks[Alerts];
      assert Alerts in Held(s.conns[o].pc, o);
      PartialKept(s.store, q.store, Inner(s.conns[o].pc));
    }
    OwnerOfAlerts(s, t, inp);
  }

  /** How the ownership of the alert mutex moves in a step outside the scan. */
  lemma OwnerOfAlerts(s: State, t: nat, inp: Input)
    requires LockInv(s) && CanRun(s, t, inp) && !s.conns[t].pc.CheckHold?
    ensures var q := Step(s, t, inp);
            || (Alerts in q.locks && Alerts in s.locks && q.locks[Alerts] == s.locks[Alerts]
                && (s.locks[Alerts] == t ==> Inner(q.conns[t].pc) == Inner(s.conns[t].pc)))
            || ((Alerts in q.locks ==> q.locks[Alerts] == t && Partial(q.store, Inner(q.conns[t].pc)) == [])
                && (Alerts in s.locks ==> s.locks[Alerts] == t && Partial(s.store, Inner(s.conns[t].pc)) == []))
  {
    StepFrame(s, t, inp);
    HeldStep(s, t, inp, Alerts);
    if Alerts in s.locks && s.locks[Alerts] == t {
      assert Alerts in Held(s.conns[t].pc, t);
    }
  }

  /** Both the alarms and the unfinished block grew by the same alarms. */
  lemma AlarmsGrow(s: State, q: State, added: seq<A.Alarm>)
    requires AlarmsOk(s) && q.store.thresholds == s.store.thresholds && q.store.checks == s.store.checks
    requires q.store.alarms == s.store.alarms + added && Unfinished(q) == Unfinished(s) + added
    ensures AlarmsOk(q)
  {
  }

  /** The alarms after a step of a scan. */
  lemma AlarmsInScan(s: State, t: nat, inp: Input)
    requires LockInv(s) && AlarmInv(s) && CanRun(s, t, inp) && s.conns[t].pc.CheckHold?
    requires s.conns[t].pc.i < |s.store.thresholds|
    ensures AlarmsOk(Step(s, t, inp))
  {
    StepFrame(s, t, inp);
    LockStep(s, t, inp);
    assert CountOk(s.store, Inner(s.conns[t].pc));
    ScanStep(s, t, inp);
    CheckOwnsAlerts(s, t);
    CheckOwnsAlerts(Step(s, t, inp), t);
    AlarmsGrow(s, Step(s, t, inp), Added(s.store, s.conns[t].pc));
  }

  lemma AlarmsAtScanEnd(s: State, t: nat, inp: Input)
    requires LockInv(s) && AlarmInv(s) && CanRun(s, t, inp) && s.conns[t].pc.CheckHold?
    requires s.conns[t].pc.i >= |s.store.thresholds|
    ensures AlarmsOk(Step(s, t, inp)) && SumsOk(Step(s, t, inp).store)
  {
    CheckOwnsAlerts(s, t);
    ScanEnd(s, t, inp);
    assert Alerts !in Step(s, t, inp).locks;
  }

  lemma ReturnsAfter(s: State, t: nat, inp: Input)
    requires AlarmInv(s) && CanRun(s, t, inp) && PcOk(s.conns[t].pc)
    ensures ReturnsOk(NextStore(s, t, inp))
  {
    var pc := s.conns[t].pc;
    if pc.CheckHold? && pc.i >= |s.store.thresholds| {
      ScanEnd(s, t, inp);
      assert s.store.thresholds[..pc.i] == s.store.thresholds;
      assert CountOk(s.store, Inner(pc));
    } else if pc.CheckHold? {
      assert CountOk(s.store, Inner(pc));
      ScanStep(s, t, inp);
    } else {
      NoScanFrame(s, t, inp);
    }
  }

  lemma AlarmStep(s: State, t: nat, inp: Input)
    requires LockInv(s) && RegistryInv(s) && AlarmInv(s) && CanRun(s, t, inp)
    ensures AlarmInv(Step(s, t, inp))
  {
    CountsAfter(s, t, inp);
    ReturnsAfter(s, t, inp);
    assert CountOk(s.store, Inner(s.conns[t].pc));
    if !s.conns[t].pc.CheckHold? {
      NoScanFrame(s, t, inp);
      UnfinishedKept(s, t, inp);
    } else if s.conns[t].pc.i < |s.store.thresholds| {
      ScanStep(s, t, inp);
      AlarmsInScan(s, t, inp);
    } else {
      AlarmsAtScanEnd(s, t, inp);
    }
  }

  lemma AlarmAccept(s: State, fd: nat)
    requires LockInv(s) && AlarmInv(s)
    ensures AlarmInv(Accepted(s, fd))
  {
    var q := Accepted(s, fd);
    forall u | 0 <= u < |q.conns| ensures CountOk(q.store, Inner(q.conns[u].pc)) {
      if u < |s.conns| {
        assert q.conns[u] == s.conns[u];
      }
    }
    if Alerts in s.locks {
      assert q.conns[s.locks[Alerts]] == s.conns[s.locks[Alerts]];
    }
  }

  lemma {:induction false} AlarmsReached(thresholds: seq<A.Threshold>, moves: seq<Move>)
    requires LegalRun(thresholds, moves)
    ensures AlarmInv(Reached(thresholds, moves))
  {
    if moves != [] {
      var n := |moves| - 1;
      AlarmsReached(thresholds, moves[..n]);
      LocksReached(thresholds, moves[..n]);
      RegistryReached(thresholds, moves[..n]);
      var s := Reached(thresholds, moves[..n]);
      match moves[n]
      case Accept(fd) => AlarmAccept(s, fd);
      case Run(t, inp) => AlarmStep(s, t, inp);
    }
  }

  /** In every interleaving, whenever the alert mutex is free the alarms are exactly one complete block
      per finished check, in the order of the checks, and their number is the sum of what the checks
      returned. */
  lemma AlarmsAreBlocks(thresholds: seq<A.Threshold>, moves: seq<Move>)
    requires LegalRun(thresholds, moves) && Alerts !in Reached(thresholds, moves).locks
    ensures var store := Reached(thresholds, moves).store;
            && store.alarms == Blocks(store.thresholds, store.checks)
            && |store.alarms| == SumReturned(store.checks)
  {
    AlarmsReached(thresholds, moves);
    var store := Reached(thresholds, moves).store;
    assert store.alarms == Blocks(store.thresholds, store.checks) + [];
  }

  // ---------- the visible alerts ----------

  /** The array shows the last 100 alarms, or all of them, none resolved. */
  ghost predicate VisibleOk(visible: seq<A.Alert>, alarms: seq<A.Alarm>) {
    && |visible| == (if |alarms| <= 100 then |alarms| else 100)
    && forall k :: 0 <= k < |visible| ==>
         visible[k].alarm == alarms[|alarms| - |visible| + k] && !visible[k].resolved
  }

  lemma VisiblePush(visible: seq<A.Alert>, alarms: seq<A.Alarm>, alarm: A.Alarm, now: int)
    requires VisibleOk(visible, alarms)
    ensures VisibleOk(A.Push(visible, A.Alert(alarm, now, false)), alarms + [alarm])
  {
    var w, more := A.Push(visible, A.Alert(alarm, now, false)), alarms + [alarm];
    var shift := if |visible| == A.MAX_ALERTS then 1 else 0;
    forall k | 0 <= k < |w| ensures w[k].alarm == more[|more| - |w| + k] && !w[k].resolved {
      if k < |w| - 1 {
        assert w[k] == visible[k + shift];
      }
    }
  }

  lemma VisibleNext(s: State, t: nat, inp: Input)
    requires t < |s.conns| && VisibleOk(s.store.visible, s.store.alarms)
    ensures VisibleOk(NextStore(s, t, inp).visible, NextStore(s, t, inp).alarms)
  {
    var q := NextStore(s, t, inp);
    if q.visible != s.store.visible || q.alarms != s.store.alarms {
      var CheckHold(id, slot, v, u, i, fired) := s.conns[t].pc;
      VisiblePush(s.store.visible, s.store.alarms,
                  A.AlarmOf(s.store.thresholds[i], id, TypeAt(s.store, slot), v), inp.now);
    }
  }

  /** In every interleaving, also in the middle of a check, the bounded array holds exactly the last
      min(n, 100) of the n alarms raised so far, oldest first. */
  lemma {:induction false} VisibleReached(thresholds: seq<A.Threshold>, moves: seq<Move>)
    requires LegalRun(thresholds, moves)
    ensures VisibleOk(Reached(thresholds, moves).store.visible, Reached(thresholds, moves).store.alarms)
  {
    if moves != [] {
      var n := |moves| - 1;
      VisibleReached(thresholds, moves[..n]);
      match moves[n]
      case Accept(fd) =>
      case Run(t, inp) => VisibleNext(Reached(thresholds, moves[..n]), t, inp);
    }
  }

  // ---------- what is broadcast ----------

  lemma {:induction false} ThresholdsFixed(thresholds: seq<A.Threshold>, moves: seq<Move>)
    requires LegalRun(thresholds, moves)
    ensures Reached(thresholds, moves).store.thresholds == thresholds
  {
    if moves != [] {
      ThresholdsFixed(thresholds, moves[..|moves| - 1]);
    }
  }

  /** A finished scan goes on to broadcast exactly when some threshold fires for the value and the
      type of the sensor's first accepted registration. */
  lemma BroadcastIffFires(thresholds: seq<A.Threshold>, moves: seq<Move>, t: nat, inp: Input, k: nat)
    requires LegalRun(thresholds, moves) && t < |Reached(thresholds, moves).conns|
    requires var s := Reached(thresholds, moves);
             s.conns[t].pc.CheckHold? && s.conns[t].pc.i >= |thresholds|
             && R.Stores(s.store.ops, k, s.conns[t].pc.id)
             && forall j: nat :: j < k ==> !R.Stores(s.store.ops, j, s.conns[t].pc.id)
    ensures var s := Reached(thresholds, moves); var pc := s.conns[t].pc;
            var ty := CStrings.Take(s.store.ops[k].ty, 15);
            && (NextPc(s, t, inp).AlertWait? <==> exists i: nat :: i < |thresholds| && A.Breaks(thresholds[i], ty, pc.value))
            && (NextPc(s, t, inp).AlertWait? ==> NextPc(s, t, inp).msg == AlertText(pc.id, ty, pc.value, pc.unit))
            && (!NextPc(s, t, inp).AlertWait? ==> NextPc(s, t, inp) == RespondWait)
  {
    ThresholdsFixed(thresholds, moves);
    AlarmsReached(thresholds, moves);
    TypePointerStable(thresholds, moves, t, k);
    var s := Reached(thresholds, moves);
    var pc := s.conns[t].pc;
    assert CountOk(s.store, Inner(pc));
    assert thresholds[..pc.i] == thresholds;
    AlertRuns.AnyBreaksIff(thresholds, pc.id, TypeAt(s.store, pc.slot), pc.value);
  }
}
