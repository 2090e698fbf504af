/** Mutual exclusion and deadlock freedom of the handler protocol. */
module LockOrder {
  import opened Handlers
  import A = AlertEngine

  /** Program points that are reached through a log call. */
  predicate Logs(k: Pc) {
    match k
    case Recv => true
    case TypeWait(_, _, _) => true
    case RespondWait => true
    case CheckHold(_, _, _, _, _, _) => true
    case LoginExit => true
    case SendFailed => true
    case RemoveWait => true
    case LogWait(n) => n.Recv? || n.RemoveWait?
    case _ => false
  }

  predicate PcOk(pc: Pc) {
    match pc
    case LogWait(k) => Logs(k)
    case LogHold(k) => Logs(k)
    case ListWait(l) => l == Sensors || l == Alerts
    case ListHold(l) => l == Sensors || l == Alerts
    case _ => true
  }

  /** A mutex is owned by a handler whose program point says so. */
  ghost predicate OwnersHold(s: State) {
    forall l :: l in s.locks ==> s.locks[l] < |s.conns| && l in Held(s.conns[s.locks[l]].pc, s.locks[l])
  }

  /** Nobody else believes to own it. */
  ghost predicate HoldersOwn(s: State) {
    forall t, l :: 0 <= t < |s.conns| && l in Held(s.conns[t].pc, t) ==> l in s.locks && s.locks[l] == t
  }

  ghost predicate PointsOk(s: State) {
    forall t :: 0 <= t < |s.conns| ==> PcOk(s.conns[t].pc)
  }

  ghost predicate LockInv(s: State) {
    OwnersHold(s) && HoldersOwn(s) && PointsOk(s)
  }

  lemma PcOkStep(s: State, t: nat, inp: Input)
    requires t < |s.conns| && PcOk(s.conns[t].pc)
    ensures PcOk(NextPc(s, t, inp))
  {
  }

  /** l is owned after the step exactly when it was owned or taken, and not released. */
  ghost predicate Accounted(s: State, t: nat, inp: Input, l: Lock)
    requires t < |s.conns|
  {
    l in Held(NextPc(s, t, inp), t) <==>
      (l in Held(s.conns[t].pc, t) || Wants(s.conns[t].pc, t) == Some(l)) && Frees(s, t) != Some(l)
  }

  /** The part of the handler that works on the sensor array. */
  predicate StorePart(pc: Pc) {
    pc.RegisterWait? || pc.RegisterHold? || pc.MeasureWait? || pc.MeasureHold? || pc.TypeWait? || pc.TypeHold?
  }

  /** The threshold scan and the lists. */
  predicate ScanPart(pc: Pc) {
    pc.Recv? || pc.CheckWait? || pc.CheckHold? || pc.ListWait? || pc.ListHold?
  }

  predicate AlertPart(pc: Pc) {
    pc.AlertWait? || pc.AlertLoop? || pc.AlertLock? || pc.AlertSend? || pc.AlertUnlock?
    || pc.LoginWait? || pc.LoginHold? || pc.LoginExit?
  }

  lemma HeldInStorePart(s: State, t: nat, inp: Input, l: Lock)
    requires t < |s.conns| && PcOk(s.conns[t].pc) && StorePart(s.conns[t].pc)
    ensures Accounted(s, t, inp, l)
  {
  }

  lemma HeldInScanPart(s: State, t: nat, inp: Input, l: Lock)
    requires t < |s.conns| && PcOk(s.conns[t].pc) && ScanPart(s.conns[t].pc)
    ensures Accounted(s, t, inp, l)
  {
  }

  lemma HeldInAlertPart(s: State, t: nat, inp: Input, l: Lock)
    requires t < |s.conns| && AlertPart(s.conns[t].pc)
    ensures Accounted(s, t, inp, l)
  {
  }

  lemma HeldInLog(s: State, t: nat, inp: Input, l: Lock)
    requires t < |s.conns| && PcOk(s.conns[t].pc) && (s.conns[t].pc.LogWait? || s.conns[t].pc.LogHold?)
    ensures Accounted(s, t, inp, l)
  {
  }

  /** A step changes the owned mutexes by exactly what it takes and releases. */
  lemma HeldStep(s: State, t: nat, inp: Input, l: Lock)
    requires t < |s.conns| && PcOk(s.conns[t].pc)
    ensures Accounted(s, t, inp, l)
  {
    var pc := s.conns[t].pc;
    if StorePart(pc) {
      HeldInStorePart(s, t, inp, l);
    } else if ScanPart(pc) {
      HeldInScanPart(s, t, inp, l);
    } else if AlertPart(pc) {
      HeldInAlertPart(s, t, inp, l);
    } else if pc.LogWait? || pc.LogHold? {
      HeldInLog(s, t, inp, l);
    }
  }

  /** Only owned mutexes are released, and no step both takes and releases. */
  lemma FreesOwned(s: State, t: nat)
    requires t < |s.conns|
    ensures Frees(s, t).Some? ==> Frees(s, t).value in Held(s.conns[t].pc, t)
    ensures Wants(s.conns[t].pc, t).Some? ==> Frees(s, t).None?
  {
  }

  /** What a step does to program points and mutexes, seen from outside. */
  ghost predicate Exchange(s: State, q: State, t: nat, wants: Option<Lock>, frees: Option<Lock>) {
    && t < |s.conns| == |q.conns|
    && (forall u :: 0 <= u < |s.conns| && u != t ==> q.conns[u].pc == s.conns[u].pc)
    && (forall l :: l in Held(q.conns[t].pc, t) <==>
                    (l in Held(s.conns[t].pc, t) || wants == Some(l)) && frees != Some(l))
    && q.locks == (match wants
                   case Some(l) => s.locks[l := t]
                   case None => match frees case Some(l) => s.locks - {l} case None => s.locks)
  }

  /** The mutexes that an exchange takes and releases are available to it. */
  ghost predicate Fair(s: State, t: nat, wants: Option<Lock>, frees: Option<Lock>) {
    t < |s.conns|
    && (wants.Some? ==> frees.None? && wants.value !in s.locks)
    && (frees.Some? ==> frees.value in Held(s.conns[t].pc, t))
  }

  lemma OwnersAfter(s: State, q: State, t: nat, wants: Option<Lock>, frees: Option<Lock>)
    requires OwnersHold(s) && Exchange(s, q, t, wants, frees) && Fair(s, t, wants, frees)
    ensures OwnersHold(q)
  {
    forall l | l in q.locks
      ensures q.locks[l] < |q.conns| && l in Held(q.conns[q.locks[l]].pc, q.locks[l])
    {
      if l in s.locks {
        assert l in Held(s.conns[s.locks[l]].pc, s.locks[l]);
      }
    }
  }

  lemma HoldersAfter(s: State, q: State, t: nat, wants: Option<Lock>, frees: Option<Lock>)
    requires HoldersOwn(s) && Exchange(s, q, t, wants, frees) && Fair(s, t, wants, frees)
    ensures HoldersOwn(q)
  {
    forall u, l | 0 <= u < |q.conns| && l in Held(q.conns[u].pc, u)
      ensures l in q.locks && q.locks[l] == u
    {
      if u != t {
        assert l in Held(s.conns[u].pc, u);
        assert frees.Some? ==> s.locks[frees.value] == t;
      }
    }
  }

  lemma StepExchanges(s: State, t: nat, inp: Input)
    requires CanRun(s, t, inp) && PcOk(s.conns[t].pc)
    ensures Exchange(s, Step(s, t, inp), t, Wants(s.conns[t].pc, t), Frees(s, t))
  {
    StepFrame(s, t, inp);
    forall l ensures l in Held(NextPc(s, t, inp), t) <==>
            (l in Held(s.conns[t].pc, t) || Wants(s.conns[t].pc, t) == Some(l)) && Frees(s, t) != Some(l)
    {
      HeldStep(s, t, inp, l);
    }
  }

  lemma LockStep(s: State, t: nat, inp: Input)
    requires LockInv(s) && CanRun(s, t, inp)
    ensures LockInv(Step(s, t, inp))
  {
    var q := Step(s, t, inp);
    var w, f := Wants(s.conns[t].pc, t), Frees(s, t);
    StepExchanges(s, t, inp);
    FreesOwned(s, t);
    OwnersAfter(s, q, t, w, f);
    HoldersAfter(s, q, t, w, f);
    StepFrame(s, t, inp);
    PcOkStep(s, t, inp);
  }

  ghost predicate Newcomer(s: State, q: State) {
    |q.conns| == |s.conns| + 1 && q.locks == s.locks && q.conns[..|s.conns|] == s.conns
    && Held(q.conns[|s.conns|].pc, |s.conns|) == {} && PcOk(q.conns[|s.conns|].pc)
  }

  lemma NewcomerOwners(s: State, q: State)
    requires OwnersHold(s) && Newcomer(s, q)
    ensures OwnersHold(q)
  {
    assert forall u :: 0 <= u < |s.conns| ==> q.conns[u] == q.conns[..|s.conns|][u];
  }

  lemma NewcomerHolders(s: State, q: State)
    requires HoldersOwn(s) && Newcomer(s, q)
    ensures HoldersOwn(q)
  {
    assert forall u :: 0 <= u < |s.conns| ==> q.conns[u] == q.conns[..|s.conns|][u];
  }

  lemma NewcomerPoints(s: State, q: State)
    requires PointsOk(s) && Newcomer(s, q)
    ensures PointsOk(q)
  {
    assert forall u :: 0 <= u < |s.conns| ==> q.conns[u] == q.conns[..|s.conns|][u];
  }

  lemma LockAccept(s: State, fd: nat)
    requires LockInv(s)
    ensures LockInv(Accepted(s, fd))
  {
    var q := Accepted(s, fd);
    assert Newcomer(s, q);
    NewcomerOwners(s, q);
    NewcomerHolders(s, q);
    NewcomerPoints(s, q);
  }

  /** In every reachable state each mutex has at most one owner, the one its program point says. */
  lemma {:induction false} LocksReached(thresholds: seq<A.Threshold>, moves: seq<Move>)
    requires LegalRun(thresholds, moves)
    ensures LockInv(Reached(thresholds, moves))
  {
    if moves != [] {
      var n := |moves| - 1;
      LocksReached(thresholds, moves[..n]);
      var s := Reached(thresholds, moves[..n]);
      match moves[n]
      case Accept(fd) => LockAccept(s, fd);
      case Run(t, inp) => LockStep(s, t, inp);
    }
  }

  /** Mutual exclusion. */
  lemma OneOwner(s: State, t: nat, u: nat, l: Lock)
    requires LockInv(s) && t < |s.conns| && u < |s.conns|
    requires l in Held(s.conns[t].pc, t) && l in Held(s.conns[u].pc, u)
    ensures t == u
  {
    assert s.locks[l] == t;
  }

  // ---------- the order ----------

  function Rank(l: Lock): nat {
    match l
    case Sensors => 0
    case Alerts => 0
    case Operators => 0
    case Write(_) => 1
    case Logger => 2
  }

  /** Mutexes are taken in increasing rank; the sensor mutex is always held alone; nobody holds two
      write mutexes. */
  lemma OrderedAcquisition(pc: Pc, t: nat, h: Lock)
    requires PcOk(pc) && h in Held(pc, t)
    ensures Wants(pc, t).Some? ==> Rank(h) < Rank(Wants(pc, t).value)
    ensures h == Sensors ==> Held(pc, t) == {Sensors}
    ensures forall g :: g in Held(pc, t) && g != h ==> Rank(g) != Rank(h)
  {
  }

  /** Handler t waits for a mutex that handler u owns. */
  ghost predicate WaitsFor(s: State, t: nat, u: nat) {
    t < |s.conns| && Wants(s.conns[t].pc, t).Some? && Wants(s.conns[t].pc, t).value in s.locks
    && s.locks[Wants(s.conns[t].pc, t).value] == u
  }

  ghost predicate WaitChain(s: State, path: seq<nat>) {
    forall i :: 0 <= i < |path| - 1 ==> WaitsFor(s, path[i], path[i + 1])
  }

  function WaitRank(s: State, t: nat): int {
    if t < |s.conns| && Wants(s.conns[t].pc, t).Some? then Rank(Wants(s.conns[t].pc, t).value) else 3
  }

  lemma WaitRankRises(s: State, t: nat, u: nat)
    requires LockInv(s) && WaitsFor(s, t, u)
    ensures WaitRank(s, t) < WaitRank(s, u) <= 3
  {
    var l := Wants(s.conns[t].pc, t).value;
    OrderedAcquisition(s.conns[u].pc, u, l);
  }

  lemma {:induction false} ChainRank(s: State, path: seq<nat>)
    requires LockInv(s) && path != [] && WaitChain(s, path)
    ensures WaitRank(s, path[0]) + |path| - 1 <= WaitRank(s, path[|path| - 1]) <= 3
  {
    if |path| > 1 {
      var n := |path| - 1;
      forall i | 0 <= i < n - 1 ensures WaitsFor(s, path[..n][i], path[..n][i + 1]) {
        assert WaitsFor(s, path[i], path[i + 1]);
      }
      ChainRank(s, path[..n]);
      assert WaitsFor(s, path[n - 1], path[n - 1 + 1]);
      WaitRankRises(s, path[n - 1], path[n]);
    }
  }

  /** No chain of waiting handlers closes, and none is longer than four. */
  lemma NoWaitCycle(thresholds: seq<A.Threshold>, moves: seq<Move>, path: seq<nat>)
    requires LegalRun(thresholds, moves)
    requires |path| > 1 && WaitChain(Reached(thresholds, moves), path)
    ensures path[0] != path[|path| - 1] && |path| <= 4
  {
    LocksReached(thresholds, moves);
    ChainRank(Reached(thresholds, moves), path);
  }

  // ---------- progress ----------

  /** Input that lets any point but Recv go on: send completes. */
  function Completing(pc: Pc): Input {
    match pc
    case Sending(r, k) => Input(Other, |r| - k, "", 0)
    case AlertSend(msg, _, _) => Input(Other, |msg|, "", 0)
    case _ => Input(Other, 0, "", 0)
  }

  lemma RunnableOwner(s: State, t: nat)
    requires LockInv(s) && t < |s.conns| && Held(s.conns[t].pc, t) != {}
    requires Wants(s.conns[t].pc, t).Some? ==> Wants(s.conns[t].pc, t).value !in s.locks
    ensures CanRun(s, t, Completing(s.conns[t].pc)) && !s.conns[t].pc.Recv?
  {
  }

  /** Following the owners of wanted mutexes ends at a handler that can run. */
  lemma {:induction false} SomeOwnerRuns(s: State, t: nat)
    requires LockInv(s) && t < |s.conns| && Held(s.conns[t].pc, t) != {}
    ensures exists u: nat :: u < |s.conns| && Held(s.conns[u].pc, u) != {} && CanRun(s, u, Completing(s.conns[u].pc))
    decreases 3 - WaitRank(s, t)
  {
    var w := Wants(s.conns[t].pc, t);
    if w.Some? && w.value in s.locks {
      var u := s.locks[w.value];
      WaitRankRises(s, t, u);
      SomeOwnerRuns(s, u);
    } else {
      RunnableOwner(s, t);
    }
  }

  /** Deadlock freedom: whenever some mutex is held, some handler that holds one can take a step. */
  lemma DeadlockFree(thresholds: seq<A.Threshold>, moves: seq<Move>)
    requires LegalRun(thresholds, moves) && |Reached(thresholds, moves).locks| > 0
    ensures var s := Reached(thresholds, moves);
            exists u: nat :: u < |s.conns| && Held(s.conns[u].pc, u) != {} && CanRun(s, u, Completing(s.conns[u].pc))
  {
    LocksReached(thresholds, moves);
    var s := Reached(thresholds, moves);
    var l :| l in s.locks;
    SomeOwnerRuns(s, s.locks[l]);
  }

  /** A handler that waits for a mutex is never stuck for good: the mutex is free or some owner runs. */
  lemma WaiterHasRunner(thresholds: seq<A.Threshold>, moves: seq<Move>, t: nat)
    requires LegalRun(thresholds, moves) && t < |Reached(thresholds, moves).conns|
    requires !Reached(thresholds, moves).conns[t].pc.Done?
    ensures var s := Reached(thresholds, moves);
            CanRun(s, t, Completing(s.conns[t].pc))
            || exists u: nat :: u < |s.conns| && Held(s.conns[u].pc, u) != {} && CanRun(s, u, Completing(s.conns[u].pc))
  {
    LocksReached(thresholds, moves);
    var s := Reached(thresholds, moves);
    var w := Wants(s.conns[t].pc, t);
    if w.Some? && w.value in s.locks {
      SomeOwnerRuns(s, s.locks[w.value]);
    }
  }
}
