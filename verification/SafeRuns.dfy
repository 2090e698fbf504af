/** Runs in which no handler takes the write mutex of a connection that has left remove_operator: up to
    such a step nothing undefined has happened, even when a leftover slot is in the table. */
module SafeRuns {
  import opened Handlers
  import opened LockOrder
  import opened OperatorTable
  import A = AlertEngine

  /** A broadcast is about to take the mutex of a connection that has left remove_operator. */
  predicate TakesGone(s: State, m: Move) {
    m.Run? && m.t < |s.conns| && s.conns[m.t].pc.AlertLock?
    && (var o := s.conns[m.t].pc.mutex; o < |s.conns| ==> Gone(s.conns[o].pc))
  }

  ghost predicate TakesGoneAt(thresholds: seq<A.Threshold>, moves: seq<Move>, n: nat)
    requires LegalRun(thresholds, moves) && n < |moves|
  {
    TakesGone(Before(thresholds, moves, n), moves[n])
  }

  ghost predicate SafeRun(thresholds: seq<A.Threshold>, moves: seq<Move>) {
    LegalRun(thresholds, moves) && forall n: nat :: n < |moves| ==> !TakesGoneAt(thresholds, moves, n)
  }

  lemma SafePrefix(thresholds: seq<A.Threshold>, moves: seq<Move>)
    requires SafeRun(thresholds, moves) && moves != []
    ensures SafeRun(thresholds, moves[..|moves| - 1])
    ensures !TakesGone(Reached(thresholds, moves[..|moves| - 1]), moves[|moves| - 1])
  {
    var front := moves[..|moves| - 1];
    forall n: nat | n < |front| ensures !TakesGoneAt(thresholds, front, n) {
      assert front[..n] == moves[..n];
      assert !TakesGoneAt(thresholds, moves, n);
    }
    assert !TakesGoneAt(thresholds, moves, |moves| - 1);
  }

  // ---------- who is being sent to ----------

  /** The handler owns the write mutex of slot `pc.i` as part of a broadcast. */
  predicate Serves(pc: Pc) {
    pc.AlertSend? || pc.AlertUnlock?
  }

  ghost predicate ServesOpen(s: State) {
    forall t :: 0 <= t < |s.conns| && Serves(s.conns[t].pc) ==>
      s.conns[t].pc.mutex < |s.conns| && !Gone(s.conns[s.conns[t].pc.mutex].pc)
  }

  lemma ServesNext(s: State, t: nat, inp: Input)
    requires CanRun(s, t, inp) && PcOk(s.conns[t].pc) && Serves(NextPc(s, t, inp))
    ensures (s.conns[t].pc.AlertLock? || s.conns[t].pc.AlertSend?)
            && s.conns[t].pc.mutex == NextPc(s, t, inp).mutex
  {
  }

  lemma ServingOwnsOperators(pc: Pc, t: nat)
    requires Serves(pc)
    ensures Operators in Held(pc, t)
  {
  }

  /** Nobody leaves remove_operator while somebody else broadcasts. */
  lemma NobodyGoes(s: State, t: nat, inp: Input, u: nat)
    requires LockInv(s) && CanRun(s, t, inp) && u < |s.conns| && u != t && Serves(s.conns[u].pc)
    ensures Gone(NextPc(s, t, inp)) == Gone(s.conns[t].pc)
  {
    if s.conns[t].pc.RemoveHold? {
      ServingOwnsOperators(s.conns[u].pc, u);
      OneOwner(s, t, u, Operators);
      assert false;
    }
    GoneElsewhere(s, t, inp);
  }

  lemma ServesStep(s: State, t: nat, inp: Input)
    requires LockInv(s) && ServesOpen(s) && CanRun(s, t, inp) && !TakesGone(s, Run(t, inp))
    ensures ServesOpen(Step(s, t, inp))
  {
    var q := Step(s, t, inp);
    StepFrame(s, t, inp);
    forall u | 0 <= u < |q.conns| && Serves(q.conns[u].pc)
      ensures q.conns[u].pc.mutex < |q.conns| && !Gone(q.conns[q.conns[u].pc.mutex].pc)
    {
      if u == t {
        ServesNext(s, t, inp);
      } else {
        NobodyGoes(s, t, inp, u);
      }
    }
  }

  lemma ServesAccept(s: State, fd: nat)
    requires ServesOpen(s)
    ensures ServesOpen(Accepted(s, fd))
  {
    var q := Accepted(s, fd);
    forall u | 0 <= u < |q.conns| && Serves(q.conns[u].pc)
      ensures q.conns[u].pc.mutex < |q.conns| && !Gone(q.conns[q.conns[u].pc.mutex].pc)
    {
      assert u < |s.conns| && q.conns[u] == s.conns[u];
      assert q.conns[s.conns[u].pc.mutex] == s.conns[s.conns[u].pc.mutex];
    }
  }

  lemma {:induction false} SafeReached(thresholds: seq<A.Threshold>, moves: seq<Move>)
    requires SafeRun(thresholds, moves)
    ensures TableInv(Reached(thresholds, moves)) && ServesOpen(Reached(thresholds, moves))
  {
    TableReached(thresholds, moves);
    if moves != [] {
      var n := |moves| - 1;
      SafePrefix(thresholds, moves);
      SafeReached(thresholds, moves[..n]);
      LocksReached(thresholds, moves[..n]);
      var s := Reached(thresholds, moves[..n]);
      match moves[n]
      case Accept(fd) => ServesAccept(s, fd);
      case Run(t, inp) => ServesStep(s, t, inp);
    }
  }

  /** What a broadcast sends on a slot's descriptor reaches the connection that registered the slot. */
  lemma SendTarget(s: State, t: nat)
    requires TableInv(s) && ServesOpen(s) && t < |s.conns| && Serves(s.conns[t].pc)
    ensures var pc := s.conns[t].pc;
            && pc.i < |s.table.slots| && pc.mutex == Owner(s, pc.i) < |s.conns|
            && !Gone(s.conns[pc.mutex].pc)
            && s.table.slots[pc.i].fd == s.conns[pc.mutex].fd > 0
            && OpenOn(s.conns, s.table.slots[pc.i].fd) == pc.mutex
  {
    var pc := s.conns[t].pc;
    assert Pinned(s.table.slots, pc);
    assert s.table.slots[pc.i] != CLEARED;
    var to := OpenOn(s.conns, s.table.slots[pc.i].fd);
    assert Open(s.conns[pc.mutex].pc) && s.conns[pc.mutex].fd == s.table.slots[pc.i].fd;
    assert to <= pc.mutex;
  }

  /** The slot that remove_operator finds is filled, whoever registered it. */
  lemma FoundIsFilled(s: State, fd: nat)
    requires SlotsInv(s.conns, s.table)
    ensures var i := SlotOf(s.table.slots, fd); i < |s.table.slots| ==> s.table.slots[i].mutex.Some?
  {
  }

  // ---------- clean runs are safe ----------

  lemma {:induction false} CleanEarlier(thresholds: seq<A.Threshold>, moves: seq<Move>, n: nat)
    requires CleanRun(thresholds, moves) && n <= |moves|
    ensures CleanRun(thresholds, moves[..n])
  {
    if n < |moves| {
      CleanPrefix(thresholds, moves);
      CleanEarlier(thresholds, moves[..|moves| - 1], n);
      assert moves[..|moves| - 1][..n] == moves[..n];
    } else {
      assert moves[..n] == moves;
    }
  }

  /** While no connection was removed with two slots, no broadcast takes a mutex of a gone connection. */
  lemma CleanIsSafe(thresholds: seq<A.Threshold>, moves: seq<Move>)
    requires CleanRun(thresholds, moves)
    ensures SafeRun(thresholds, moves)
  {
    forall n: nat | n < |moves| ensures !TakesGoneAt(thresholds, moves, n) {
      CleanEarlier(thresholds, moves, n);
      NoneTaken(thresholds, moves[..n], moves[n]);
    }
  }

  lemma NoneTaken(thresholds: seq<A.Threshold>, moves: seq<Move>, m: Move)
    requires CleanRun(thresholds, moves)
    ensures !TakesGone(Reached(thresholds, moves), m)
  {
    var s := Reached(thresholds, moves);
    if TakesGone(s, m) {
      CleanIsTidy(thresholds, moves);
      BroadcastTarget(s, m.t);
    }
  }

  lemma OnceIsSafe(thresholds: seq<A.Threshold>, moves: seq<Move>)
    requires LogsInOnce(thresholds, moves)
    ensures SafeRun(thresholds, moves)
  {
    OnceIsClean(thresholds, moves);
    CleanIsSafe(thresholds, moves);
  }

  /** Mutex lifetime in a safe run: the write mutex of a connection that has left remove_operator is owned
      by nobody. */
  lemma GoneMutexUnlocked(thresholds: seq<A.Threshold>, moves: seq<Move>, m: nat)
    requires SafeRun(thresholds, moves)
    requires var s := Reached(thresholds, moves); m < |s.conns| && Gone(s.conns[m].pc)
    ensures Write(m) !in Reached(thresholds, moves).locks
  {
    SafeReached(thresholds, moves);
    LocksReached(thresholds, moves);
    var s := Reached(thresholds, moves);
    if Write(m) in s.locks {
      var t := s.locks[Write(m)];
      WriteMutexUsers(s.conns[t].pc, t, m);
      if m != t {
        OnlyServersOwn(s.conns[t].pc, t, m);
      }
    }
  }

  lemma OnlyServersOwn(pc: Pc, t: nat, m: nat)
    requires PcOk(pc) && Write(m) in Held(pc, t) && m != t
    ensures Serves(pc) && pc.mutex == m
  {
  }
}
