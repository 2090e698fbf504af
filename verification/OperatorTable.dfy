/** The operator table over whole runs, and the lifetime of the write mutexes it points to. */
module OperatorTable {
  import opened Handlers
  import opened LockOrder
  import A = AlertEngine

  const CLEARED := Slot(-1, None)

  // ---------- what holds in every run ----------

  function SlotsFor(logins: nat): nat {
    if logins <= 100 then logins else 100
  }

  /** The slots are the first 100 successful logins, each still in place or cleared. */
  ghost predicate SlotsInv(conns: seq<Conn>, table: Table) {
    && |table.slots| == SlotsFor(|table.logins|) == |table.since| == |table.until|
    && (forall i :: 0 <= i < |table.logins| ==> table.logins[i] < |conns|)
    && forall i :: 0 <= i < |table.slots| ==>
         table.slots[i] == CLEARED || table.slots[i] == Slot(conns[table.logins[i]].fd, Some(table.logins[i]))
  }

  /** Open connections have different descriptors. */
  ghost predicate DescriptorsInv(conns: seq<Conn>) {
    forall i, j :: 0 <= i < j < |conns| && Open(conns[i].pc) && Open(conns[j].pc) ==> conns[i].fd != conns[j].fd
  }

  /** While a broadcast works on a slot, the slot keeps what the broadcast read from it. */
  ghost predicate Pinned(slots: seq<Slot>, pc: Pc) {
    match pc
    case AlertLoop(_, i) => i <= |slots|
    case AlertLock(_, i, m) => i < |slots| && Live(slots[i]) && slots[i].mutex == Some(m)
    case AlertSend(_, i, m) => i < |slots| && Live(slots[i]) && slots[i].mutex == Some(m)
    case AlertUnlock(_, i, m) => i < |slots| && Live(slots[i]) && slots[i].mutex == Some(m)
    case _ => true
  }

  ghost predicate PinsInv(s: State) {
    forall t :: 0 <= t < |s.conns| ==> Pinned(s.table.slots, s.conns[t].pc)
  }

  lemma ClearsOne(slots: seq<Slot>, fd: int, i: nat)
    requires i < |slots|
    ensures ClearOperator(slots, fd)[i] == if i == SlotOf(slots, fd) then CLEARED else slots[i]
  {
  }

  lemma SlotsStep(s: State, t: nat, inp: Input)
    requires SlotsInv(s.conns, s.table) && CanRun(s, t, inp)
    ensures SlotsInv(Step(s, t, inp).conns, Step(s, t, inp).table)
  {
    StepFrame(s, t, inp);
    SlotsAfter(s, Step(s, t, inp).conns, t);
  }

  lemma SlotsAfter(s: State, conns: seq<Conn>, t: nat)
    requires SlotsInv(s.conns, s.table) && t < |s.conns| == |conns|
    requires forall j :: 0 <= j < |conns| ==> conns[j].fd == s.conns[j].fd
    ensures SlotsInv(conns, NextTable(s, t))
  {
    var q := NextTable(s, t);
    forall i | 0 <= i < |q.slots|
      ensures q.slots[i] == CLEARED || q.slots[i] == Slot(conns[q.logins[i]].fd, Some(q.logins[i]))
    {
      if i < |s.table.slots| {
        assert q.logins[i] == s.table.logins[i];
      }
    }
  }

  lemma DescriptorsStep(s: State, t: nat, inp: Input)
    requires DescriptorsInv(s.conns) && CanRun(s, t, inp)
    ensures DescriptorsInv(Step(s, t, inp).conns)
  {
    StepFrame(s, t, inp);
    OpenNeverReturns(s, t, inp);
  }

  lemma OpenNeverReturns(s: State, t: nat, inp: Input)
    requires CanRun(s, t, inp)
    ensures Open(NextPc(s, t, inp)) ==> Open(s.conns[t].pc)
  {
  }

  /** Only the owner of the operator mutex changes slots. */
  lemma SlotsChangedUnderLock(s: State, t: nat)
    requires t < |s.conns| && NextTable(s, t).slots != s.table.slots
    ensures Operators in Held(s.conns[t].pc, t)
  {
  }

  lemma PinnedOwnsOperators(pc: Pc, t: nat)
    requires pc.AlertLoop? || pc.AlertLock? || pc.AlertSend? || pc.AlertUnlock?
    ensures Operators in Held(pc, t)
  {
  }

  lemma PinnedNext(s: State, t: nat, inp: Input)
    requires CanRun(s, t, inp) && PcOk(s.conns[t].pc) && Pinned(s.table.slots, s.conns[t].pc)
    ensures Pinned(NextTable(s, t).slots, NextPc(s, t, inp))
  {
  }

  lemma PinsStep(s: State, t: nat, inp: Input)
    requires LockInv(s) && PinsInv(s) && CanRun(s, t, inp)
    ensures PinsInv(Step(s, t, inp))
  {
    var q := Step(s, t, inp);
    StepFrame(s, t, inp);
    PinnedNext(s, t, inp);
    forall u | 0 <= u < |q.conns| && u != t ensures Pinned(q.table.slots, q.conns[u].pc) {
      var pc := s.conns[u].pc;
      assert q.conns[u].pc == pc && Pinned(s.table.slots, pc);
      if NextTable(s, t).slots != s.table.slots && (pc.AlertLoop? || pc.AlertLock? || pc.AlertSend? || pc.AlertUnlock?) {
        SlotsChangedUnderLock(s, t);
        PinnedOwnsOperators(pc, u);
        OneOwner(s, t, u, Operators);
        assert false;
      }
    }
  }

  ghost predicate TableInv(s: State) {
    SlotsInv(s.conns, s.table) && DescriptorsInv(s.conns) && PinsInv(s)
  }

  lemma TableAccept(s: State, fd: nat)
    requires TableInv(s) && OpenOn(s.conns, fd) == |s.conns|
    ensures TableInv(Accepted(s, fd))
  {
    var q := Accepted(s, fd);
    assert forall i :: 0 <= i < |s.conns| ==> q.conns[i] == s.conns[i];
  }

  /** In every run: the count is min(100, successful logins), no slot is reused, and a slot holds its
      original descriptor and mutex or (-1, NULL). */
  lemma {:induction false} TableReached(thresholds: seq<A.Threshold>, moves: seq<Move>)
    requires LegalRun(thresholds, moves)
    ensures TableInv(Reached(thresholds, moves))
  {
    if moves != [] {
      var n := |moves| - 1;
      TableReached(thresholds, moves[..n]);
      LocksReached(thresholds, moves[..n]);
      var s := Reached(thresholds, moves[..n]);
      match moves[n]
      case Accept(fd) => TableAccept(s, fd);
      case Run(t, inp) =>
        SlotsStep(s, t, inp);
        DescriptorsStep(s, t, inp);
        PinsStep(s, t, inp);
    }
  }

  /** A cleared slot stays cleared, a filled one keeps its content until it is cleared. */
  lemma SlotsNeverReused(s: State, t: nat, i: nat)
    requires t < |s.conns| && i < |s.table.slots|
    ensures i < |NextTable(s, t).slots|
    ensures NextTable(s, t).slots[i] == s.table.slots[i] || NextTable(s, t).slots[i] == CLEARED
  {
  }

  // ---------- lifetime ----------

  function Owner(s: State, i: nat): nat
    requires i < |s.table.logins|
  {
    s.table.logins[i]
  }

  predicate Occupied(s: State, i: nat)
    requires i < |s.table.slots|
  {
    s.table.slots[i].mutex.Some?
  }

  /** A slot is filled exactly while the connection that registered it has not left remove_operator. */
  ghost predicate Tidy(s: State)
    requires SlotsInv(s.conns, s.table)
  {
    forall i :: 0 <= i < |s.table.slots| ==> (Occupied(s, i) <==> !Gone(s.conns[Owner(s, i)].pc))
  }

  /** The connection got more than one slot and is about to clear only one. */
  ghost predicate BadRemoval(s: State, t: nat)
    requires |s.table.slots| <= |s.table.logins|
  {
    t < |s.conns| && s.conns[t].pc.RemoveHold?
    && exists i, j :: 0 <= i < j < |s.table.slots| && Owner(s, i) == t && Owner(s, j) == t
  }

  ghost predicate BadMove(s: State, m: Move)
    requires |s.table.slots| <= |s.table.logins|
  {
    m.Run? && BadRemoval(s, m.t)
  }

  /** The slot that remove_operator finds belongs to the connection itself, even when its descriptor
      number was used by other connections before. */
  lemma RemovesOwnSlot(s: State, t: nat)
    requires TableInv(s) && Tidy(s) && t < |s.conns| && s.conns[t].pc.RemoveHold?
    ensures var i := SlotOf(s.table.slots, s.conns[t].fd); i < |s.table.slots| ==> Occupied(s, i) && Owner(s, i) == t
  {
    var i := SlotOf(s.table.slots, s.conns[t].fd);
    if i < |s.table.slots| {
      assert s.table.slots[i].fd >= 0;
      assert Occupied(s, i) && s.table.slots[i].fd == s.conns[Owner(s, i)].fd;
      var o := Owner(s, i);
      assert Open(s.conns[o].pc) && Open(s.conns[t].pc) && s.conns[o].fd == s.conns[t].fd;
    }
  }

  /** It finds one whenever the connection registered. */
  lemma RemovesSomeSlot(s: State, t: nat, i: nat)
    requires TableInv(s) && Tidy(s) && t < |s.conns| && s.conns[t].pc.RemoveHold?
    requires i < |s.table.slots| && Owner(s, i) == t
    ensures SlotOf(s.table.slots, s.conns[t].fd) <= i
  {
    assert Occupied(s, i);
    assert s.table.slots[i].fd == s.conns[t].fd;
  }

  /** What remove_operator does to each slot. */
  ghost predicate AfterRemoval(s: State, q: State, t: nat, c: nat)
    requires SlotsInv(s.conns, s.table) && SlotsInv(q.conns, q.table)
  {
    |q.table.slots| == |s.table.slots| && q.table.logins == s.table.logins
    && (c < |s.table.slots| ==> Owner(s, c) == t)
    && forall i :: 0 <= i < |s.table.slots| ==>
         && Occupied(q, i) == (Occupied(s, i) && i != c)
         && Gone(q.conns[Owner(q, i)].pc) == (Gone(s.conns[Owner(s, i)].pc) || Owner(s, i) == t)
         && (Owner(s, i) == t ==> c <= i && Owner(s, c) == t)
  }

  /** The step of remove_operator itself. */
  lemma RemovalStep(s: State, t: nat, inp: Input)
    requires CanRun(s, t, inp) && s.conns[t].pc.RemoveHold?
    ensures var q := Step(s, t, inp);
            && q.table.logins == s.table.logins && q.table.slots == ClearOperator(s.table.slots, s.conns[t].fd)
            && |q.conns| == |s.conns|
            && forall u :: 0 <= u < |s.conns| ==> (Gone(q.conns[u].pc) <==> Gone(s.conns[u].pc) || u == t)
  {
    StepFrame(s, t, inp);
  }

  lemma ClearedAt(slots: seq<Slot>, fd: int, i: nat)
    requires i < |slots|
    ensures ClearOperator(slots, fd)[i] == if i == SlotOf(slots, fd) then CLEARED else slots[i]
  {
  }

  lemma RemovalEffect(s: State, t: nat, inp: Input)
    requires TableInv(s) && Tidy(s) && CanRun(s, t, inp) && s.conns[t].pc.RemoveHold?
    requires SlotsInv(Step(s, t, inp).conns, Step(s, t, inp).table)
    ensures AfterRemoval(s, Step(s, t, inp), t, SlotOf(s.table.slots, s.conns[t].fd))
  {
    var q, c := Step(s, t, inp), SlotOf(s.table.slots, s.conns[t].fd);
    RemovalStep(s, t, inp);
    RemovesOwnSlot(s, t);
    forall i | 0 <= i < |s.table.slots|
      ensures Occupied(q, i) == (Occupied(s, i) && i != c)
      ensures Owner(s, i) == t ==> c <= i && Owner(s, c) == t
    {
      ClearedAt(s.table.slots, s.conns[t].fd, i);
      if Owner(s, i) == t {
        RemovesSomeSlot(s, t, i);
      }
    }
  }

  lemma TidyIffSingle(s: State, q: State, t: nat, c: nat)
    requires SlotsInv(s.conns, s.table) && SlotsInv(q.conns, q.table) && Tidy(s)
    requires t < |s.conns| && s.conns[t].pc.RemoveHold? && AfterRemoval(s, q, t, c)
    ensures Tidy(q) <==> !BadRemoval(s, t)
  {
    if BadRemoval(s, t) {
      var i, j :| 0 <= i < j < |s.table.slots| && Owner(s, i) == t && Owner(s, j) == t;
      assert Occupied(s, j) && Occupied(q, j) && Gone(q.conns[Owner(q, j)].pc);
    } else {
      forall i | 0 <= i < |q.table.slots| ensures Occupied(q, i) <==> !Gone(q.conns[Owner(q, i)].pc) {
        assert Owner(s, i) == t ==> i == c;
      }
    }
  }

  lemma TidyRemoval(s: State, t: nat, inp: Input)
    requires TableInv(s) && Tidy(s) && CanRun(s, t, inp) && s.conns[t].pc.RemoveHold?
    requires SlotsInv(Step(s, t, inp).conns, Step(s, t, inp).table)
    ensures Tidy(Step(s, t, inp)) <==> !BadRemoval(s, t)
  {
    RemovalEffect(s, t, inp);
    TidyIffSingle(s, Step(s, t, inp), t, SlotOf(s.table.slots, s.conns[t].fd));
  }

  /** Other steps neither finish a connection nor clear a slot. */
  lemma TidyElsewhere(s: State, t: nat, inp: Input)
    requires LockInv(s) && TableInv(s) && Tidy(s) && CanRun(s, t, inp) && !s.conns[t].pc.RemoveHold?
    requires SlotsInv(Step(s, t, inp).conns, Step(s, t, inp).table)
    ensures Tidy(Step(s, t, inp))
  {
    var q := Step(s, t, inp);
    StepFrame(s, t, inp);
    GoneElsewhere(s, t, inp);
    SlotsElsewhere(s, t);
    forall i | 0 <= i < |q.table.slots| ensures Occupied(q, i) <==> !Gone(q.conns[Owner(q, i)].pc) {
      if i < |s.table.slots| {
        assert Owner(q, i) == Owner(s, i);
        assert Occupied(s, i) <==> !Gone(s.conns[Owner(s, i)].pc);
      } else {
        assert s.conns[t].pc.LoginHold? && Owner(q, i) == t;
      }
    }
  }

  lemma GoneElsewhere(s: State, t: nat, inp: Input)
    requires CanRun(s, t, inp) && !s.conns[t].pc.RemoveHold? && PcOk(s.conns[t].pc)
    ensures Gone(NextPc(s, t, inp)) == Gone(s.conns[t].pc)
  {
  }

  lemma SlotsElsewhere(s: State, t: nat)
    requires t < |s.conns| && !s.conns[t].pc.RemoveHold?
    ensures s.table.slots <= NextTable(s, t).slots
  {
  }

  lemma TidyMove(s: State, m: Move)
    requires LockInv(s) && TableInv(s) && Tidy(s) && Legal(s, m)
    requires SlotsInv(Next(s, m).conns, Next(s, m).table)
    ensures Tidy(Next(s, m)) <==> !BadMove(s, m)
  {
    match m
    case Accept(fd) =>
      var q := Accepted(s, fd);
      forall i | 0 <= i < |q.table.slots| ensures Occupied(q, i) <==> !Gone(q.conns[Owner(q, i)].pc) {
        assert q.conns[Owner(s, i)] == s.conns[Owner(s, i)];
        assert Occupied(s, i) <==> !Gone(s.conns[Owner(s, i)].pc);
      }
    case Run(t, inp) =>
      if s.conns[t].pc.RemoveHold? {
        TidyRemoval(s, t, inp);
      } else {
        TidyElsewhere(s, t, inp);
      }
  }

  /** The state before move n. */
  function Before(thresholds: seq<A.Threshold>, moves: seq<Move>, n: nat): State
    requires LegalRun(thresholds, moves) && n <= |moves|
  {
    PrefixLegal(thresholds, moves, n);
    Reached(thresholds, moves[..n])
  }

  ghost predicate TidyAt(thresholds: seq<A.Threshold>, moves: seq<Move>, n: nat)
    requires LegalRun(thresholds, moves) && n <= |moves|
  {
    var s := Before(thresholds, moves, n);
    SlotsInv(s.conns, s.table) && Tidy(s)
  }

  ghost predicate BadAt(thresholds: seq<A.Threshold>, moves: seq<Move>, n: nat)
    requires LegalRun(thresholds, moves) && n < |moves|
  {
    var s := Before(thresholds, moves, n);
    SlotsInv(s.conns, s.table) && BadMove(s, moves[n])
  }

  lemma TidyNext(thresholds: seq<A.Threshold>, moves: seq<Move>, n: nat)
    requires LegalRun(thresholds, moves) && n < |moves| && TidyAt(thresholds, moves, n)
    ensures TidyAt(thresholds, moves, n + 1) <==> !BadAt(thresholds, moves, n)
  {
    PrefixLegal(thresholds, moves, n);
    PrefixLegal(thresholds, moves, n + 1);
    assert moves[..n + 1][..n] == moves[..n];
    TableReached(thresholds, moves[..n]);
    LocksReached(thresholds, moves[..n]);
    TableReached(thresholds, moves[..n + 1]);
    TidyMove(Reached(thresholds, moves[..n]), moves[n]);
  }

  lemma {:induction false} TidyUpTo(thresholds: seq<A.Threshold>, moves: seq<Move>, n: nat)
    requires LegalRun(thresholds, moves) && n <= |moves|
    requires forall k: nat :: k < n ==> !BadAt(thresholds, moves, k)
    ensures TidyAt(thresholds, moves, n)
  {
    if n == 0 {
      assert moves[..0] == [];
    } else {
      TidyUpTo(thresholds, moves, n - 1);
      TidyNext(thresholds, moves, n - 1);
    }
  }

  /** No state of a run has a slot that outlives its connection, exactly when no connection of the run
      goes through remove_operator with more than one slot. */
  lemma TidyRunIff(thresholds: seq<A.Threshold>, moves: seq<Move>)
    requires LegalRun(thresholds, moves)
    ensures (forall n: nat :: n <= |moves| ==> TidyAt(thresholds, moves, n))
       <==> (forall n: nat :: n < |moves| ==> !BadAt(thresholds, moves, n))
  {
    if forall n: nat :: n <= |moves| ==> TidyAt(thresholds, moves, n) {
      forall n: nat | n < |moves| ensures !BadAt(thresholds, moves, n) {
        assert TidyAt(thresholds, moves, n) && TidyAt(thresholds, moves, n + 1);
        TidyNext(thresholds, moves, n);
      }
    }
    if forall n: nat :: n < |moves| ==> !BadAt(thresholds, moves, n) {
      forall n: nat | n <= |moves| ensures TidyAt(thresholds, moves, n) {
        TidyUpTo(thresholds, moves, n);
      }
    }
  }

  // ---------- one login per connection ----------

  /** No connection obtained two slots. */
  ghost predicate Once(table: Table)
    requires |table.slots| <= |table.logins|
  {
    forall i, j :: 0 <= i < j < |table.slots| ==> table.logins[i] != table.logins[j]
  }

  ghost predicate LogsInOnce(thresholds: seq<A.Threshold>, moves: seq<Move>) {
    LegalRun(thresholds, moves) &&
    (var table := Reached(thresholds, moves).table; |table.slots| <= |table.logins| && Once(table))
  }

  lemma LoginsGrow(s: State, m: Move)
    requires Legal(s, m)
    ensures s.table.logins <= Next(s, m).table.logins
    ensures |s.table.slots| <= |Next(s, m).table.slots|
  {
  }

  lemma OncePrefix(thresholds: seq<A.Threshold>, moves: seq<Move>)
    requires LogsInOnce(thresholds, moves) && moves != []
    ensures LogsInOnce(thresholds, moves[..|moves| - 1])
  {
    var n := |moves| - 1;
    TableReached(thresholds, moves[..n]);
    var s := Reached(thresholds, moves[..n]);
    LoginsGrow(s, moves[n]);
    var q := Next(s, moves[n]);
    forall i, j | 0 <= i < j < |s.table.slots| ensures s.table.logins[i] != s.table.logins[j] {
      assert q.table.logins[i] == s.table.logins[i] && q.table.logins[j] == s.table.logins[j];
    }
  }

  lemma {:induction false} OnceEarlier(thresholds: seq<A.Threshold>, moves: seq<Move>, n: nat)
    requires LogsInOnce(thresholds, moves) && n <= |moves|
    ensures LogsInOnce(thresholds, moves[..n])
  {
    if n < |moves| {
      OncePrefix(thresholds, moves);
      OnceEarlier(thresholds, moves[..|moves| - 1], n);
      assert moves[..|moves| - 1][..n] == moves[..n];
    } else {
      assert moves[..n] == moves;
    }
  }

  // ---------- clean runs ----------

  /** No connection goes through remove_operator with more than one slot. */
  ghost predicate CleanRun(thresholds: seq<A.Threshold>, moves: seq<Move>) {
    LegalRun(thresholds, moves) && forall n: nat :: n < |moves| ==> !BadAt(thresholds, moves, n)
  }

  lemma CleanIsTidy(thresholds: seq<A.Threshold>, moves: seq<Move>)
    requires CleanRun(thresholds, moves)
    ensures TableInv(Reached(thresholds, moves)) && Tidy(Reached(thresholds, moves))
  {
    TableReached(thresholds, moves);
    TidyUpTo(thresholds, moves, |moves|);
    assert moves[..|moves|] == moves;
  }

  lemma CleanPrefix(thresholds: seq<A.Threshold>, moves: seq<Move>)
    requires CleanRun(thresholds, moves) && moves != []
    ensures CleanRun(thresholds, moves[..|moves| - 1])
  {
    var front := moves[..|moves| - 1];
    forall n: nat | n < |front| ensures !BadAt(thresholds, front, n) {
      assert front[..n] == moves[..n];
      assert !BadAt(thresholds, moves, n);
    }
  }

  /** Runs in which every connection logs in successfully at most once are clean. */
  lemma OnceIsClean(thresholds: seq<A.Threshold>, moves: seq<Move>)
    requires LogsInOnce(thresholds, moves)
    ensures CleanRun(thresholds, moves)
  {
    forall n: nat | n < |moves| ensures !BadAt(thresholds, moves, n) {
      OnceEarlier(thresholds, moves, n);
    }
  }

  lemma OccupiedIsOpen(s: State, i: nat)
    requires TableInv(s) && Tidy(s) && i < |s.table.slots| && Occupied(s, i)
    ensures var o := Owner(s, i);
            && o < |s.conns| && s.table.slots[i] == Slot(s.conns[o].fd, Some(o)) && !Gone(s.conns[o].pc)
            && OpenOn(s.conns, s.table.slots[i].fd) == o
  {
    var o := Owner(s, i);
    assert s.table.slots[i] != CLEARED;
    var to := OpenOn(s.conns, s.conns[o].fd);
    assert Open(s.conns[o].pc);
    assert to <= o;
  }

  /** Every filled slot belongs to an open connection of its own, holds that connection's descriptor
      and its undestroyed write mutex, and the descriptor is nobody else's now. */
  lemma LiveSlots(thresholds: seq<A.Threshold>, moves: seq<Move>, s: State, i: nat)
    requires LogsInOnce(thresholds, moves) && s == Reached(thresholds, moves)
    requires i < |s.table.slots| <= |s.table.logins| && Occupied(s, i)
    ensures var o := Owner(s, i);
            && o < |s.conns| && s.table.slots[i] == Slot(s.conns[o].fd, Some(o)) && !Gone(s.conns[o].pc)
            && OpenOn(s.conns, s.table.slots[i].fd) == o
            && forall j :: 0 <= j < |s.table.slots| && j != i ==> Owner(s, j) != o
  {
    OnceIsClean(thresholds, moves);
    CleanIsTidy(thresholds, moves);
    OccupiedIsOpen(s, i);
  }

  /** A slot that a broadcast works on belongs to an open connection, which is the one that receives
      what is sent on the slot's descriptor. */
  lemma BroadcastTarget(s: State, t: nat)
    requires TableInv(s) && Tidy(s) && t < |s.conns|
    requires var pc := s.conns[t].pc; pc.AlertLock? || pc.AlertSend? || pc.AlertUnlock?
    ensures var pc := s.conns[t].pc;
            && pc.i < |s.table.slots| && pc.mutex == Owner(s, pc.i) < |s.conns|
            && !Gone(s.conns[pc.mutex].pc)
            && s.table.slots[pc.i].fd == s.conns[pc.mutex].fd > 0
            && OpenOn(s.conns, s.table.slots[pc.i].fd) == pc.mutex
  {
    var pc := s.conns[t].pc;
    assert Pinned(s.table.slots, pc);
    assert s.table.slots[pc.i] != CLEARED;
    assert Occupied(s, pc.i);
    var to := OpenOn(s.conns, s.table.slots[pc.i].fd);
    assert Open(s.conns[pc.mutex].pc) && s.conns[pc.mutex].fd == s.table.slots[pc.i].fd;
    assert to <= pc.mutex;
  }

  lemma WriteMutexUsers(pc: Pc, t: nat, m: nat)
    requires PcOk(pc) && (Write(m) in Held(pc, t) || Wants(pc, t) == Some(Write(m)))
    ensures !Gone(pc)
    ensures m == t || ((pc.AlertLock? || pc.AlertSend? || pc.AlertUnlock?) && pc.mutex == m)
  {
  }

  /** Mutex lifetime: no handler owns or waits for the write mutex of a connection that has left
      remove_operator; in particular none is destroyed while it is in use. */
  lemma WriteMutexOutlivesUse(thresholds: seq<A.Threshold>, moves: seq<Move>, t: nat, m: nat)
    requires CleanRun(thresholds, moves)
    requires var s := Reached(thresholds, moves);
             t < |s.conns| && m < |s.conns|
             && (Write(m) in Held(s.conns[t].pc, t) || Wants(s.conns[t].pc, t) == Some(Write(m)))
    ensures !Gone(Reached(thresholds, moves).conns[m].pc)
  {
    CleanIsTidy(thresholds, moves);
    LocksReached(thresholds, moves);
    var s := Reached(thresholds, moves);
    WriteMutexUsers(s.conns[t].pc, t, m);
    if m != t {
      BroadcastTarget(s, t);
    }
  }

  /** pthread_mutex_destroy is called on an unlocked mutex that nobody waits for. */
  lemma DestroyedUnused(thresholds: seq<A.Threshold>, moves: seq<Move>, m: nat)
    requires CleanRun(thresholds, moves)
    requires var s := Reached(thresholds, moves); m < |s.conns| && Gone(s.conns[m].pc)
    ensures var s := Reached(thresholds, moves);
            Write(m) !in s.locks && forall t: nat :: t < |s.conns| ==> Wants(s.conns[t].pc, t) != Some(Write(m))
  {
    LocksReached(thresholds, moves);
    var s := Reached(thresholds, moves);
    if Write(m) in s.locks {
      WriteMutexOutlivesUse(thresholds, moves, s.locks[Write(m)], m);
    }
    forall t: nat | t < |s.conns| ensures Wants(s.conns[t].pc, t) != Some(Write(m)) {
      if Wants(s.conns[t].pc, t) == Some(Write(m)) {
        WriteMutexOutlivesUse(thresholds, moves, t, m);
      }
    }
  }

  lemma ClearsOwn(s: State, t: nat, i: nat)
    requires TableInv(s) && Tidy(s) && t < |s.conns| && s.conns[t].pc.RemoveHold? && i < |s.table.slots|
    ensures var q := ClearOperator(s.table.slots, s.conns[t].fd);
            && (Owner(s, i) != t ==> q[i] == s.table.slots[i])
            && (Owner(s, i) == t && Once(s.table) ==> q[i] == CLEARED)
  {
    RemovesOwnSlot(s, t);
    ClearsOne(s.table.slots, s.conns[t].fd, i);
    if Owner(s, i) == t {
      RemovesSomeSlot(s, t, i);
    }
  }

  /** A teardown clears the slot of its own connection, when it has one, and no other, also after
      descriptor numbers were reused. */
  lemma TeardownClearsOwnSlot(thresholds: seq<A.Threshold>, moves: seq<Move>, s: State, t: nat, i: nat)
    requires CleanRun(thresholds, moves) && s == Reached(thresholds, moves)
    requires t < |s.conns| && s.conns[t].pc.RemoveHold? && i < |s.table.slots| <= |s.table.logins|
    ensures var q := ClearOperator(s.table.slots, s.conns[t].fd);
            && (Owner(s, i) != t ==> q[i] == s.table.slots[i])
            && (Owner(s, i) == t && Once(s.table) ==> q[i] == CLEARED)
  {
    CleanIsTidy(thresholds, moves);
    ClearsOwn(s, t, i);
  }
}
