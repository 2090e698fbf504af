/** The order of alerts: every connection is sent the segments of one global broadcast order that its
    slots stand for. */
module Broadcasts {
  import opened Handlers
  import opened LockOrder
  import opened OperatorTable
  import opened SafeRuns
  import opened Streams
  import opened Deliveries
  import Packing
  import A = AlertEngine

  /** The alert lines a connection was sent, in order. */
  function Texts(chunks: seq<Chunk>): seq<string> {
    if chunks == [] then [] else
      var c := chunks[|chunks| - 1];
      var before := Texts(chunks[..|chunks| - 1]);
      if c.AlertLine? then before + [c.text] else before
  }

  predicate Alerting(pc: Pc) {
    pc.AlertLoop? || pc.AlertLock? || pc.AlertSend? || pc.AlertUnlock?
  }

  /** First slot that the running broadcast has still to serve; n when no broadcast is running. */
  function PendingOf(pc: Pc, n: nat): nat {
    match pc
    case AlertLoop(_, i) => i
    case AlertLock(_, i, _) => i
    case AlertSend(_, i, _) => i
    case AlertUnlock(_, i, _) => i + 1
    case _ => n
  }

  function PendingFrom(s: State): nat {
    if Operators in s.locks && s.locks[Operators] < |s.conns|
    then PendingOf(s.conns[s.locks[Operators]].pc, |s.table.slots|) else |s.table.slots|
  }

  /** How many broadcasts slot i has taken part in or missed before: the end of its segment. */
  function UpTo(table: Table, pending: nat, i: nat): int
    requires i < |table.slots| == |table.until|
  {
    if table.slots[i].mutex.None? then table.until[i]
    else if pending <= i then |table.broadcasts| - 1
    else |table.broadcasts|
  }

  ghost predicate MessageOk(broadcasts: seq<string>, pc: Pc) {
    Alerting(pc) ==> broadcasts != [] && pc.msg == broadcasts[|broadcasts| - 1]
  }

  ghost predicate MessagesInv(s: State) {
    forall t :: 0 <= t < |s.conns| ==> MessageOk(s.table.broadcasts, s.conns[t].pc)
  }

  /** The table's history fits together. */
  ghost predicate BoundsOk(table: Table, pending: nat) {
    && |table.slots| == |table.since| == |table.until| <= |table.logins|
    && forall i :: 0 <= i < |table.slots| ==> table.since[i] <= UpTo(table, pending, i) <= |table.broadcasts|
  }

  /** The segment of each slot of connection u; slots of other connections count as empty. */
  function SegmentsOf(table: Table, pending: nat, u: nat): (g: seq<Segment>)
    requires |table.slots| == |table.since| == |table.until| <= |table.logins|
    ensures |g| == |table.slots|
    ensures forall i :: 0 <= i < |g| ==>
              g[i] == if table.logins[i] == u then Segment(table.since[i], UpTo(table, pending, i)) else Segment(0, 0)
  {
    seq(|table.slots|, i requires 0 <= i < |table.slots| =>
      if table.logins[i] == u then Segment(table.since[i], UpTo(table, pending, i)) else Segment(0, 0))
  }

  /** What connection u should have been sent: a copy of each broadcast for each slot that it concerned;
      nothing on descriptor 0. */
  function Due(table: Table, pending: nat, u: nat, fd: nat): seq<string>
    requires |table.slots| == |table.since| == |table.until| <= |table.logins|
  {
    if fd > 0 then Merge(SegmentsOf(table, pending, u), table.broadcasts) else []
  }

  ghost predicate ServedInv(conns: seq<Conn>, table: Table, pending: nat) {
    && BoundsOk(table, pending)
    && forall u :: 0 <= u < |conns| ==> Texts(conns[u].chunks) == Due(table, pending, u, conns[u].fd)
  }

  ghost predicate OrderInv(s: State) {
    && SlotsInv(s.conns, s.table) && MessagesInv(s) && ServedInv(s.conns, s.table, PendingFrom(s))
  }

  // ---------- messages ----------

  lemma AlertingOwnsOperators(pc: Pc, t: nat)
    requires Alerting(pc)
    ensures Operators in Held(pc, t)
  {
  }

  lemma BroadcastsStart(s: State, t: nat)
    requires t < |s.conns|
    ensures NextTable(s, t).broadcasts ==
            if s.conns[t].pc.AlertWait? then s.table.broadcasts + [s.conns[t].pc.msg] else s.table.broadcasts
  {
  }

  lemma MessageNext(s: State, t: nat, inp: Input)
    requires CanRun(s, t, inp) && PcOk(s.conns[t].pc) && MessageOk(s.table.broadcasts, s.conns[t].pc)
    ensures MessageOk(NextTable(s, t).broadcasts, NextPc(s, t, inp))
  {
  }

  lemma MessagesStep(s: State, t: nat, inp: Input)
    requires LockInv(s) && MessagesInv(s) && CanRun(s, t, inp)
    ensures MessagesInv(Step(s, t, inp))
  {
    var q := Step(s, t, inp);
    StepFrame(s, t, inp);
    BroadcastsStart(s, t);
    MessageNext(s, t, inp);
    forall u | 0 <= u < |q.conns| && u != t ensures MessageOk(q.table.broadcasts, q.conns[u].pc) {
      assert q.conns[u].pc == s.conns[u].pc && MessageOk(s.table.broadcasts, s.conns[u].pc);
      if Alerting(s.conns[u].pc) {
        AlertingOwnsOperators(s.conns[u].pc, u);
        assert Operators in s.locks;
      }
    }
  }

  lemma MessagesAccept(s: State, fd: nat)
    requires MessagesInv(s)
    ensures MessagesInv(Accepted(s, fd))
  {
    var q := Accepted(s, fd);
    forall u | 0 <= u < |q.conns| ensures MessageOk(q.table.broadcasts, q.conns[u].pc) {
      if u < |s.conns| {
        assert q.conns[u] == s.conns[u] && MessageOk(s.table.broadcasts, s.conns[u].pc);
      }
    }
  }

  lemma {:induction false} MessagesReached(thresholds: seq<A.Threshold>, moves: seq<Move>)
    requires LegalRun(thresholds, moves)
    ensures MessagesInv(Reached(thresholds, moves))
  {
    if moves != [] {
      var n := |moves| - 1;
      MessagesReached(thresholds, moves[..n]);
      LocksReached(thresholds, moves[..n]);
      var s := Reached(thresholds, moves[..n]);
      match moves[n]
      case Accept(fd) => MessagesAccept(s, fd);
      case Run(t, inp) => MessagesStep(s, t, inp);
    }
  }

  // ---------- every alert line is a broadcast ----------

  ghost predicate LinesAreBroadcasts(c: Conn, broadcasts: seq<string>) {
    forall k :: 0 <= k < |c.chunks| && c.chunks[k].AlertLine? ==> c.chunks[k].text in broadcasts
  }

  lemma LinesStep(s: State, t: nat, inp: Input, u: nat)
    requires CanRun(s, t, inp) && u < |s.conns| && MessageOk(s.table.broadcasts, s.conns[t].pc)
    requires LinesAreBroadcasts(s.conns[u], s.table.broadcasts)
    ensures LinesAreBroadcasts(Delivered(s, t, inp)[u], s.table.broadcasts)
  {
  }

  /** In every run, each alert line that a connection was sent is one of the broadcasts. */
  lemma {:induction false} AlertLinesAreBroadcasts(thresholds: seq<A.Threshold>, moves: seq<Move>, u: nat)
    requires LegalRun(thresholds, moves) && u < |Reached(thresholds, moves).conns|
    ensures LinesAreBroadcasts(Reached(thresholds, moves).conns[u], Reached(thresholds, moves).table.broadcasts)
  {
    if moves != [] {
      var n := |moves| - 1;
      var s := Reached(thresholds, moves[..n]);
      match moves[n]
      case Accept(fd) =>
        if u < |s.conns| {
          AlertLinesAreBroadcasts(thresholds, moves[..n], u);
          assert Accepted(s, fd).conns[u] == s.conns[u];
        }
      case Run(t, inp) =>
        StepFrame(s, t, inp);
        AlertLinesAreBroadcasts(thresholds, moves[..n], u);
        MessagesReached(thresholds, moves[..n]);
        BroadcastsStart(s, t);
        LinesStep(s, t, inp, u);
        assert s.table.broadcasts <= NextTable(s, t).broadcasts;
        assert Step(s, t, inp).conns[u].chunks == Delivered(s, t, inp)[u].chunks;
    }
  }

  // ---------- the pending slot ----------

  lemma PendingIs(s: State, t: nat)
    requires LockInv(s) && t < |s.conns| && Operators in Held(s.conns[t].pc, t)
    ensures PendingFrom(s) == PendingOf(s.conns[t].pc, |s.table.slots|)
  {
  }

  lemma PendingIdle(s: State)
    requires Operators !in s.locks
    ensures PendingFrom(s) == |s.table.slots|
  {
  }

  /** A step outside the operator mutex does not move the running broadcast. */
  lemma PendingElsewhere(s: State, t: nat, inp: Input)
    requires LockInv(s) && CanRun(s, t, inp)
    requires Operators !in Held(s.conns[t].pc, t) && Wants(s.conns[t].pc, t) != Some(Operators)
    ensures PendingFrom(Step(s, t, inp)) == PendingFrom(s)
    ensures NextTable(s, t) == s.table
  {
    var q := Step(s, t, inp);
    StepFrame(s, t, inp);
    HeldStep(s, t, inp, Operators);
    if Operators in s.locks {
      var o := s.locks[Operators];
      assert Operators in Held(s.conns[o].pc, o);
      assert q.conns[o].pc == s.conns[o].pc;
    }
  }

  // ---------- texts ----------

  lemma TextsAppend(chunks: seq<Chunk>, c: Chunk)
    ensures Texts(chunks + [c]) == if c.AlertLine? then Texts(chunks) + [c.text] else Texts(chunks)
  {
    assert (chunks + [c])[..|chunks|] == chunks;
  }

  lemma TextsOfResponsePart(c: Conn, r: string, k: nat, n: nat)
    requires StreamOk(c) && c.pc == Sending(r, k) && k + n <= |r|
    ensures Texts(WithResponsePart(c, r, k, n).chunks) == Texts(c.chunks)
  {
    var front := c.chunks[..|c.chunks| - 1];
    assert c.chunks == front + [Response(r, k)];
    TextsAppend(front, Response(r, k));
    TextsAppend(front, Response(r, k + n));
    assert WithResponsePart(c, r, k, n).chunks == front + [Response(r, k + n)];
  }

  lemma OwnTextsKept(s: State, t: nat, inp: Input)
    requires CanRun(s, t, inp) && !s.conns[t].pc.AlertSend? && StreamOk(s.conns[t])
    ensures Texts(Step(s, t, inp).conns[t].chunks) == Texts(s.conns[t].chunks)
  {
    var c := s.conns[t];
    if c.pc.RespondWait? {
      TextsAppend(c.chunks, Response(inp.response, 0));
    } else if c.pc.Sending? {
      if c.pc.sent < |c.pc.response| {
        TextsOfResponsePart(c, c.pc.response, c.pc.sent, Clamp(inp.sent));
      }
    } else {
      QuietConn(s, t, inp);
    }
  }

  lemma TextsKept(s: State, t: nat, inp: Input)
    requires CanRun(s, t, inp) && !s.conns[t].pc.AlertSend? && StreamOk(s.conns[t])
    ensures forall u :: 0 <= u < |s.conns| ==> Texts(Step(s, t, inp).conns[u].chunks) == Texts(s.conns[u].chunks)
  {
    OthersQuiet(s, t, inp);
    OwnTextsKept(s, t, inp);
  }

  // ---------- who was served ----------

  ghost predicate SameTexts(a: seq<Conn>, c: seq<Conn>) {
    |a| == |c| && forall u :: 0 <= u < |a| ==> c[u].fd == a[u].fd && Texts(c[u].chunks) == Texts(a[u].chunks)
  }

  lemma QuietTexts(s: State, t: nat, inp: Input)
    requires CanRun(s, t, inp) && !s.conns[t].pc.AlertSend? && StreamOk(s.conns[t])
    ensures SameTexts(s.conns, Step(s, t, inp).conns)
  {
    StepFrame(s, t, inp);
    TextsKept(s, t, inp);
  }

  /** Nothing new was due, and nothing was sent. */
  lemma ServedKept(a: seq<Conn>, c: seq<Conn>, ta: Table, tc: Table, pa: nat, pc: nat)
    requires ServedInv(a, ta, pa) && BoundsOk(tc, pc) && SameTexts(a, c)
    requires forall u: nat :: u < |a| ==> Due(tc, pc, u, a[u].fd) == Due(ta, pa, u, a[u].fd)
    ensures ServedInv(c, tc, pc)
  {
  }

  lemma ServedElsewhere(s: State, t: nat, inp: Input)
    requires LockInv(s) && OrderInv(s) && CanRun(s, t, inp) && StreamOk(s.conns[t])
    requires Operators !in Held(s.conns[t].pc, t) && Wants(s.conns[t].pc, t) != Some(Operators)
    ensures ServedInv(Step(s, t, inp).conns, Step(s, t, inp).table, PendingFrom(Step(s, t, inp)))
  {
    PendingElsewhere(s, t, inp);
    QuietTexts(s, t, inp);
    ServedKept(s.conns, Step(s, t, inp).conns, s.table, s.table, PendingFrom(s), PendingFrom(s));
  }

  // ---------- steps under the operator mutex ----------

  predicate UsesOperators(pc: Pc, t: nat) {
    Operators in Held(pc, t) || Wants(pc, t) == Some(Operators)
  }

  lemma PendingBefore(s: State, t: nat, inp: Input)
    requires LockInv(s) && CanRun(s, t, inp) && UsesOperators(s.conns[t].pc, t)
    ensures PendingFrom(s) == PendingOf(s.conns[t].pc, |s.table.slots|)
  {
    if Operators in Held(s.conns[t].pc, t) {
      PendingIs(s, t);
    }
  }

  lemma PendingAfter(s: State, t: nat, inp: Input)
    requires LockInv(s) && CanRun(s, t, inp) && UsesOperators(s.conns[t].pc, t)
    ensures var q := Step(s, t, inp);
            PendingFrom(q) ==
              if Frees(s, t) == Some(Operators) then |q.table.slots| else PendingOf(NextPc(s, t, inp), |q.table.slots|)
  {
    var q := Step(s, t, inp);
    LockStep(s, t, inp);
    StepFrame(s, t, inp);
    HeldStep(s, t, inp, Operators);
    if Frees(s, t) != Some(Operators) {
      PendingIs(q, t);
    }
  }

  /** Steps that change neither the table nor what anybody was sent. */
  predicate Moves(pc: Pc) {
    !pc.AlertWait? && !pc.AlertSend? && !pc.LoginHold? && !pc.RemoveHold?
  }

  /** The broadcast goes on from p to r without skipping a live slot. */
  predicate Passes(slots: seq<Slot>, p: nat, r: nat) {
    r == p || (p < |slots| && r == p + 1 && !Live(slots[p]))
  }

  /** The running broadcast moves on, or does not, without skipping a live slot. */
  lemma PendingMoves(s: State, t: nat, inp: Input)
    requires CanRun(s, t, inp) && PcOk(s.conns[t].pc) && UsesOperators(s.conns[t].pc, t) && Moves(s.conns[t].pc)
    requires Pinned(s.table.slots, s.conns[t].pc)
    ensures var n := |s.table.slots|;
            var r := if Frees(s, t) == Some(Operators) then n else PendingOf(NextPc(s, t, inp), n);
            Passes(s.table.slots, PendingOf(s.conns[t].pc, n), r)
    ensures NextTable(s, t) == s.table
  {
  }

  /** Passing a slot that is not live changes nothing that matters: it was cleared, or its owner has
      descriptor 0. */
  lemma DueMoves(conns: seq<Conn>, table: Table, p: nat, r: nat, u: nat)
    requires SlotsInv(conns, table) && BoundsOk(table, p) && Passes(table.slots, p, r) && u < |conns|
    ensures Due(table, r, u, conns[u].fd) == Due(table, p, u, conns[u].fd)
  {
    if conns[u].fd > 0 {
      assert SegmentsOf(table, r, u) == SegmentsOf(table, p, u);
    }
  }

  lemma BoundsMove(table: Table, p: nat, r: nat)
    requires BoundsOk(table, p) && p <= r
    ensures BoundsOk(table, r)
  {
    forall i | 0 <= i < |table.slots| ensures table.since[i] <= UpTo(table, r, i) <= |table.broadcasts| {
      assert table.since[i] <= UpTo(table, p, i) <= |table.broadcasts|;
    }
  }

  lemma ServedPassing(a: seq<Conn>, c: seq<Conn>, table: Table, p: nat, r: nat)
    requires SlotsInv(a, table) && ServedInv(a, table, p) && SameTexts(a, c) && Passes(table.slots, p, r)
    ensures ServedInv(c, table, r)
  {
    BoundsMove(table, p, r);
    forall u: nat | u < |a| ensures Due(table, r, u, a[u].fd) == Due(table, p, u, a[u].fd) {
      DueMoves(a, table, p, r, u);
    }
    ServedKept(a, c, table, table, p, r);
  }

  lemma ServedMoves(s: State, t: nat, inp: Input)
    requires LockInv(s) && TableInv(s) && OrderInv(s) && CanRun(s, t, inp) && StreamOk(s.conns[t])
    requires UsesOperators(s.conns[t].pc, t) && Moves(s.conns[t].pc)
    ensures ServedInv(Step(s, t, inp).conns, Step(s, t, inp).table, PendingFrom(Step(s, t, inp)))
  {
    QuietTexts(s, t, inp);
    PendingBefore(s, t, inp);
    PendingAfter(s, t, inp);
    PendingMoves(s, t, inp);
    ServedPassing(s.conns, Step(s, t, inp).conns, s.table, PendingFrom(s), PendingFrom(Step(s, t, inp)));
  }

  /** The segments of a connection lie within the order. */
  lemma SegmentsWithin(table: Table, pending: nat, u: nat)
    requires BoundsOk(table, pending)
    ensures Within(SegmentsOf(table, pending, u), |table.broadcasts|)
  {
  }

  /** A new broadcast is due to nobody until its slot is served. */
  lemma DueStarts(table: Table, q: Table, msg: string, u: nat, fd: nat)
    requires BoundsOk(table, |table.slots|) && q == table.(broadcasts := table.broadcasts + [msg])
    ensures BoundsOk(q, 0) && Due(q, 0, u, fd) == Due(table, |table.slots|, u, fd)
  {
    assert forall i :: 0 <= i < |table.slots| ==> UpTo(q, 0, i) == UpTo(table, |table.slots|, i);
    assert SegmentsOf(q, 0, u) == SegmentsOf(table, |table.slots|, u);
    SegmentsWithin(table, |table.slots|, u);
    MergeNew(SegmentsOf(table, |table.slots|, u), table.broadcasts, msg);
  }

  lemma ServedStart(s: State, t: nat, inp: Input)
    requires LockInv(s) && OrderInv(s) && CanRun(s, t, inp) && StreamOk(s.conns[t]) && s.conns[t].pc.AlertWait?
    ensures ServedInv(Step(s, t, inp).conns, Step(s, t, inp).table, PendingFrom(Step(s, t, inp)))
  {
    QuietTexts(s, t, inp);
    PendingBefore(s, t, inp);
    PendingAfter(s, t, inp);
    var q := NextTable(s, t);
    var n := |s.table.slots|;
    DueStarts(s.table, q, s.conns[t].pc.msg, 0, 0);
    forall u: nat | u < |s.conns| ensures Due(q, 0, u, s.conns[u].fd) == Due(s.table, n, u, s.conns[u].fd) {
      DueStarts(s.table, q, s.conns[t].pc.msg, u, s.conns[u].fd);
    }
    ServedKept(s.conns, Step(s, t, inp).conns, s.table, q, n, 0);
  }

  /** The owner of slot k, and nobody else, was sent the running broadcast. */
  ghost predicate OneMore(a: seq<Conn>, c: seq<Conn>, m: nat, msg: string) {
    && |c| == |a| && m < |a| && a[m].fd > 0
    && (forall u :: 0 <= u < |a| ==> c[u].fd == a[u].fd)
    && Texts(c[m].chunks) == Texts(a[m].chunks) + [msg]
    && forall u :: 0 <= u < |a| && u != m ==> Texts(c[u].chunks) == Texts(a[u].chunks)
  }

  lemma SentText(s: State, t: nat, inp: Input, u: nat)
    requires TableInv(s) && ServesOpen(s) && CanRun(s, t, inp) && s.conns[t].pc.AlertSend? && u < |s.conns|
    ensures |Step(s, t, inp).conns| == |s.conns|
    ensures Texts(Step(s, t, inp).conns[u].chunks) ==
            if u == s.conns[t].pc.mutex then Texts(s.conns[u].chunks) + [s.conns[t].pc.msg] else Texts(s.conns[u].chunks)
  {
    StepFrame(s, t, inp);
    AlertedConns(s, t, inp, u);
    TextsAppend(s.conns[u].chunks, AlertLine(s.conns[t].pc.msg, Clamp(inp.sent)));
  }

  /** What the send of an alert changes, seen from outside. */
  ghost predicate Sent(s: State, q: State, k: nat) {
    && q.table == s.table && k < |s.table.slots| <= |s.table.logins| && s.table.slots[k].mutex.Some?
    && PendingFrom(s) == k && PendingFrom(q) == k + 1 && s.table.broadcasts != []
    && OneMore(s.conns, q.conns, s.table.logins[k], s.table.broadcasts[|s.table.broadcasts| - 1])
  }

  lemma SendIsOneMore(s: State, t: nat, inp: Input)
    requires TableInv(s) && ServesOpen(s) && CanRun(s, t, inp) && s.conns[t].pc.AlertSend?
    ensures OneMore(s.conns, Step(s, t, inp).conns, s.conns[t].pc.mutex, s.conns[t].pc.msg)
  {
    StepFrame(s, t, inp);
    SendTarget(s, t);
    var q := Step(s, t, inp);
    forall u: nat | u < |s.conns|
      ensures Texts(q.conns[u].chunks) ==
              if u == s.conns[t].pc.mutex then Texts(s.conns[u].chunks) + [s.conns[t].pc.msg] else Texts(s.conns[u].chunks)
    {
      SentText(s, t, inp, u);
    }
  }

  lemma SendKeepsTable(s: State, t: nat, inp: Input)
    requires CanRun(s, t, inp) && s.conns[t].pc.AlertSend?
    ensures Step(s, t, inp).table == s.table
  {
  }

  lemma SendingSlot(s: State, t: nat)
    requires TableInv(s) && ServesOpen(s) && t < |s.conns| && s.conns[t].pc.AlertSend?
    ensures var k := s.conns[t].pc.i;
            k < |s.table.slots| <= |s.table.logins| && s.table.logins[k] == s.conns[t].pc.mutex
            && s.table.slots[k].mutex.Some?
  {
    SendTarget(s, t);
    assert Pinned(s.table.slots, s.conns[t].pc);
  }

  lemma SendGoesOn(s: State, t: nat, inp: Input)
    requires t < |s.conns| && s.conns[t].pc.AlertSend?
    ensures UsesOperators(s.conns[t].pc, t) && Frees(s, t).None?
    ensures PendingOf(s.conns[t].pc, |s.table.slots|) == s.conns[t].pc.i
    ensures forall n :: PendingOf(NextPc(s, t, inp), n) == s.conns[t].pc.i + 1
  {
  }

  lemma SendMovesPending(s: State, t: nat, inp: Input)
    requires LockInv(s) && CanRun(s, t, inp) && s.conns[t].pc.AlertSend?
    ensures PendingFrom(s) == s.conns[t].pc.i && PendingFrom(Step(s, t, inp)) == s.conns[t].pc.i + 1
  {
    SendGoesOn(s, t, inp);
    PendingBefore(s, t, inp);
    PendingAfter(s, t, inp);
  }

  lemma SentIsLatest(s: State, t: nat)
    requires MessagesInv(s) && t < |s.conns| && s.conns[t].pc.AlertSend?
    ensures s.table.broadcasts != [] && s.conns[t].pc.msg == s.table.broadcasts[|s.table.broadcasts| - 1]
  {
    assert MessageOk(s.table.broadcasts, s.conns[t].pc);
  }

  lemma SendEffect(s: State, t: nat, inp: Input)
    requires LockInv(s) && TableInv(s) && ServesOpen(s) && MessagesInv(s) && CanRun(s, t, inp) && s.conns[t].pc.AlertSend?
    ensures Sent(s, Step(s, t, inp), s.conns[t].pc.i)
  {
    SendIsOneMore(s, t, inp);
    SendKeepsTable(s, t, inp);
    SendingSlot(s, t);
    SendMovesPending(s, t, inp);
    SentIsLatest(s, t);
  }

  /** Serving slot k extends one segment of its owner by the running broadcast. */
  lemma DueServed(table: Table, k: nat, u: nat, fd: nat)
    requires BoundsOk(table, k) && k < |table.slots| && table.slots[k].mutex.Some? && table.broadcasts != []
    ensures Due(table, k + 1, u, fd) ==
            if u == table.logins[k] && fd > 0 then Due(table, k, u, fd) + [table.broadcasts[|table.broadcasts| - 1]]
            else Due(table, k, u, fd)
  {
    var n := |table.broadcasts|;
    var g, h := SegmentsOf(table, k, u), SegmentsOf(table, k + 1, u);
    assert forall i :: 0 <= i < |table.slots| && i != k ==> UpTo(table, k + 1, i) == UpTo(table, k, i);
    if u == table.logins[k] {
      assert h == g[k := Segment(table.since[k], n)];
      MergeServed(g, k, Segment(table.since[k], n), table.broadcasts);
    } else {
      assert h == g;
    }
  }

  lemma TextDue(a: seq<Conn>, c: seq<Conn>, table: Table, k: nat, u: nat)
    requires ServedInv(a, table, k) && k < |table.slots| && table.slots[k].mutex.Some? && table.broadcasts != []
    requires OneMore(a, c, table.logins[k], table.broadcasts[|table.broadcasts| - 1]) && u < |c|
    ensures Texts(c[u].chunks) == Due(table, k + 1, u, c[u].fd)
  {
    DueServed(table, k, u, c[u].fd);
  }

  lemma ServedGrows(a: seq<Conn>, c: seq<Conn>, table: Table, k: nat)
    requires ServedInv(a, table, k) && k < |table.slots| && table.slots[k].mutex.Some? && table.broadcasts != []
    requires OneMore(a, c, table.logins[k], table.broadcasts[|table.broadcasts| - 1])
    ensures ServedInv(c, table, k + 1)
  {
    BoundsMove(table, k, k + 1);
    forall u: nat | u < |c| ensures Texts(c[u].chunks) == Due(table, k + 1, u, c[u].fd) {
      TextDue(a, c, table, k, u);
    }
  }

  lemma ServedOneMore(s: State, q: State, k: nat)
    requires ServedInv(s.conns, s.table, PendingFrom(s)) && Sent(s, q, k)
    ensures ServedInv(q.conns, q.table, PendingFrom(q))
  {
    ServedGrows(s.conns, q.conns, s.table, k);
  }

  lemma ServedSend(s: State, t: nat, inp: Input)
    requires LockInv(s) && TableInv(s) && ServesOpen(s) && OrderInv(s) && CanRun(s, t, inp)
    requires s.conns[t].pc.AlertSend?
    ensures ServedInv(Step(s, t, inp).conns, Step(s, t, inp).table, PendingFrom(Step(s, t, inp)))
  {
    SendEffect(s, t, inp);
    ServedOneMore(s, Step(s, t, inp), s.conns[t].pc.i);
  }

  lemma LoginTable(s: State, t: nat)
    requires t < |s.conns| && s.conns[t].pc.LoginHold?
    ensures NextTable(s, t) ==
            if |s.table.slots| < MAX_OPERATORS
            then Table(s.table.slots + [Slot(s.conns[t].fd, Some(t))], s.table.logins + [t],
                       s.table.since + [|s.table.broadcasts|], s.table.until + [0], s.table.broadcasts)
            else s.table.(logins := s.table.logins + [t])
  {
  }

  /** A newly registered operator starts an empty segment at the present end of the order. */
  lemma DueJoined(table: Table, q: Table, slot: Slot, t: nat, u: nat, fd: nat)
    requires BoundsOk(table, |table.slots|) && |table.logins| == |table.slots| && slot.mutex.Some?
    requires q == Table(table.slots + [slot], table.logins + [t], table.since + [|table.broadcasts|],
                        table.until + [0], table.broadcasts)
    ensures BoundsOk(q, |q.slots|) && Due(q, |q.slots|, u, fd) == Due(table, |table.slots|, u, fd)
  {
    var n := |table.slots|;
    assert forall i :: 0 <= i < n ==> UpTo(q, n + 1, i) == UpTo(table, n, i) && q.logins[i] == table.logins[i];
    var g, h := SegmentsOf(table, n, u), SegmentsOf(q, n + 1, u);
    assert h == g + [h[n]];
    MergeJoined(g, h[n], table.broadcasts);
  }

  /** A full table only remembers that somebody logged in. */
  lemma DueFull(table: Table, q: Table, t: nat, u: nat, fd: nat)
    requires BoundsOk(table, |table.slots|) && q == table.(logins := table.logins + [t])
    ensures BoundsOk(q, |q.slots|) && Due(q, |q.slots|, u, fd) == Due(table, |table.slots|, u, fd)
  {
    assert forall i :: 0 <= i < |q.slots| ==> UpTo(q, |q.slots|, i) == UpTo(table, |table.slots|, i);
    assert SegmentsOf(q, |q.slots|, u) == SegmentsOf(table, |table.slots|, u);
  }

  lemma DueAfterLogin(conns: seq<Conn>, table: Table, q: Table, fd: nat, t: nat, u: nat, to: nat)
    requires SlotsInv(conns, table) && BoundsOk(table, |table.slots|)
    requires q == if |table.slots| < MAX_OPERATORS
                  then Table(table.slots + [Slot(fd, Some(t))], table.logins + [t],
                             table.since + [|table.broadcasts|], table.until + [0], table.broadcasts)
                  else table.(logins := table.logins + [t])
    ensures BoundsOk(q, |q.slots|) && Due(q, |q.slots|, u, to) == Due(table, |table.slots|, u, to)
  {
    if |table.slots| < MAX_OPERATORS {
      DueJoined(table, q, Slot(fd, Some(t)), t, u, to);
    } else {
      DueFull(table, q, t, u, to);
    }
  }

  lemma ServedJoining(a: seq<Conn>, c: seq<Conn>, table: Table, q: Table, fd: nat, t: nat)
    requires SlotsInv(a, table) && ServedInv(a, table, |table.slots|) && SameTexts(a, c)
    requires q == if |table.slots| < MAX_OPERATORS
                  then Table(table.slots + [Slot(fd, Some(t))], table.logins + [t],
                             table.since + [|table.broadcasts|], table.until + [0], table.broadcasts)
                  else table.(logins := table.logins + [t])
    ensures ServedInv(c, q, |q.slots|)
  {
    DueAfterLogin(a, table, q, fd, t, 0, 0);
    forall u: nat | u < |a| ensures Due(q, |q.slots|, u, a[u].fd) == Due(table, |table.slots|, u, a[u].fd) {
      DueAfterLogin(a, table, q, fd, t, u, a[u].fd);
    }
    ServedKept(a, c, table, q, |table.slots|, |q.slots|);
  }

  lemma LoginPending(s: State, t: nat, inp: Input)
    requires LockInv(s) && CanRun(s, t, inp) && s.conns[t].pc.LoginHold?
    ensures PendingFrom(s) == |s.table.slots| && PendingFrom(Step(s, t, inp)) == |NextTable(s, t).slots|
  {
    PendingBefore(s, t, inp);
    PendingAfter(s, t, inp);
  }

  lemma ServedLogin(s: State, t: nat, inp: Input)
    requires LockInv(s) && OrderInv(s) && CanRun(s, t, inp) && StreamOk(s.conns[t]) && s.conns[t].pc.LoginHold?
    ensures ServedInv(Step(s, t, inp).conns, Step(s, t, inp).table, PendingFrom(Step(s, t, inp)))
  {
    QuietTexts(s, t, inp);
    LoginPending(s, t, inp);
    LoginTable(s, t);
    ServedJoining(s.conns, Step(s, t, inp).conns, s.table, NextTable(s, t), s.conns[t].fd, t);
  }

  /** A removed operator's segment ends at the present end of the order. */
  lemma DueLeft(table: Table, q: Table, c: nat, u: nat, fd: nat)
    requires BoundsOk(table, |table.slots|) && (c < |table.slots| ==> table.slots[c].mutex.Some?)
    requires q == if c < |table.slots|
                  then table.(slots := table.slots[c := CLEARED], until := table.until[c := |table.broadcasts|])
                  else table
    ensures BoundsOk(q, |q.slots|) && Due(q, |q.slots|, u, fd) == Due(table, |table.slots|, u, fd)
  {
    assert forall i :: 0 <= i < |q.slots| ==> UpTo(q, |q.slots|, i) == UpTo(table, |table.slots|, i);
    assert SegmentsOf(q, |q.slots|, u) == SegmentsOf(table, |table.slots|, u);
  }

  lemma RemovalTable(s: State, t: nat)
    requires t < |s.conns| && s.conns[t].pc.RemoveHold? && |s.table.until| == |s.table.slots|
    ensures var c := SlotOf(s.table.slots, s.conns[t].fd);
            NextTable(s, t) == if c < |s.table.slots|
                               then s.table.(slots := s.table.slots[c := CLEARED],
                                             until := s.table.until[c := |s.table.broadcasts|])
                               else s.table
  {
  }

  lemma ServedRemoval(s: State, t: nat, inp: Input)
    requires LockInv(s) && TableInv(s) && ServesOpen(s) && OrderInv(s) && CanRun(s, t, inp)
    requires StreamOk(s.conns[t]) && s.conns[t].pc.RemoveHold?
    ensures ServedInv(Step(s, t, inp).conns, Step(s, t, inp).table, PendingFrom(Step(s, t, inp)))
  {
    QuietTexts(s, t, inp);
    PendingBefore(s, t, inp);
    PendingAfter(s, t, inp);
    FoundIsFilled(s, s.conns[t].fd);
    RemovalTable(s, t);
    var q, c := NextTable(s, t), SlotOf(s.table.slots, s.conns[t].fd);
    DueLeft(s.table, q, c, 0, 0);
    forall u: nat | u < |s.conns|
      ensures Due(q, |q.slots|, u, s.conns[u].fd) == Due(s.table, |s.table.slots|, u, s.conns[u].fd)
    {
      DueLeft(s.table, q, c, u, s.conns[u].fd);
    }
    ServedKept(s.conns, Step(s, t, inp).conns, s.table, q, |s.table.slots|, |q.slots|);
  }

  lemma OrderStep(s: State, t: nat, inp: Input)
    requires LockInv(s) && TableInv(s) && ServesOpen(s) && OrderInv(s) && CanRun(s, t, inp) && StreamOk(s.conns[t])
    requires SlotsInv(Step(s, t, inp).conns, Step(s, t, inp).table)
    ensures OrderInv(Step(s, t, inp))
  {
    MessagesStep(s, t, inp);
    var pc := s.conns[t].pc;
    if !UsesOperators(pc, t) {
      ServedElsewhere(s, t, inp);
    } else if pc.AlertWait? {
      ServedStart(s, t, inp);
    } else if pc.AlertSend? {
      ServedSend(s, t, inp);
    } else if pc.LoginHold? {
      ServedLogin(s, t, inp);
    } else if pc.RemoveHold? {
      ServedRemoval(s, t, inp);
    } else {
      ServedMoves(s, t, inp);
    }
  }

  /** A new connection has no slot yet. */
  lemma NothingDue(conns: seq<Conn>, table: Table, pending: nat, u: nat, fd: nat)
    requires SlotsInv(conns, table) && u >= |conns|
    ensures Due(table, pending, u, fd) == []
  {
    MergeOfEmpty(SegmentsOf(table, pending, u), table.broadcasts);
  }

  lemma ServedAccept(conns: seq<Conn>, table: Table, pending: nat, c: Conn)
    requires SlotsInv(conns, table) && ServedInv(conns, table, pending) && c.chunks == []
    ensures ServedInv(conns + [c], table, pending)
  {
    NothingDue(conns, table, pending, |conns|, c.fd);
  }

  lemma PendingAccept(s: State, fd: nat)
    requires LockInv(s)
    ensures PendingFrom(Accepted(s, fd)) == PendingFrom(s)
  {
    if Operators in s.locks {
      assert Accepted(s, fd).conns[s.locks[Operators]] == s.conns[s.locks[Operators]];
    }
  }

  lemma OrderAccept(s: State, fd: nat)
    requires LockInv(s) && OrderInv(s) && SlotsInv(Accepted(s, fd).conns, Accepted(s, fd).table)
    ensures OrderInv(Accepted(s, fd))
  {
    MessagesAccept(s, fd);
    PendingAccept(s, fd);
    ServedAccept(s.conns, s.table, PendingFrom(s), Conn(fd, LogWait(LogWait(Recv)), "", []));
  }

  /** In every safe run, also while a broadcast is running, each connection was sent exactly what its
      slots stand for. */
  lemma {:induction false} OrderReached(thresholds: seq<A.Threshold>, moves: seq<Move>)
    requires SafeRun(thresholds, moves)
    ensures OrderInv(Reached(thresholds, moves))
  {
    if moves != [] {
      var n := |moves| - 1;
      SafePrefix(thresholds, moves);
      OrderReached(thresholds, moves[..n]);
      LocksReached(thresholds, moves[..n]);
      SafeReached(thresholds, moves[..n]);
      StreamsReached(thresholds, moves[..n]);
      TableReached(thresholds, moves);
      var s := Reached(thresholds, moves[..n]);
      match moves[n]
      case Accept(fd) => OrderAccept(s, fd);
      case Run(t, inp) => OrderStep(s, t, inp);
    }
  }

  // ---------- main results ----------

  /** The first broadcast that slot i has missed by now. */
  function EndOf(s: State, i: nat): int
    requires i < |s.table.slots| == |s.table.until|
  {
    UpTo(s.table, PendingFrom(s), i)
  }

  function Segments(s: State, u: nat): seq<Segment>
    requires |s.table.slots| == |s.table.since| == |s.table.until| <= |s.table.logins|
  {
    SegmentsOf(s.table, PendingFrom(s), u)
  }

  /** The segment of a slot, seen from outside. */
  lemma SegmentBounds(thresholds: seq<A.Threshold>, moves: seq<Move>, s: State, i: nat)
    requires SafeRun(thresholds, moves) && s == Reached(thresholds, moves) && i < |s.table.slots|
    ensures |s.table.slots| == |s.table.since| == |s.table.until| <= |s.table.logins|
    ensures s.table.since[i] <= EndOf(s, i) <= |s.table.broadcasts| && s.table.logins[i] < |s.conns|
    ensures Operators !in s.locks ==>
              EndOf(s, i) == if s.table.slots[i].mutex.Some? then |s.table.broadcasts| else s.table.until[i]
  {
    OrderReached(thresholds, moves);
    TableReached(thresholds, moves);
    if Operators !in s.locks {
      PendingIdle(s);
    }
  }

  /** The slots of connection u that broadcast b concerned: registered before it, not removed before it. */
  function Concerned(s: State, u: nat, b: nat): set<nat>
    requires |s.table.slots| == |s.table.since| == |s.table.until| <= |s.table.logins|
  {
    set i: nat | i < |s.table.slots| && s.table.logins[i] == u && s.table.since[i] <= b < EndOf(s, i)
  }

  lemma CopiesAreConcerned(s: State, u: nat, b: nat)
    requires |s.table.slots| == |s.table.since| == |s.table.until| <= |s.table.logins|
    ensures Copies(Segments(s, u), b) == |Concerned(s, u, b)|
  {
    CopiesIsCount(Segments(s, u), b);
    assert Covering(Segments(s, u), b) == Concerned(s, u, b);
  }

  /** Ordered broadcast: under every interleaving, what a connection was sent lists the broadcasts in
      the one global order, each of them exactly as often as slots of the connection were registered
      before it and not removed before it. */
  lemma DeliveredInOrder(thresholds: seq<A.Threshold>, moves: seq<Move>, s: State, u: nat)
    requires SafeRun(thresholds, moves) && s == Reached(thresholds, moves) && u < |s.conns| && s.conns[u].fd > 0
    ensures |s.table.slots| == |s.table.since| == |s.table.until| <= |s.table.logins|
    ensures var at := Places(Segments(s, u), |s.table.broadcasts|);
            && InOrder(at) && (forall i :: 0 <= i < |at| ==> at[i] < |s.table.broadcasts|)
            && Texts(s.conns[u].chunks) == Packing.Select(s.table.broadcasts, at)
            && forall b: nat :: b < |s.table.broadcasts| ==> Occurrences(at, b) == |Concerned(s, u, b)|
  {
    OrderReached(thresholds, moves);
    var g, n := Segments(s, u), |s.table.broadcasts|;
    PlacesInOrder(g, n);
    MergeIsPlaces(g, s.table.broadcasts);
    forall b: nat | b < n ensures Occurrences(Places(g, n), b) == |Concerned(s, u, b)| {
      PlacesCount(g, n, b);
      CopiesAreConcerned(s, u, b);
    }
  }

  /** The slot's owner has no other slot that a broadcast was due to. */
  ghost predicate OnlySegment(s: State, i: nat)
    requires |s.table.slots| == |s.table.since| == |s.table.until| <= |s.table.logins| && i < |s.table.slots|
  {
    forall j :: 0 <= j < |s.table.slots| && j != i && s.table.logins[j] == s.table.logins[i] ==>
      s.table.since[j] == EndOf(s, j)
  }

  /** Slot i's owner was sent exactly the broadcasts from its registration to its removal, or now, once
      each, if and only if either its descriptor is positive and its other slots stand for nothing, or
      its descriptor is 0 and there was no such broadcast. */
  lemma SentSegmentIff(thresholds: seq<A.Threshold>, moves: seq<Move>, s: State, i: nat)
    requires SafeRun(thresholds, moves) && s == Reached(thresholds, moves) && i < |s.table.slots|
    ensures |s.table.slots| == |s.table.since| == |s.table.until| <= |s.table.logins|
    ensures s.table.logins[i] < |s.conns| && s.table.since[i] <= EndOf(s, i) <= |s.table.broadcasts|
    ensures var c := s.conns[s.table.logins[i]];
            Texts(c.chunks) == s.table.broadcasts[s.table.since[i]..EndOf(s, i)]
            <==> if c.fd > 0 then OnlySegment(s, i) else s.table.since[i] == EndOf(s, i)
  {
    OrderReached(thresholds, moves);
    SegmentBounds(thresholds, moves, s, i);
    var o := s.table.logins[i];
    SegmentsWithin(s.table, PendingFrom(s), o);
    if s.conns[o].fd > 0 {
      MergeIsSegmentIff(Segments(s, o), i, s.table.broadcasts);
      OthersEmptyIff(s, i);
    }
  }

  lemma OthersEmptyIff(s: State, i: nat)
    requires |s.table.slots| == |s.table.since| == |s.table.until| <= |s.table.logins| && i < |s.table.slots|
    ensures var g := Segments(s, s.table.logins[i]);
            OnlySegment(s, i) <==> forall j :: 0 <= j < |g| && j != i ==> g[j].from == g[j].end
  {
    var g := Segments(s, s.table.logins[i]);
    if OnlySegment(s, i) {
      forall j | 0 <= j < |g| && j != i ensures g[j].from == g[j].end {
      }
    } else {
      var j :| 0 <= j < |s.table.slots| && j != i && s.table.logins[j] == s.table.logins[i]
               && s.table.since[j] != EndOf(s, j);
      assert g[j].from != g[j].end;
    }
  }

  /** With one login per connection, between broadcasts: the operator was sent every broadcast between
      its registration and now, or its removal, each once and in the one global order, if and only if
      its descriptor is not 0 or there was none. */
  lemma OrderedBroadcast(thresholds: seq<A.Threshold>, moves: seq<Move>, s: State, i: nat)
    requires LogsInOnce(thresholds, moves) && s == Reached(thresholds, moves)
    requires i < |s.table.slots| <= |s.table.logins| && Operators !in s.locks
    ensures var o := s.table.logins[i];
            && o < |s.conns| && |s.table.since| == |s.table.until| == |s.table.slots|
            && var end := if s.table.slots[i].mutex.Some? then |s.table.broadcasts| else s.table.until[i];
               && s.table.since[i] <= end <= |s.table.broadcasts|
               && (Texts(s.conns[o].chunks) == s.table.broadcasts[s.table.since[i]..end]
                   <==> s.conns[o].fd > 0 || s.table.since[i] == end)
               && (s.conns[o].fd == 0 ==> Texts(s.conns[o].chunks) == [])
  {
    OnceIsSafe(thresholds, moves);
    OrderReached(thresholds, moves);
    SegmentBounds(thresholds, moves, s, i);
    SentSegmentIff(thresholds, moves, s, i);
    forall j | 0 <= j < |s.table.slots| && j != i ensures s.table.logins[j] != s.table.logins[i] {
      assert Once(s.table);
    }
  }

  /** A connection without a slot is sent no alert. */
  lemma NoSlotNoAlert(thresholds: seq<A.Threshold>, moves: seq<Move>, s: State, t: nat)
    requires SafeRun(thresholds, moves) && s == Reached(thresholds, moves)
    requires t < |s.conns| && |s.table.slots| <= |s.table.logins|
    requires forall i :: 0 <= i < |s.table.slots| ==> s.table.logins[i] != t
    ensures Texts(s.conns[t].chunks) == []
  {
    OrderReached(thresholds, moves);
    MergeOfEmpty(Segments(s, t), s.table.broadcasts);
  }

  lemma SegmentItem(b: seq<string>, from: nat, end: nat, k: nat)
    requires from <= end <= |b| && k < end - from
    ensures b[from..end][k] == b[from + k]
  {
  }

  /** With one login per connection, every alert line that an operator was sent, also while a broadcast
      is running, is at its place in the global order: two operators never disagree. */
  lemma AlertsFollowOrder(thresholds: seq<A.Threshold>, moves: seq<Move>, s: State, i: nat, k: nat)
    requires LogsInOnce(thresholds, moves) && s == Reached(thresholds, moves)
    requires i < |s.table.slots| <= |s.table.logins| && s.table.logins[i] < |s.conns|
    requires k < |Texts(s.conns[s.table.logins[i]].chunks)|
    ensures i < |s.table.since| && s.table.since[i] + k < |s.table.broadcasts|
    ensures Texts(s.conns[s.table.logins[i]].chunks)[k] == s.table.broadcasts[s.table.since[i] + k]
  {
    OnceIsSafe(thresholds, moves);
    OrderReached(thresholds, moves);
    SentSegmentIff(thresholds, moves, s, i);
    forall j | 0 <= j < |s.table.slots| && j != i ensures s.table.logins[j] != s.table.logins[i] {
      assert Once(s.table);
    }
    SegmentItem(s.table.broadcasts, s.table.since[i], EndOf(s, i), k);
  }
}
