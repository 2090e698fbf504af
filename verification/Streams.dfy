/** What each client reads: the framing of responses and alerts on one connection. */
module Streams {
  import opened Handlers
  import opened LockOrder
  import opened OperatorTable
  import opened SafeRuns
  import A = AlertEngine

  // ---------- one stream ----------

  /** The bytes of a sequence of chunks. */
  function Flatten(chunks: seq<Chunk>): string
    requires Fits(chunks)
  {
    if chunks == [] then [] else
      var c := chunks[|chunks| - 1];
      Flatten(chunks[..|chunks| - 1]) + c.text[..c.sent]
  }

  predicate Fits(chunks: seq<Chunk>) {
    forall k :: 0 <= k < |chunks| ==> chunks[k].sent <= |chunks[k].text|
  }

  predicate Whole(c: Chunk) {
    c.Response? ==> c.sent == |c.text|
  }

  predicate AllWhole(chunks: seq<Chunk>) {
    forall k :: 0 <= k < |chunks| ==> Whole(chunks[k])
  }

  /** After an incomplete response only alert lines follow. */
  predicate Framed(chunks: seq<Chunk>) {
    forall k :: 0 <= k < |chunks| && !Whole(chunks[k]) ==> forall j :: k < j < |chunks| ==> chunks[j].AlertLine?
  }

  /** The handler is on its way out. */
  predicate Ending(pc: Pc) {
    match pc
    case LogWait(k) => Leaves(k) || (k.LogWait? && Leaves(k.next))
    case LogHold(k) => Leaves(k) || (k.LogWait? && Leaves(k.next))
    case _ => Leaves(pc)
  }

  predicate Leaves(pc: Pc) {
    pc.SendFailed? || pc.RemoveWait? || pc.RemoveHold? || pc.Closing? || pc.Destroying? || pc.Done?
  }

  /** Every byte on the wire is accounted for. */
  ghost predicate BytesOk(c: Conn) {
    Fits(c.chunks) && c.wire == Flatten(c.chunks)
  }

  /** The shape of the output, given where the handler stands. */
  ghost predicate ShapeOk(pc: Pc, chunks: seq<Chunk>) {
    match pc
    case Sending(r, k) =>
      k <= |r| && chunks != [] && chunks[|chunks| - 1] == Response(r, k) && AllWhole(chunks[..|chunks| - 1])
    case _ => if Ending(pc) then Framed(chunks) else AllWhole(chunks)
  }

  /** The state of a connection's output. */
  ghost predicate StreamOk(c: Conn) {
    BytesOk(c) && ShapeOk(c.pc, c.chunks)
  }

  ghost predicate StreamsInv(conns: seq<Conn>) {
    forall t :: 0 <= t < |conns| ==> StreamOk(conns[t])
  }

  lemma FlattenAppend(chunks: seq<Chunk>, c: Chunk)
    requires Fits(chunks) && c.sent <= |c.text|
    ensures Fits(chunks + [c]) && Flatten(chunks + [c]) == Flatten(chunks) + c.text[..c.sent]
  {
    assert (chunks + [c])[..|chunks|] == chunks;
  }

  lemma StreamStarts(c: Conn, r: string)
    requires StreamOk(c) && !c.pc.Sending? && !Ending(c.pc)
    ensures StreamOk(c.(pc := Sending(r, 0), chunks := c.chunks + [Response(r, 0)]))
  {
    FlattenAppend(c.chunks, Response(r, 0));
    assert (c.chunks + [Response(r, 0)])[..|c.chunks|] == c.chunks;
    assert c.wire + r[..0] == c.wire;
  }

  lemma SliceGrows(before: string, r: string, k: nat, n: nat)
    requires k + n <= |r|
    ensures before + r[..k + n] == before + r[..k] + r[k..k + n]
  {
    assert r[..k] + r[k..k + n] == r[..k + n];
  }

  lemma LastGrows(front: seq<Chunk>, r: string, k: nat, n: nat)
    requires Fits(front) && k + n <= |r|
    ensures Fits(front + [Response(r, k)]) && Fits(front + [Response(r, k + n)])
    ensures Flatten(front + [Response(r, k + n)]) == Flatten(front + [Response(r, k)]) + r[k..k + n]
  {
    FlattenAppend(front, Response(r, k));
    FlattenAppend(front, Response(r, k + n));
    SliceGrows(Flatten(front), r, k, n);
  }

  lemma PartBytes(c: Conn, r: string, k: nat, n: nat)
    requires StreamOk(c) && c.pc == Sending(r, k) && k + n <= |r|
    ensures BytesOk(WithResponsePart(c, r, k, n))
  {
    var front := c.chunks[..|c.chunks| - 1];
    assert c.chunks == front + [Response(r, k)];
    assert WithResponsePart(c, r, k, n).chunks == front + [Response(r, k + n)];
    LastGrows(front, r, k, n);
  }

  lemma PartShape(c: Conn, r: string, k: nat, n: nat)
    requires StreamOk(c) && c.pc == Sending(r, k) && k + n <= |r|
    ensures ShapeOk(Sending(r, k + n), WithResponsePart(c, r, k, n).chunks)
    ensures Framed(WithResponsePart(c, r, k, n).chunks)
  {
    var front := c.chunks[..|c.chunks| - 1];
    var d := WithResponsePart(c, r, k, n);
    assert d.chunks == front + [Response(r, k + n)];
    assert d.chunks[..|front|] == front;
    assert forall j :: 0 <= j < |front| ==> d.chunks[j] == front[j];
  }

  lemma AlertBytes(c: Conn, msg: string, n: nat)
    requires BytesOk(c) && n <= |msg|
    ensures BytesOk(WithAlert(c, msg, n))
  {
    FlattenAppend(c.chunks, AlertLine(msg, n));
  }

  lemma AlertShape(pc: Pc, chunks: seq<Chunk>, msg: string, n: nat)
    requires ShapeOk(pc, chunks) && !pc.Sending?
    ensures ShapeOk(pc, chunks + [AlertLine(msg, n)])
  {
    var d := chunks + [AlertLine(msg, n)];
    assert forall j :: 0 <= j < |chunks| ==> d[j] == chunks[j];
  }

  /** A whole response leaves only whole chunks behind. */
  lemma StreamCompletes(c: Conn, r: string)
    requires StreamOk(c) && c.pc == Sending(r, |r|)
    ensures AllWhole(c.chunks)
  {
    var front := c.chunks[..|c.chunks| - 1];
    assert forall j :: 0 <= j < |front| ==> c.chunks[j] == front[j];
  }

  // ---------- steps ----------

  lemma QuietFlow(s: State, t: nat, inp: Input)
    requires CanRun(s, t, inp) && PcOk(s.conns[t].pc)
    requires !s.conns[t].pc.RespondWait? && !s.conns[t].pc.Sending?
    ensures !NextPc(s, t, inp).Sending?
    ensures Ending(s.conns[t].pc) ==> Ending(NextPc(s, t, inp))
  {
  }

  lemma QuietConn(s: State, t: nat, inp: Input)
    requires CanRun(s, t, inp)
    requires !s.conns[t].pc.RespondWait? && !s.conns[t].pc.Sending? && !s.conns[t].pc.AlertSend?
    ensures Step(s, t, inp).conns[t] == s.conns[t].(pc := NextPc(s, t, inp))
  {
  }

  lemma QuietStream(c: Conn, next: Pc)
    requires StreamOk(c) && !c.pc.Sending? && !next.Sending?
    requires Ending(c.pc) ==> Ending(next)
    ensures StreamOk(c.(pc := next))
  {
    if !Ending(c.pc) {
      WholeIsFramed(c.chunks);
    }
  }

  lemma SendingConnIs(s: State, t: nat, inp: Input)
    requires CanRun(s, t, inp) && s.conns[t].pc.Sending?
    ensures var c := s.conns[t]; var Sending(r, k) := c.pc;
            Step(s, t, inp).conns[t] ==
            if k >= |r| then c.(pc := LogWait(Recv))
            else WithResponsePart(c, r, k, Clamp(inp.sent)).(
                   pc := if inp.sent > 0 then Sending(r, k + inp.sent) else LogWait(SendFailed))
  {
  }

  lemma PartStream(c: Conn, r: string, k: nat, n: nat, next: Pc)
    requires StreamOk(c) && c.pc == Sending(r, k) && k + n <= |r|
    requires next == Sending(r, k + n) || next == LogWait(SendFailed)
    ensures StreamOk(WithResponsePart(c, r, k, n).(pc := next))
  {
    PartBytes(c, r, k, n);
    PartShape(c, r, k, n);
    assert BytesOk(WithResponsePart(c, r, k, n).(pc := next));
  }

  lemma WholeStream(c: Conn, r: string, k: nat)
    requires StreamOk(c) && c.pc == Sending(r, k) && k >= |r|
    ensures StreamOk(c.(pc := LogWait(Recv)))
  {
    StreamCompletes(c, r);
    assert BytesOk(c.(pc := LogWait(Recv)));
  }

  lemma SendingConn(s: State, t: nat, inp: Input)
    requires CanRun(s, t, inp) && s.conns[t].pc.Sending? && StreamOk(s.conns[t])
    ensures StreamOk(Step(s, t, inp).conns[t])
  {
    var c := s.conns[t];
    var Sending(r, k) := c.pc;
    SendingConnIs(s, t, inp);
    if k >= |r| {
      WholeStream(c, r, k);
    } else {
      PartStream(c, r, k, Clamp(inp.sent), if inp.sent > 0 then Sending(r, k + inp.sent) else LogWait(SendFailed));
    }
  }

  /** How a handler's own stream looks after a step that sends no alert. */
  lemma OwnStream(s: State, t: nat, inp: Input)
    requires CanRun(s, t, inp) && PcOk(s.conns[t].pc) && StreamOk(s.conns[t]) && !s.conns[t].pc.AlertSend?
    ensures StreamOk(Step(s, t, inp).conns[t])
  {
    var c := s.conns[t];
    if c.pc.RespondWait? {
      StreamStarts(c, inp.response);
    } else if c.pc.Sending? {
      SendingConn(s, t, inp);
    } else {
      QuietFlow(s, t, inp);
      QuietConn(s, t, inp);
      QuietStream(c, NextPc(s, t, inp));
    }
  }

  lemma WholeIsFramed(chunks: seq<Chunk>)
    requires AllWhole(chunks)
    ensures Framed(chunks)
  {
  }

  /** A handler that sends a response owns its write mutex, so no broadcast is sending to it. */
  lemma NotWhileSending(s: State, t: nat)
    requires LockInv(s) && TableInv(s) && ServesOpen(s) && t < |s.conns| && s.conns[t].pc.AlertSend?
    ensures s.conns[t].pc.mutex < |s.conns| && !s.conns[s.conns[t].pc.mutex].pc.Sending?
  {
    SendTarget(s, t);
    var m := s.conns[t].pc.mutex;
    if s.conns[m].pc.Sending? {
      OneOwner(s, t, m, Write(m));
    }
  }

  /** The connections after an alert was sent to m. */
  lemma AlertedConns(s: State, t: nat, inp: Input, u: nat)
    requires TableInv(s) && ServesOpen(s) && CanRun(s, t, inp) && s.conns[t].pc.AlertSend? && u < |s.conns|
    ensures var AlertSend(msg, i, m) := s.conns[t].pc;
            var c := if u == m then WithAlert(s.conns[u], msg, Clamp(inp.sent)) else s.conns[u];
            Step(s, t, inp).conns[u] == if u == t then c.(pc := AlertUnlock(msg, i, m)) else c
  {
    SendTarget(s, t);
  }

  lemma AlertedOk(c: Conn, msg: string, n: nat)
    requires StreamOk(c) && !c.pc.Sending? && n <= |msg|
    ensures StreamOk(WithAlert(c, msg, n))
  {
    AlertBytes(c, msg, n);
    AlertShape(c.pc, c.chunks, msg, n);
  }

  lemma AlertStreamAt(s: State, t: nat, inp: Input, u: nat)
    requires LockInv(s) && TableInv(s) && ServesOpen(s) && CanRun(s, t, inp) && s.conns[t].pc.AlertSend?
    requires u < |s.conns| && StreamOk(s.conns[u])
    ensures StreamOk(Step(s, t, inp).conns[u])
  {
    NotWhileSending(s, t);
    var AlertSend(msg, i, m) := s.conns[t].pc;
    AlertedConns(s, t, inp, u);
    if u == m {
      AlertedOk(s.conns[u], msg, Clamp(inp.sent));
    }
    if u == t {
      QuietStream(if u == m then WithAlert(s.conns[u], msg, Clamp(inp.sent)) else s.conns[u], AlertUnlock(msg, i, m));
    }
  }

  lemma AlertStream(s: State, t: nat, inp: Input)
    requires LockInv(s) && TableInv(s) && ServesOpen(s) && StreamsInv(s.conns)
    requires CanRun(s, t, inp) && s.conns[t].pc.AlertSend?
    ensures StreamsInv(Step(s, t, inp).conns)
  {
    StepFrame(s, t, inp);
    forall u: nat | u < |s.conns| ensures StreamOk(Step(s, t, inp).conns[u]) {
      AlertStreamAt(s, t, inp, u);
    }
  }

  lemma StreamsStep(s: State, t: nat, inp: Input)
    requires LockInv(s) && TableInv(s) && ServesOpen(s) && StreamsInv(s.conns) && CanRun(s, t, inp)
    ensures StreamsInv(Step(s, t, inp).conns)
  {
    if s.conns[t].pc.AlertSend? {
      AlertStream(s, t, inp);
    } else {
      var q := Step(s, t, inp);
      OwnStream(s, t, inp);
      OthersQuiet(s, t, inp);
      forall u | 0 <= u < |q.conns| ensures StreamOk(q.conns[u]) {
        if u != t {
          assert q.conns[u] == s.conns[u];
        }
      }
    }
  }

  lemma OthersQuiet(s: State, t: nat, inp: Input)
    requires CanRun(s, t, inp) && !s.conns[t].pc.AlertSend?
    ensures |Step(s, t, inp).conns| == |s.conns|
    ensures forall u :: 0 <= u < |s.conns| && u != t ==> Step(s, t, inp).conns[u] == s.conns[u]
  {
  }

  lemma {:induction false} StreamsReached(thresholds: seq<A.Threshold>, moves: seq<Move>)
    requires SafeRun(thresholds, moves)
    ensures StreamsInv(Reached(thresholds, moves).conns)
  {
    if moves != [] {
      var n := |moves| - 1;
      SafePrefix(thresholds, moves);
      StreamsReached(thresholds, moves[..n]);
      LocksReached(thresholds, moves[..n]);
      SafeReached(thresholds, moves[..n]);
      var s := Reached(thresholds, moves[..n]);
      match moves[n]
      case Accept(fd) =>
        var q := Accepted(s, fd);
        forall u | 0 <= u < |q.conns| ensures StreamOk(q.conns[u]) {
          if u < |s.conns| {
            assert q.conns[u] == s.conns[u];
          }
        }
      case Run(t, inp) => StreamsStep(s, t, inp);
    }
  }

  lemma LastUnfinished(chunks: seq<Chunk>)
    requires chunks != [] && AllWhole(chunks[..|chunks| - 1])
    ensures Framed(chunks)
  {
    assert forall j :: 0 <= j < |chunks| - 1 ==> chunks[j] == chunks[..|chunks| - 1][j];
  }

  lemma OkIsFramed(c: Conn)
    requires StreamOk(c)
    ensures Framed(c.chunks) && (c.pc.Recv? ==> AllWhole(c.chunks))
  {
    if c.pc.Sending? {
      LastUnfinished(c.chunks);
    } else if !Ending(c.pc) {
      WholeIsFramed(c.chunks);
    }
  }

  /** Stream framing: under every interleaving with arbitrary partial sends, the bytes a connection
      received are its chunks one after the other, each a response or a prefix of one alert line; no
      alert byte falls inside a response, and after an incomplete response only alert lines follow. */
  lemma StreamFraming(thresholds: seq<A.Threshold>, moves: seq<Move>, t: nat)
    requires SafeRun(thresholds, moves) && t < |Reached(thresholds, moves).conns|
    ensures var c := Reached(thresholds, moves).conns[t];
            && Fits(c.chunks) && c.wire == Flatten(c.chunks) && Framed(c.chunks)
            && (c.pc.Recv? ==> AllWhole(c.chunks))
            && (c.pc.Sending? ==> c.chunks != [] && c.chunks[|c.chunks| - 1] == Response(c.pc.response, c.pc.sent))
  {
    StreamsReached(thresholds, moves);
    assert StreamOk(Reached(thresholds, moves).conns[t]);
    OkIsFramed(Reached(thresholds, moves).conns[t]);
  }
}
