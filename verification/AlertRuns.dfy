/** Whole runs of the alert engine: blocks, conservation, and the bounded array as a window of the history. */
module AlertRuns {
  import opened AlertEngine
  import opened Packing

  // ---------- one block ----------

  /** Positions of the firing thresholds, in registration order. */
  function FiringAt(ts: seq<Threshold>, ty: string, value: real): seq<nat> {
    if ts == [] then [] else
      var before := FiringAt(ts[..|ts| - 1], ty, value);
      if Fires(ts[|ts| - 1], ty, value) then before + [|ts| - 1] else before
  }

  lemma {:induction false} FiringIsFilter(ts: seq<Threshold>, ty: string, value: real)
    ensures var at := FiringAt(ts, ty, value);
            && Increasing(at)
            && (forall k :: 0 <= k < |at| ==> at[k] < |ts| && Fires(ts[at[k]], ty, value))
            && forall i: nat :: i < |ts| && Fires(ts[i], ty, value) ==> i in at
  {
    if ts != [] {
      var n := |ts| - 1;
      FiringIsFilter(ts[..n], ty, value);
      var before, at := FiringAt(ts[..n], ty, value), FiringAt(ts, ty, value);
      assert before <= at;
      forall i: nat | i < |ts| && Fires(ts[i], ty, value) ensures i in at {
        if i < n {
          assert ts[..n][i] == ts[i];
          assert i in before;
        } else {
          assert at[|before|] == n;
        }
      }
    }
  }

  lemma {:induction false} BlockFollowsFiring(ts: seq<Threshold>, id: string, ty: string, value: real)
    ensures var at := FiringAt(ts, ty, value);
            && |Block(ts, id, ty, value)| == |at|
            && forall k :: 0 <= k < |at| ==> at[k] < |ts| && Block(ts, id, ty, value)[k] == AlarmOf(ts[at[k]], id, ty, value)
  {
    if ts != [] {
      BlockFollowsFiring(ts[..|ts| - 1], id, ty, value);
    }
  }

  /** A block holds one alarm for each rule that the reading breaks, in registration order: nothing
      missing, nothing twice, each reporting its own rule. */
  lemma BlockIsFilter(ts: seq<Threshold>, id: string, ty: string, value: real)
    ensures var at := FiringAt(ts, ty, value);
            && Increasing(at)
            && |Block(ts, id, ty, value)| == |at|
            && (forall k :: 0 <= k < |at| ==> at[k] < |ts| && Breaks(ts[at[k]], ty, value)
                                              && Reports(Block(ts, id, ty, value)[k], ts[at[k]], id, ty, value))
            && forall i: nat :: i < |ts| && Breaks(ts[i], ty, value) ==> i in at
  {
    FiringIsFilter(ts, ty, value);
    BlockFollowsFiring(ts, id, ty, value);
    var at := FiringAt(ts, ty, value);
    forall i: nat | i < |ts| ensures Fires(ts[i], ty, value) <==> Breaks(ts[i], ty, value) {
      FiresIff(ts[i], ty, value);
    }
    forall k | 0 <= k < |at| ensures Reports(Block(ts, id, ty, value)[k], ts[at[k]], id, ty, value) {
      AlarmReports(ts[at[k]], id, ty, value);
    }
  }

  /** The rules that a reading breaks. */
  function Broken(ts: seq<Threshold>, ty: string, value: real): set<nat> {
    set i: nat | i < |ts| && Breaks(ts[i], ty, value)
  }

  lemma BrokenStep(ts: seq<Threshold>, ty: string, value: real)
    requires ts != []
    ensures var n := |ts| - 1;
            |Broken(ts, ty, value)| == |Broken(ts[..n], ty, value)| + if Breaks(ts[n], ty, value) then 1 else 0
  {
    var n := |ts| - 1;
    assert Broken(ts, ty, value) == Broken(ts[..n], ty, value) + if Breaks(ts[n], ty, value) then {n} else {};
  }

  /** A check returns the number of rules that the reading breaks. */
  lemma {:induction false} BlockCount(ts: seq<Threshold>, id: string, ty: string, value: real)
    ensures |Block(ts, id, ty, value)| == |Broken(ts, ty, value)|
  {
    if ts != [] {
      var n := |ts| - 1;
      BlockCount(ts[..n], id, ty, value);
      FiresIff(ts[n], ty, value);
      BrokenStep(ts, ty, value);
    }
  }

  /** A check reports at least one alert exactly when the reading breaks some rule. */
  lemma AnyBreaksIff(ts: seq<Threshold>, id: string, ty: string, value: real)
    ensures |Block(ts, id, ty, value)| > 0 <==> exists i: nat :: i < |ts| && Breaks(ts[i], ty, value)
  {
    BlockIsFilter(ts, id, ty, value);
    var at := FiringAt(ts, ty, value);
    if |at| > 0 {
      assert Breaks(ts[at[0]], ty, value);
    }
  }

  /** Only the first 15 characters of the type matter. */
  lemma {:induction false} BlockTypePrefix(ts: seq<Threshold>, ty: string, other: string, value: real)
    requires SameType(ty, other)
    ensures FiringAt(ts, ty, value) == FiringAt(ts, other, value)
  {
    if ts != [] {
      BlockTypePrefix(ts[..|ts| - 1], ty, other, value);
    }
  }

  // ---------- runs of checks and resolves ----------

  datatype Op =
    | Check(id: string, ty: string, value: real, clock: int -> int)
    | Resolve(id: string)

  function After(h: seq<Alert>, ts: seq<Threshold>, op: Op): seq<Alert> {
    match op
    case Check(id, ty, value, clock) => h + Stamped(Block(ts, id, ty, value), clock)
    case Resolve(id) => Resolved(h, id)
  }

  /** Every alert of the run. */
  function History(ts: seq<Threshold>, ops: seq<Op>): seq<Alert> {
    if ops == [] then [] else After(History(ts, ops[..|ops| - 1]), ts, ops[|ops| - 1])
  }

  lemma HistoryAppend(ts: seq<Threshold>, ops: seq<Op>, op: Op)
    ensures History(ts, ops + [op]) == After(History(ts, ops), ts, op)
  {
    assert (ops + [op])[..|ops|] == ops;
  }

  /** The number a check returns; a resolve adds nothing. */
  function Returned(ts: seq<Threshold>, op: Op): nat {
    match op
    case Check(id, ty, value, clock) => |Block(ts, id, ty, value)|
    case Resolve(id) => 0
  }

  function TotalReturned(ts: seq<Threshold>, ops: seq<Op>): nat {
    if ops == [] then 0 else TotalReturned(ts, ops[..|ops| - 1]) + Returned(ts, ops[|ops| - 1])
  }

  lemma {:induction false} HistoryLength(ts: seq<Threshold>, ops: seq<Op>)
    ensures |History(ts, ops)| == TotalReturned(ts, ops)
  {
    if ops != [] {
      HistoryLength(ts, ops[..|ops| - 1]);
    }
  }

  /** An alert keeps its content for ever, and a mark is never taken back. */
  lemma {:induction false} HistoryOnlyGrows(ts: seq<Threshold>, ops: seq<Op>, n: nat)
    requires n <= |ops|
    ensures var h, g := History(ts, ops[..n]), History(ts, ops);
            |h| <= |g| && forall i :: 0 <= i < |h| ==>
              g[i].alarm == h[i].alarm && g[i].stamp == h[i].stamp && (h[i].resolved ==> g[i].resolved)
  {
    if n < |ops| {
      HistoryOnlyGrows(ts, ops[..|ops| - 1], n);
      assert ops[..|ops| - 1][..n] == ops[..n];
    } else {
      assert ops[..n] == ops;
    }
  }

  // ---------- the bounded array ----------

  function PushAll(w: seq<Alert>, items: seq<Alert>): seq<Alert> {
    if items == [] then w else Push(PushAll(w, items[..|items| - 1]), items[|items| - 1])
  }

  /** What the array does: evictions happen alert by alert, also in the middle of a check. */
  function Shown(ts: seq<Threshold>, ops: seq<Op>): seq<Alert> {
    if ops == [] then [] else
      var w := Shown(ts, ops[..|ops| - 1]);
      match ops[|ops| - 1]
      case Check(id, ty, value, clock) => PushAll(w, Stamped(Block(ts, id, ty, value), clock))
      case Resolve(id) => Resolved(w, id)
  }

  lemma PushAllStep(w: seq<Alert>, items: seq<Alert>, a: Alert)
    ensures PushAll(w, items + [a]) == Push(PushAll(w, items), a)
  {
    assert (items + [a])[..|items|] == items;
  }

  lemma LongerByOne(h: seq<Alert>, items: seq<Alert>, a: Alert)
    ensures h + (items + [a]) == (h + items) + [a]
  {
  }

  lemma {:induction false} PushAllIsWindow(h: seq<Alert>, items: seq<Alert>)
    ensures PushAll(Window(h), items) == Window(h + items)
  {
    if items == [] {
      assert h + items == h;
    } else {
      var front, a := items[..|items| - 1], items[|items| - 1];
      assert items == front + [a];
      PushAllIsWindow(h, front);
      PushAllStep(Window(h), front, a);
      WindowAppend(h + front, a);
      LongerByOne(h, front, a);
    }
  }

  /** After any run the array shows exactly the last min(|H|, 100) entries of the full history. */
  lemma {:induction false} ShownIsWindow(ts: seq<Threshold>, ops: seq<Op>)
    ensures Shown(ts, ops) == Window(History(ts, ops))
  {
    if ops != [] {
      var n := |ops| - 1;
      ShownIsWindow(ts, ops[..n]);
      var h := History(ts, ops[..n]);
      match ops[n]
      case Check(id, ty, value, clock) => PushAllIsWindow(h, Stamped(Block(ts, id, ty, value), clock));
      case Resolve(id) => WindowResolved(h, id);
    }
  }

  /** Conservation: over any run the returned counts add up to the alerts that are visible and those that
      were evicted, and nothing is evicted before 100 alerts are visible. */
  lemma Conservation(ts: seq<Threshold>, ops: seq<Op>)
    ensures var total := TotalReturned(ts, ops);
            && |Shown(ts, ops)| == (if total <= 100 then total else 100)
            && |History(ts, ops)| == total
            && Shown(ts, ops) == History(ts, ops)[total - |Shown(ts, ops)|..]
  {
    HistoryLength(ts, ops);
    ShownIsWindow(ts, ops);
  }
}
