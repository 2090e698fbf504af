/** Segments of one global order, and what a receiver of several segments is sent. */
module Deliveries {
  import Packing

  /** A part of the order: the positions from `from` up to `end`. */
  datatype Segment = Segment(from: nat, end: int)

  predicate Covers(g: Segment, b: nat) {
    g.from <= b < g.end
  }

  /** How many of the segments contain position b. */
  function Copies(segs: seq<Segment>, b: nat): nat {
    if segs == [] then 0 else
      Copies(segs[..|segs| - 1], b) + if Covers(segs[|segs| - 1], b) then 1 else 0
  }

  function Covering(segs: seq<Segment>, b: nat): set<nat> {
    set i: nat | i < |segs| && Covers(segs[i], b)
  }

  lemma {:induction false} CopiesIsCount(segs: seq<Segment>, b: nat)
    ensures Copies(segs, b) == |Covering(segs, b)|
  {
    if segs != [] {
      var n := |segs| - 1;
      CopiesIsCount(segs[..n], b);
      assert Covering(segs, b) == Covering(segs[..n], b) + if Covers(segs[n], b) then {n} else {};
    }
  }

  function Repeat<T>(x: T, n: nat): (r: seq<T>)
    ensures |r| == n && forall i :: 0 <= i < n ==> r[i] == x
  {
    if n == 0 then [] else Repeat(x, n - 1) + [x]
  }

  /** The order, each message as often as segments contain its position. */
  function Merge(segs: seq<Segment>, order: seq<string>): seq<string> {
    if order == [] then [] else
      var n := |order| - 1;
      Merge(segs, order[..n]) + Repeat(order[n], Copies(segs, n))
  }

  ghost predicate Within(segs: seq<Segment>, n: nat) {
    forall i :: 0 <= i < |segs| ==> segs[i].from <= segs[i].end <= n
  }

  // ---------- how a merge changes ----------

  lemma {:induction false} MergeSame(a: seq<Segment>, b: seq<Segment>, order: seq<string>)
    requires forall k: nat :: k < |order| ==> Copies(a, k) == Copies(b, k)
    ensures Merge(a, order) == Merge(b, order)
  {
    if order != [] {
      MergeSame(a, b, order[..|order| - 1]);
    }
  }

  lemma {:induction false} NoCopies(segs: seq<Segment>, b: nat)
    requires forall i :: 0 <= i < |segs| ==> !Covers(segs[i], b)
    ensures Copies(segs, b) == 0
  {
    if segs != [] {
      NoCopies(segs[..|segs| - 1], b);
    }
  }

  /** A new message that no segment contains yet changes nothing. */
  lemma MergeNew(segs: seq<Segment>, order: seq<string>, msg: string)
    requires Within(segs, |order|)
    ensures Merge(segs, order + [msg]) == Merge(segs, order)
  {
    assert (order + [msg])[..|order|] == order;
    NoCopies(segs, |order|);
  }

  /** A new empty segment changes nothing. */
  lemma MergeJoined(segs: seq<Segment>, g: Segment, order: seq<string>)
    requires g.from >= g.end || g.from >= |order|
    ensures Merge(segs + [g], order) == Merge(segs, order)
  {
    forall k: nat | k < |order| ensures Copies(segs + [g], k) == Copies(segs, k) {
      assert (segs + [g])[..|segs|] == segs;
    }
    MergeSame(segs + [g], segs, order);
  }

  lemma {:induction false} CopiesUpdated(segs: seq<Segment>, k: nat, g: Segment, b: nat)
    requires k < |segs|
    ensures Copies(segs[k := g], b) ==
            Copies(segs, b) - (if Covers(segs[k], b) then 1 else 0) + (if Covers(g, b) then 1 else 0)
  {
    var n := |segs| - 1;
    if k < n {
      assert segs[k := g][..n] == segs[..n][k := g];
      CopiesUpdated(segs[..n], k, g, b);
    } else {
      assert segs[k := g][..n] == segs[..n];
    }
  }

  /** Extending a segment by the last message appends one copy of it. */
  lemma MergeServed(segs: seq<Segment>, k: nat, g: Segment, order: seq<string>)
    requires k < |segs| && order != [] && segs[k].end == |order| - 1 && segs[k].from <= |order| - 1
    requires g == Segment(segs[k].from, |order|)
    ensures Merge(segs[k := g], order) == Merge(segs, order) + [order[|order| - 1]]
  {
    var n := |order| - 1;
    forall b: nat | b < n ensures Copies(segs[k := g], b) == Copies(segs, b) {
      CopiesUpdated(segs, k, g, b);
    }
    MergeSame(segs[k := g], segs, order[..n]);
    CopiesUpdated(segs, k, g, n);
    assert Repeat(order[n], Copies(segs, n) + 1) == Repeat(order[n], Copies(segs, n)) + [order[n]];
  }

  // ---------- what a merge is ----------

  /** The positions that a merge shows. */
  function Places(segs: seq<Segment>, n: nat): seq<nat> {
    if n == 0 then [] else Places(segs, n - 1) + Repeat<nat>(n - 1, Copies(segs, n - 1))
  }

  ghost predicate InOrder(at: seq<nat>) {
    forall i, j :: 0 <= i < j < |at| ==> at[i] <= at[j]
  }

  function Occurrences(at: seq<nat>, b: nat): nat {
    if at == [] then 0 else Occurrences(at[..|at| - 1], b) + if at[|at| - 1] == b then 1 else 0
  }

  lemma {:induction false} OccurrencesGrow(at: seq<nat>, x: nat, n: nat, b: nat)
    ensures Occurrences(at + Repeat(x, n), b) == Occurrences(at, b) + if b == x then n else 0
  {
    if n == 0 {
      assert at + Repeat(x, n) == at;
    } else {
      OccurrencesGrow(at, x, n - 1, b);
      var more := at + Repeat(x, n);
      assert more[..|more| - 1] == at + Repeat(x, n - 1);
    }
  }

  ghost predicate AllBelow(at: seq<nat>, n: nat) {
    forall i :: 0 <= i < |at| ==> at[i] < n
  }

  lemma InOrderGrows(at: seq<nat>, n: nat, more: seq<nat>)
    requires InOrder(at) && AllBelow(at, n) && forall i :: 0 <= i < |more| ==> more[i] == n
    ensures InOrder(at + more) && AllBelow(at + more, n + 1)
  {
  }

  lemma {:induction false} PlacesInOrder(segs: seq<Segment>, n: nat)
    ensures InOrder(Places(segs, n)) && AllBelow(Places(segs, n), n)
  {
    if n > 0 {
      PlacesInOrder(segs, n - 1);
      InOrderGrows(Places(segs, n - 1), n - 1, Repeat<nat>(n - 1, Copies(segs, n - 1)));
    }
  }

  /** Position b is shown exactly as often as segments contain it. */
  lemma {:induction false} PlacesCount(segs: seq<Segment>, n: nat, b: nat)
    ensures Occurrences(Places(segs, n), b) == if b < n then Copies(segs, b) else 0
  {
    if n > 0 {
      PlacesCount(segs, n - 1, b);
      OccurrencesGrow(Places(segs, n - 1), n - 1, Copies(segs, n - 1), b);
    }
  }

  lemma SelectBlock(order: seq<string>, n: nat, at: seq<nat>, m: nat)
    requires n < |order| && AllBelow(at, n)
    ensures AllBelow(at + Repeat<nat>(n, m), n + 1)
    ensures Packing.Select(order[..n + 1], at + Repeat<nat>(n, m))
         == Packing.Select(order[..n], at) + Repeat(order[n], m)
  {
    var more := at + Repeat<nat>(n, m);
    forall i | 0 <= i < |more| ensures more[i] < n + 1 {
    }
  }

  lemma {:induction false} MergeIsPlaces(segs: seq<Segment>, order: seq<string>)
    ensures AllBelow(Places(segs, |order|), |order|)
    ensures Merge(segs, order) == Packing.Select(order, Places(segs, |order|))
  {
    PlacesInOrder(segs, |order|);
    if order != [] {
      var n := |order| - 1;
      MergeIsPlaces(segs, order[..n]);
      SelectBlock(order, n, Places(segs, n), Copies(segs, n));
      assert order[..n + 1] == order;
    }
  }

  // ---------- when a merge is one segment ----------

  function Total(segs: seq<Segment>): int {
    if segs == [] then 0 else Total(segs[..|segs| - 1]) + segs[|segs| - 1].end - segs[|segs| - 1].from
  }

  /** How much of a segment lies below n. */
  function Below(g: Segment, n: nat): nat {
    if g.end <= g.from || n <= g.from then 0 else if g.end <= n then g.end - g.from else n - g.from
  }

  lemma {:induction false} MergeOfNone(order: seq<string>)
    ensures Merge([], order) == []
  {
    if order != [] {
      MergeOfNone(order[..|order| - 1]);
    }
  }

  lemma {:induction false} MergeOneMoreSegment(segs: seq<Segment>, g: Segment, order: seq<string>)
    ensures |Merge(segs + [g], order)| == |Merge(segs, order)| + Below(g, |order|)
  {
    if order != [] {
      MergeOneMoreSegment(segs, g, order[..|order| - 1]);
      assert (segs + [g])[..|segs|] == segs;
    }
  }

  /** A merge is as long as its segments together. */
  lemma {:induction false} MergeLength(segs: seq<Segment>, order: seq<string>)
    requires Within(segs, |order|)
    ensures |Merge(segs, order)| == Total(segs)
  {
    if segs == [] {
      MergeOfNone(order);
    } else {
      var n := |segs| - 1;
      MergeLength(segs[..n], order);
      MergeOneMoreSegment(segs[..n], segs[n], order);
      assert segs[..n] + [segs[n]] == segs;
    }
  }

  lemma {:induction false} TotalAtLeast(segs: seq<Segment>, i: nat, n: nat)
    requires i < |segs| && Within(segs, n)
    ensures Total(segs) >= segs[i].end - segs[i].from
    ensures Total(segs[..|segs| - 1]) >= 0
  {
    var m := |segs| - 1;
    if m > 0 {
      TotalAtLeast(segs[..m], if i < m then i else 0, n);
    }
  }

  lemma {:induction false} TotalOfTwo(segs: seq<Segment>, i: nat, j: nat, n: nat)
    requires i < j < |segs| && Within(segs, n)
    ensures Total(segs) >= (segs[i].end - segs[i].from) + (segs[j].end - segs[j].from)
  {
    var m := |segs| - 1;
    if j < m {
      TotalOfTwo(segs[..m], i, j, n);
    } else {
      TotalAtLeast(segs[..m], i, n);
    }
  }

  lemma {:induction false} CopiesOfOne(segs: seq<Segment>, i: nat, b: nat)
    requires i < |segs| && forall j :: 0 <= j < |segs| && j != i ==> segs[j].from == segs[j].end
    ensures Copies(segs, b) == if Covers(segs[i], b) then 1 else 0
  {
    var m := |segs| - 1;
    if i < m {
      CopiesOfOne(segs[..m], i, b);
    } else {
      NoCopies(segs[..m], b);
    }
  }

  function Upto(k: int, n: nat): nat {
    if k < 0 then 0 else if k < n then k else n
  }

  /** The part of the order that lies in a segment. */
  function Clip(order: seq<string>, g: Segment): seq<string>
    requires g.from <= g.end
  {
    order[Upto(g.from, |order|)..Upto(g.end, |order|)]
  }

  lemma ClipStep(order: seq<string>, msg: string, g: Segment)
    requires g.from <= g.end
    ensures Clip(order + [msg], g) == if Covers(g, |order|) then Clip(order, g) + [msg] else Clip(order, g)
  {
    var n, more := |order|, order + [msg];
    var low := Upto(g.from, n);
    if Covers(g, n) {
      assert more[low..n + 1] == order[low..n] + [msg];
    } else if g.from <= n {
      assert more[low..Upto(g.end, n)] == order[low..Upto(g.end, n)];
    }
  }

  lemma {:induction false} MergeOfOne(segs: seq<Segment>, g: Segment, order: seq<string>)
    requires g.from <= g.end
    requires forall b: nat :: b < |order| ==> Copies(segs, b) == if Covers(g, b) then 1 else 0
    ensures Merge(segs, order) == Clip(order, g)
  {
    if order != [] {
      var n := |order| - 1;
      MergeOfOne(segs, g, order[..n]);
      ClipStep(order[..n], order[n], g);
      assert order[..n] + [order[n]] == order;
      assert Repeat(order[n], 0) == [] && Repeat(order[n], 1) == [order[n]];
    }
  }

  /** A receiver is sent exactly one of its segments if and only if all its other segments are empty. */
  lemma MergeIsSegmentIff(segs: seq<Segment>, i: nat, order: seq<string>)
    requires i < |segs| && Within(segs, |order|)
    ensures Merge(segs, order) == order[segs[i].from..segs[i].end]
       <==> forall j :: 0 <= j < |segs| && j != i ==> segs[j].from == segs[j].end
  {
    MergeLength(segs, order);
    if Merge(segs, order) == order[segs[i].from..segs[i].end] {
      forall j | 0 <= j < |segs| && j != i ensures segs[j].from == segs[j].end {
        if i < j {
          TotalOfTwo(segs, i, j, |order|);
        } else {
          TotalOfTwo(segs, j, i, |order|);
        }
      }
    }
    if forall j :: 0 <= j < |segs| && j != i ==> segs[j].from == segs[j].end {
      forall b: nat | b < |order| ensures Copies(segs, b) == if Covers(segs[i], b) then 1 else 0 {
        CopiesOfOne(segs, i, b);
      }
      MergeOfOne(segs, segs[i], order);
    }
  }

  /** Nothing is sent for empty segments. */
  lemma MergeOfEmpty(segs: seq<Segment>, order: seq<string>)
    requires forall i :: 0 <= i < |segs| ==> segs[i].from == segs[i].end
    ensures Merge(segs, order) == []
  {
    forall b: nat | b < |order| ensures Copies(segs, b) == Copies([], b) {
      NoCopies(segs, b);
    }
    MergeSame(segs, [], order);
    MergeOfNone(order);
  }
}
