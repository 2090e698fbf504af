/** Greedy packing of rendered entries into a bounded C buffer (strlen + strlen < size, then strcat). */
module Packing {

  function Concat(items: seq<string>): string {
    if items == [] then [] else Concat(items[..|items| - 1]) + items[|items| - 1]
  }

  /** The buffer after offering every entry in turn. */
  function Pack(items: seq<string>, size: nat): string {
    if items == [] then [] else
      var out := Pack(items[..|items| - 1], size);
      var e := items[|items| - 1];
      if |out| + |e| < size then out + e else out
  }

  /** Positions of the entries that were appended. */
  function Kept(items: seq<string>, size: nat): seq<nat> {
    if items == [] then [] else
      var n := |items| - 1;
      var kept := Kept(items[..n], size);
      if |Pack(items[..n], size)| + |items[n]| < size then kept + [n] else kept
  }

  function Select(items: seq<string>, at: seq<nat>): seq<string>
    requires forall k :: 0 <= k < |at| ==> at[k] < |items|
  {
    seq(|at|, k requires 0 <= k < |at| => items[at[k]])
  }

  lemma PackStep(items: seq<string>, e: string, size: nat)
    ensures Pack(items + [e], size) ==
            (var out := Pack(items, size); if |out| + |e| < size then out + e else out)
  {
    assert (items + [e])[..|items|] == items;
  }

  lemma ConcatStep(items: seq<string>, e: string)
    ensures Concat(items + [e]) == Concat(items) + e
  {
    assert (items + [e])[..|items|] == items;
  }

  ghost predicate Increasing(at: seq<nat>) {
    forall i, j :: 0 <= i < j < |at| ==> at[i] < at[j]
  }

  lemma {:induction false} PackGrows(items: seq<string>, size: nat, n: nat)
    requires n <= |items|
    ensures |Pack(items[..n], size)| <= |Pack(items, size)|
  {
    if n < |items| {
      PackGrows(items[..|items| - 1], size, n);
      assert items[..|items| - 1][..n] == items[..n];
    } else {
      assert items[..n] == items;
    }
  }

  lemma SelectPrefix(items: seq<string>, n: nat, at: seq<nat>)
    requires n <= |items| && forall k :: 0 <= k < |at| ==> at[k] < n
    ensures Select(items[..n], at) == Select(items, at)
  {
  }

  lemma SelectAppend(items: seq<string>, at: seq<nat>, n: nat)
    requires n < |items| && forall k :: 0 <= k < |at| ==> at[k] < n
    ensures forall k :: 0 <= k < |at + [n]| ==> (at + [n])[k] < |items|
    ensures Select(items, at + [n]) == Select(items, at) + [items[n]]
  {
  }

  lemma IncreasingAppend(at: seq<nat>, n: nat)
    requires Increasing(at) && forall k :: 0 <= k < |at| ==> at[k] < n
    ensures Increasing(at + [n])
  {
  }

  /** The result is the concatenation of an order-preserving selection and stays below the bound. */
  lemma {:induction false} PackIsSubsequence(items: seq<string>, size: nat)
    requires size > 0
    ensures |Pack(items, size)| < size
    ensures Increasing(Kept(items, size))
    ensures forall k :: 0 <= k < |Kept(items, size)| ==> Kept(items, size)[k] < |items|
    ensures Pack(items, size) == Concat(Select(items, Kept(items, size)))
  {
    if items != [] {
      var n := |items| - 1;
      PackIsSubsequence(items[..n], size);
      var before := Kept(items[..n], size);
      SelectPrefix(items, n, before);
      if |Pack(items[..n], size)| + |items[n]| < size {
        IncreasingAppend(before, n);
        SelectAppend(items, before, n);
        ConcatStep(Select(items, before), items[n]);
      }
    }
  }

  /** An entry that was left out would not fit after the final buffer either. */
  lemma {:induction false} PackIsMaximal(items: seq<string>, size: nat, i: nat)
    requires i < |items| && i !in Kept(items, size)
    ensures |Pack(items, size)| + |items[i]| >= size
  {
    var n := |items| - 1;
    if i < n {
      PackIsMaximal(items[..n], size, i);
      PackGrows(items, size, n);
    }
  }

  lemma {:induction false} SomeOmitted(items: seq<string>, size: nat) returns (i: nat)
    requires size > 0 && |Kept(items, size)| < |items|
    ensures i < |items| && i !in Kept(items, size)
  {
    var n := |items| - 1;
    PackIsSubsequence(items[..n], size);
    if Kept(items, size) == Kept(items[..n], size) {
      i := n;
    } else {
      i := SomeOmitted(items[..n], size);
    }
  }

  lemma {:induction false} PackIsClean(items: seq<string>, size: nat, c: char)
    requires forall i :: 0 <= i < |items| ==> c !in items[i]
    ensures c !in Pack(items, size)
  {
    if items != [] {
      PackIsClean(items[..|items| - 1], size, c);
    }
  }

  /** The packed list is everything, or almost fills the buffer. */
  lemma PackWholeOrFull(items: seq<string>, size: nat, width: nat)
    requires size > 0 && forall i :: 0 <= i < |items| ==> |items[i]| <= width
    ensures |Concat(items)| < size ==> Pack(items, size) == Concat(items)
    ensures |Concat(items)| >= size ==> |Pack(items, size)| + width >= size
  {
    PackKeepsAllIff(items, size);
    if |Concat(items)| >= size {
      var i := SomeOmitted(items, size);
      PackIsMaximal(items, size, i);
    }
  }

  /** Nothing is left out exactly when everything fits. */
  lemma {:induction false} PackKeepsAllIff(items: seq<string>, size: nat)
    requires size > 0
    ensures |Kept(items, size)| <= |items|
    ensures |Kept(items, size)| == |items| <==> |Concat(items)| < size
    ensures |Concat(items)| < size ==> Pack(items, size) == Concat(items)
  {
    if items != [] {
      PackKeepsAllIff(items[..|items| - 1], size);
    }
  }
}
