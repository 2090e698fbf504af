/** Fixed-width C character fields: what strncpy stores in them and what a C reader sees. */
module CStrings {

  const NUL: char := '\0'

  /** A C string value holds no terminator inside. */
  predicate NulFree(s: string) {
    NUL !in s
  }

  /** The C string that starts at the first cell of `b`. */
  function CStr(b: seq<char>): string {
    if b == [] || b[0] == NUL then [] else [b[0]] + CStr(b[1..])
  }

  /** The first `n` characters of `s`, or all of them. */
  function Take(s: string, n: nat): string {
    if |s| <= n then s else s[..n]
  }

  function Nuls(n: nat): (r: seq<char>)
    ensures |r| == n && forall i :: 0 <= i < n ==> r[i] == NUL
  {
    seq(n, _ => NUL)
  }

  /** strncpy(dst, src, n): copy at most n characters, pad with NULs up to n, leave the rest. */
  function Strncpy(dst: seq<char>, src: string, n: nat): (r: seq<char>)
    requires n <= |dst|
    ensures |r| == |dst| && r[n..] == dst[n..]
  {
    var s := Take(src, n);
    s + Nuls(n - |s|) + dst[n..]
  }

  /** snprintf into a buffer of `size` cells keeps at most size - 1 characters. */
  function Snprintf(size: nat, text: string): (r: string)
    requires size > 0
    ensures |r| < size && r <= text
    ensures r == text <==> |text| < size
  {
    Take(text, size - 1)
  }

  /** A character field of width `w` whose last cell is the terminator. */
  predicate Field(b: seq<char>, w: nat) {
    0 < w == |b| && b[w - 1] == NUL
  }

  lemma {:induction false} CStrStopsAtNul(s: string, b: seq<char>)
    requires NulFree(s) && s <= b
    requires |s| < |b| ==> b[|s|] == NUL
    ensures CStr(b) == s
  {
    if s != [] {
      assert b[0] == s[0] != NUL;
      forall i | 0 <= i < |s[1..]| ensures b[1..][i] == s[1..][i] && s[1..][i] != NUL {
        assert s[1..][i] == s[i + 1] && s[i + 1] in s;
      }
      CStrStopsAtNul(s[1..], b[1..]);
    }
  }

  lemma NulFreeAppend(a: string, b: string)
    requires NulFree(a) && NulFree(b)
    ensures NulFree(a + b)
  {
  }

  lemma NulFreePrefix(a: string, b: string)
    requires a <= b && NulFree(b)
    ensures NulFree(a)
  {
    assert forall c :: c in a ==> c in b;
  }

  lemma {:induction false} CStrIsNulFree(b: seq<char>)
    ensures NulFree(CStr(b)) && CStr(b) <= b
    ensures |CStr(b)| < |b| ==> b[|CStr(b)|] == NUL
  {
    if b != [] && b[0] != NUL {
      CStrIsNulFree(b[1..]);
      assert forall i :: 0 <= i < |b[1..]| ==> b[1..][i] == b[i + 1];
    }
  }

  /** Writing over an old field leaves no residue: the reader sees exactly the truncation of the
      last string written, and the final terminator survives. */
  lemma StrncpyField(dst: seq<char>, src: string, w: nat)
    requires Field(dst, w) && NulFree(src)
    ensures Field(Strncpy(dst, src, w - 1), w)
    ensures CStr(Strncpy(dst, src, w - 1)) == Take(src, w - 1)
  {
    var s := Take(src, w - 1);
    var r := Strncpy(dst, src, w - 1);
    assert r[w - 1] == r[w - 1..][0] == dst[w - 1..][0];
    assert s <= r;
    CStrStopsAtNul(s, r);
  }

  /** alert_engine.c writes the terminator itself, so the old last cell does not matter. */
  lemma StrncpyTerminated(dst: seq<char>, src: string, w: nat)
    requires 0 < w == |dst| && NulFree(src)
    ensures Field(Strncpy(dst, src, w - 1)[w - 1 := NUL], w)
    ensures CStr(Strncpy(dst, src, w - 1)[w - 1 := NUL]) == Take(src, w - 1)
  {
    var s := Take(src, w - 1);
    var r := Strncpy(dst, src, w - 1)[w - 1 := NUL];
    assert s <= r;
    CStrStopsAtNul(s, r);
  }
}
