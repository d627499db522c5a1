/** Small generic helpers shared by the model: an optional value, flattening a
    sequence of blocks (what an explode does to rows), decimal rendering of
    integers (what a cast to text does) and Python's string repetition. */
module Basics {

  /** A value that may be absent: Python's None, a JSON null. */
  datatype Option<+T> = None | Some(value: T)

  /* ---------------------------------------------------------------------
     Flattening blocks of rows
     --------------------------------------------------------------------- */

  /** The blocks concatenated in order. */
  function Flatten<T>(blocks: seq<seq<T>>): seq<T>
    decreases |blocks|
  {
    if |blocks| == 0 then [] else blocks[0] + Flatten(blocks[1..])
  }

  /** Sum of the block lengths. */
  function TotalLength<T>(blocks: seq<seq<T>>): nat
    decreases |blocks|
  {
    if |blocks| == 0 then 0 else |blocks[0]| + TotalLength(blocks[1..])
  }

  /** Where block `i` starts in `Flatten(blocks)`. */
  function Offset<T>(blocks: seq<seq<T>>, i: nat): nat
    requires i <= |blocks|
  {
    |Flatten(blocks[..i])|
  }

  lemma {:induction false} FlattenLength<T>(blocks: seq<seq<T>>)
    ensures |Flatten(blocks)| == TotalLength(blocks)
    decreases |blocks|
  {
    if |blocks| > 0 {
      FlattenLength(blocks[1..]);
    }
  }

  lemma {:induction false} FlattenAppend<T>(a: seq<seq<T>>, b: seq<seq<T>>)
    ensures Flatten(a + b) == Flatten(a) + Flatten(b)
    decreases |a|
  {
    if |a| == 0 {
      assert a + b == b;
    } else {
      assert (a + b)[1..] == a[1..] + b;
      FlattenAppend(a[1..], b);
    }
  }

  /** Element `k` of block `i` sits at `Offset(blocks, i) + k` of the flattening. */
  lemma FlattenAt<T>(blocks: seq<seq<T>>, i: nat, k: nat)
    requires i < |blocks| && k < |blocks[i]|
    ensures Offset(blocks, i) + k < |Flatten(blocks)|
    ensures Flatten(blocks)[Offset(blocks, i) + k] == blocks[i][k]
  {
    assert blocks == blocks[..i] + ([blocks[i]] + blocks[i + 1..]);
    FlattenAppend(blocks[..i], [blocks[i]] + blocks[i + 1..]);
    FlattenAppend([blocks[i]], blocks[i + 1..]);
    assert Flatten([blocks[i]]) == blocks[i] by {
      assert [blocks[i]][1..] == [];
    }
  }

  /** Two levels of flattening: element `k` of inner block `j` of outer
      block `i` sits at the sum of the two offsets plus `k`. */
  lemma FlattenAt2<T>(outer: seq<seq<T>>, inner: seq<seq<T>>, i: nat, j: nat, k: nat)
    requires i < |outer| && outer[i] == Flatten(inner) && j < |inner| && k < |inner[j]|
    ensures Offset(outer, i) + Offset(inner, j) + k < |Flatten(outer)|
    ensures Flatten(outer)[Offset(outer, i) + Offset(inner, j) + k] == inner[j][k]
  {
    FlattenAt(inner, j, k);
    FlattenAt(outer, i, Offset(inner, j) + k);
  }

  function Sum(ns: seq<nat>): nat
    decreases |ns|
  {
    if |ns| == 0 then 0 else ns[0] + Sum(ns[1..])
  }

  /** Blocks of the given sizes flatten to their total. */
  lemma {:induction false} TotalLengthSum<T>(blocks: seq<seq<T>>, sizes: seq<nat>)
    requires |blocks| == |sizes|
    requires forall i :: 0 <= i < |sizes| ==> |blocks[i]| == sizes[i]
    ensures TotalLength(blocks) == Sum(sizes)
    decreases |sizes|
  {
    if |sizes| > 0 {
      TotalLengthSum(blocks[1..], sizes[1..]);
    }
  }

  /** Block `i` starts after the blocks before it: at the sum of their sizes. */
  lemma OffsetSum<T>(blocks: seq<seq<T>>, i: nat, sizes: seq<nat>)
    requires i <= |blocks| && |sizes| == i
    requires forall j :: 0 <= j < i ==> |blocks[j]| == sizes[j]
    ensures Offset(blocks, i) == Sum(sizes)
  {
    FlattenLength(blocks[..i]);
    TotalLengthSum(blocks[..i], sizes);
  }

  /* ---------------------------------------------------------------------
     Decimal text of integers
     --------------------------------------------------------------------- */

  function DigitChar(d: nat): char
    requires d < 10
  {
    "0123456789"[d]
  }

  predicate IsDigit(c: char) {
    '0' <= c <= '9'
  }

  /** Decimal digits of `n`, most significant first, without leading zeros. */
  function NatText(n: nat): (s: string)
    ensures |s| > 0
    ensures forall k :: 0 <= k < |s| ==> IsDigit(s[k])
    decreases n
  {
    if n < 10 then [DigitChar(n)] else NatText(n / 10) + [DigitChar(n % 10)]
  }

  /** The text Python's `str` and a cast to a string column give an integer. */
  function IntText(i: int): string {
    if i < 0 then "-" + NatText(-i) else NatText(i)
  }

  /** Reads a non-empty run of decimal digits. */
  function ReadNat(s: string): (r: Option<nat>)
    decreases |s|
  {
    if |s| == 0 || !IsDigit(s[|s| - 1]) then None
    else if |s| == 1 then Some((s[0] - '0') as nat)
    else match ReadNat(s[..|s| - 1])
      case None => None
      case Some(n) => Some(10 * n + (s[|s| - 1] - '0') as nat)
  }

  lemma {:induction false} ReadNatText(n: nat)
    ensures ReadNat(NatText(n)) == Some(n)
    decreases n
  {
    if n >= 10 {
      var s := NatText(n);
      assert s[..|s| - 1] == NatText(n / 10);
      ReadNatText(n / 10);
    }
  }

  /* ---------------------------------------------------------------------
     Python string repetition
     --------------------------------------------------------------------- */

  /** `s * k` in Python: empty when `k` is zero or negative. */
  function Repeat(s: string, k: int): (r: string)
    ensures |r| == if k <= 0 then 0 else k * |s|
    decreases if k <= 0 then 0 else k
  {
    if k <= 0 then "" else s + Repeat(s, k - 1)
  }

  /** Number of occurrences of `c` in `s`. */
  function Occurrences(s: string, c: char): nat
    decreases |s|
  {
    if |s| == 0 then 0 else (if s[0] == c then 1 else 0) + Occurrences(s[1..], c)
  }

  lemma {:induction false} OccurrencesAppend(a: string, b: string, c: char)
    ensures Occurrences(a + b, c) == Occurrences(a, c) + Occurrences(b, c)
    decreases |a|
  {
    if |a| > 0 {
      assert (a + b)[1..] == a[1..] + b;
      OccurrencesAppend(a[1..], b, c);
    } else {
      assert a + b == b;
    }
  }
}
