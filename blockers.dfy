/**
 * Blocker configurations of a relevant-occupancy mask.
 *
 * The set squares of the mask are listed in increasing order; configuration
 * number i places bit j of i on the j-th listed square. Enumerating i from 0
 * to 2^n - 1 (n the number of listed squares) yields every subset of the
 * mask exactly once.
 */
module Blockers {
  import opened Types

  /** `a` holds no square that `b` lacks. */
  predicate SubsetOf(a: Bitboard, b: Bitboard)
  {
    a & b == a
  }

  lemma SubsetHas(a: Bitboard, b: Bitboard, t: Square)
    requires SubsetOf(a, b) && Has(a, t)
    ensures Has(b, t)
  {
    HasAnd(a, b, t);
  }

  lemma SubsetFromHas(a: Bitboard, b: Bitboard)
    requires forall t: Square :: Has(a, t) ==> Has(b, t)
    ensures SubsetOf(a, b)
  {
    forall t: Square
      ensures Has(a & b, t) == Has(a, t)
    {
      HasAnd(a, b, t);
    }
    BitboardExt(a & b, a);
  }

  predicate Increasing(s: seq<Square>)
  {
    forall i, j :: 0 <= i < j < |s| ==> s[i] < s[j]
  }

  function Pow2(n: nat): (r: nat)
    ensures r >= 1
  {
    if n == 0 then 1 else 2 * Pow2(n - 1)
  }

  // ---------------------------------------------------------------------------
  // The listed squares

  /** One step of the upward scan over the squares. */
  lemma SquaresFromStep(b: Bitboard, k: Square, acc: seq<Square>)
    ensures (if b & SquareToBitboard(k) != 0 then acc + [k] else acc) + SquaresFrom(b, k + 1)
         == acc + SquaresFrom(b, k)
  {
    AndSquare(b, k);
    if Has(b, k) {
      assert SquaresFrom(b, k) == [k] + SquaresFrom(b, k + 1);
      assert (acc + [k]) + SquaresFrom(b, k + 1) == acc + ([k] + SquaresFrom(b, k + 1));
    }
  }

  /** Scans the squares upward and lists those the mask holds. */
  method BitIndices(mask: Bitboard) returns (indices: seq<Square>)
    ensures indices == SetSquares(mask)
  {
    indices := [];
    var sq: bv8 := 0;
    while sq < 64
      invariant sq <= 64
      invariant indices + SquaresFrom(mask, sq) == SetSquares(mask)
      decreases 64 - sq
    {
      SquaresFromStep(mask, sq, indices);
      indices := if mask & SquareToBitboard(sq) != 0 then indices + [sq] else indices;
      sq := sq + 1;
    }
    assert indices + [] == indices;
  }

  // ---------------------------------------------------------------------------
  // Configurations

  /** Bit j of the configuration counter i, the bit `i & (1 << j)` tests. */
  function Bit(i: nat, j: nat): bool
  {
    if j == 0 then i % 2 == 1 else Bit(i / 2, j - 1)
  }

  /** The listed squares indices[k], k < j, whose bit k is set in `i`. */
  function Selected(i: nat, indices: seq<Square>, j: int): seq<Square>
    requires 0 <= j <= |indices|
  {
    if j == 0 then []
    else if Bit(i, j - 1) then Selected(i, indices, j - 1) + [indices[j - 1]]
    else Selected(i, indices, j - 1)
  }

  /** Configuration number `i` of the listed squares: bit k of `i` selects
      square indices[k]. */
  function Configuration(i: nat, indices: seq<Square>): Bitboard
  {
    FromSquares(Selected(i, indices, |indices|))
  }

  lemma {:induction false} SelectedIn(i: nat, indices: seq<Square>, j: int, t: Square)
    requires 0 <= j <= |indices|
    ensures t in Selected(i, indices, j) <==> exists k :: 0 <= k < j && indices[k] == t && Bit(i, k)
  {
    if j > 0 {
      SelectedIn(i, indices, j - 1, t);
    }
  }

  lemma SelectedStep(i: nat, indices: seq<Square>, j: int)
    requires 0 <= j < |indices|
    ensures Selected(i, indices, j + 1)
         == if Bit(i, j) then Selected(i, indices, j) + [indices[j]] else Selected(i, indices, j)
  {
  }

  /** A configuration holds exactly the listed squares whose bit is set. */
  lemma ConfigurationHas(i: nat, indices: seq<Square>, t: Square)
    ensures Has(Configuration(i, indices), t)
        <==> exists k :: 0 <= k < |indices| && indices[k] == t && Bit(i, k)
  {
    FromSquaresHas(Selected(i, indices, |indices|), t);
    SelectedIn(i, indices, |indices|, t);
  }

  /** A configuration only uses listed squares. */
  lemma ConfigurationOnList(i: nat, indices: seq<Square>, t: Square)
    ensures Has(Configuration(i, indices), t) ==> t in indices
  {
    ConfigurationHas(i, indices, t);
  }

  /** A configuration holds the k-th listed square exactly when bit k of its
      number is set. */
  lemma ConfigurationAt(i: nat, indices: seq<Square>, k: int)
    requires Increasing(indices) && 0 <= k < |indices|
    ensures Has(Configuration(i, indices), indices[k]) <==> Bit(i, k)
  {
    ConfigurationHas(i, indices, indices[k]);
  }

  /** Configuration 0 is the empty board. */
  lemma {:induction false} BitZero(j: nat)
    ensures !Bit(0, j)
  {
    if j > 0 {
      BitZero(j - 1);
    }
  }

  lemma {:induction false} SelectedZero(indices: seq<Square>, j: int)
    requires 0 <= j <= |indices|
    ensures Selected(0, indices, j) == []
  {
    if j > 0 {
      SelectedZero(indices, j - 1);
      BitZero(j - 1);
    }
  }

  lemma ConfigurationZero(indices: seq<Square>)
    ensures Configuration(0, indices) == 0
  {
    SelectedZero(indices, |indices|);
  }

  // ---------------------------------------------------------------------------
  // The enumeration is a bijection onto the subsets

  /** The number of board `b` among the configurations: bit k records
      whether `b` holds indices[k]. */
  function Code(b: Bitboard, indices: seq<Square>): nat
  {
    if |indices| == 0 then 0
    else (if Has(b, indices[0]) then 1 else 0) + 2 * Code(b, indices[1..])
  }

  lemma CodeHalf(b: Bitboard, indices: seq<Square>)
    requires |indices| > 0
    ensures Code(b, indices) / 2 == Code(b, indices[1..])
  {
  }

  lemma CodeOdd(b: Bitboard, indices: seq<Square>)
    requires |indices| > 0
    ensures Code(b, indices) % 2 == 1 <==> Has(b, indices[0])
  {
  }

  lemma {:induction false} CodeBit(b: Bitboard, indices: seq<Square>, k: int)
    requires 0 <= k < |indices|
    ensures Bit(Code(b, indices), k) == Has(b, indices[k])
  {
    if k == 0 {
      CodeOdd(b, indices);
    } else {
      CodeBit(b, indices[1..], k - 1);
      CodeHalf(b, indices);
      assert indices[1..][k - 1] == indices[k];
    }
  }

  lemma {:induction false} CodeBound(b: Bitboard, indices: seq<Square>)
    ensures Code(b, indices) < Pow2(|indices|)
  {
    if |indices| > 0 {
      CodeBound(b, indices[1..]);
    }
  }

  /** Two numbers below 2^n that differ, differ in a bit below n. */
  lemma {:induction false} DifferingBit(n: nat, i1: nat, i2: nat) returns (j: nat)
    requires i1 < Pow2(n) && i2 < Pow2(n) && i1 != i2
    ensures j < n && Bit(i1, j) != Bit(i2, j)
  {
    if n == 0 {
      assert false;
    } else if i1 % 2 != i2 % 2 {
      j := 0;
    } else {
      var j' := DifferingBit(n - 1, i1 / 2, i2 / 2);
      j := j' + 1;
    }
  }

  /** Distinct numbers below 2^n give distinct configurations. */
  lemma ConfigurationsDistinct(indices: seq<Square>, i1: nat, i2: nat)
    requires Increasing(indices)
    requires i1 < Pow2(|indices|) && i2 < Pow2(|indices|) && i1 != i2
    ensures Configuration(i1, indices) != Configuration(i2, indices)
  {
    var j := DifferingBit(|indices|, i1, i2);
    ConfigurationAt(i1, indices, j);
    ConfigurationAt(i2, indices, j);
  }

  /** The position of a listed square. */
  lemma IndexOf(indices: seq<Square>, t: Square) returns (k: int)
    requires t in indices
    ensures 0 <= k < |indices| && indices[k] == t
  {
    k :| 0 <= k < |indices| && indices[k] == t;
  }

  lemma CodeAgrees(b: Bitboard, indices: seq<Square>, t: Square)
    requires Increasing(indices)
    requires forall u: Square :: Has(b, u) ==> u in indices
    ensures Has(Configuration(Code(b, indices), indices), t) == Has(b, t)
  {
    if t in indices {
      var k := IndexOf(indices, t);
      ConfigurationAt(Code(b, indices), indices, k);
      CodeBit(b, indices, k);
    } else {
      ConfigurationOnList(Code(b, indices), indices, t);
    }
  }

  /** Every board on the listed squares is a configuration: the one numbered
      by `Code`. */
  lemma ConfigurationsCover(b: Bitboard, indices: seq<Square>)
    requires Increasing(indices)
    requires forall u: Square :: Has(b, u) ==> u in indices
    ensures Code(b, indices) < Pow2(|indices|)
    ensures Configuration(Code(b, indices), indices) == b
  {
    CodeBound(b, indices);
    forall t: Square
      ensures Has(Configuration(Code(b, indices), indices), t) == Has(b, t)
    {
      CodeAgrees(b, indices, t);
    }
    BitboardExt(Configuration(Code(b, indices), indices), b);
  }

  /** The bits of 2^n - 1 are exactly those below n. */
  lemma {:induction false} AllOnes(n: nat, j: nat)
    ensures Bit(Pow2(n) - 1, j) <==> j < n
  {
    if n == 0 {
      BitZero(j);
    } else if j > 0 {
      AllOnes(n - 1, j - 1);
      assert (Pow2(n) - 1) / 2 == Pow2(n - 1) - 1;
    }
  }

  lemma LastHolds(indices: seq<Square>, k: int)
    requires Increasing(indices) && 0 <= k < |indices|
    ensures Has(Configuration(Pow2(|indices|) - 1, indices), indices[k])
  {
    ConfigurationAt(Pow2(|indices|) - 1, indices, k);
    AllOnes(|indices|, k);
  }

  lemma LastHoldsListed(indices: seq<Square>, t: Square)
    requires Increasing(indices) && t in indices
    ensures Has(Configuration(Pow2(|indices|) - 1, indices), t)
  {
    var k := IndexOf(indices, t);
    LastHolds(indices, k);
  }

  lemma AllAgree(indices: seq<Square>, mask: Bitboard, t: Square)
    requires Increasing(indices)
    requires Has(mask, t) <==> t in indices
    ensures Has(Configuration(Pow2(|indices|) - 1, indices), t) == Has(mask, t)
  {
    if t in indices {
      LastHoldsListed(indices, t);
    } else {
      ConfigurationOnList(Pow2(|indices|) - 1, indices, t);
    }
  }

  /** The last configuration, numbered 2^n - 1, is the whole mask. */
  lemma LastConfiguration(indices: seq<Square>, mask: Bitboard)
    requires Increasing(indices)
    requires forall u: Square :: Has(mask, u) <==> u in indices
    ensures Configuration(Pow2(|indices|) - 1, indices) == mask
  {
    forall t: Square
      ensures Has(Configuration(Pow2(|indices|) - 1, indices), t) == Has(mask, t)
    {
      AllAgree(indices, mask, t);
    }
    BitboardExt(Configuration(Pow2(|indices|) - 1, indices), mask);
  }

  /** The counter bound 1 << n of the source is 2^n. */
  lemma {:induction false} ShiftIsPow2(k: Square)
    ensures SquareToBitboard(k) as int == Pow2(k as int)
  {
    if k > 0 {
      ShiftIsPow2(k - 1);
      assert SquareToBitboard(k) == SquareToBitboard(k - 1) + SquareToBitboard(k - 1);
    }
  }

  // ---------------------------------------------------------------------------
  // The enumeration loops

  /** Builds configuration `i` bit by bit, as the inner enumeration loop does. */
  method ConfigurationBoard(i: nat, indices: seq<Square>) returns (bitboard: Bitboard)
    ensures bitboard == Configuration(i, indices)
  {
    bitboard := 0;
    var j := 0;
    while j < |indices|
      invariant j <= |indices|
      invariant bitboard == FromSquares(Selected(i, indices, j))
    {
      SelectedStep(i, indices, j);
      FromSquaresAppend(Selected(i, indices, j), indices[j]);
      bitboard := if Bit(i, j) then bitboard | SquareToBitboard(indices[j]) else bitboard;
      j := j + 1;
    }
  }

  /** `bitboards` lists configurations 0, 1, ... in order. */
  predicate Enumerated(bitboards: seq<Bitboard>, indices: seq<Square>)
  {
    forall k :: 0 <= k < |bitboards| ==> bitboards[k] == Configuration(k, indices)
  }

  /** Lists configurations 0, 1, ..., 2^n - 1 in order, n being the number of
      listed squares. */
  method EnumerateConfigurations(indices: seq<Square>) returns (bitboards: seq<Bitboard>)
    requires |indices| < 64
    ensures |bitboards| == Pow2(|indices|)
    ensures Enumerated(bitboards, indices)
  {
    var num := Pow2(|indices|);
    bitboards := [];
    var k := 0;
    while k < num
      invariant k <= num
      invariant |bitboards| == k
      invariant Enumerated(bitboards, indices)
    {
      var bitboard := ConfigurationBoard(k, indices);
      bitboards := bitboards + [bitboard];
      k := k + 1;
    }
  }

  // ---------------------------------------------------------------------------
  // The boards of a mask

  /** The listed squares of a mask are the mask's squares, increasing. */
  lemma MaskSquares(mask: Bitboard)
    ensures Increasing(SetSquares(mask))
    ensures forall t: Square :: t in SetSquares(mask) <==> Has(mask, t)
  {
    SetSquaresSpec(mask);
  }

  /** Every enumerated board lies within the mask. */
  lemma EnumeratedWithin(bitboards: seq<Bitboard>, mask: Bitboard, k: int)
    requires Enumerated(bitboards, SetSquares(mask)) && 0 <= k < |bitboards|
    ensures SubsetOf(bitboards[k], mask)
  {
    MaskSquares(mask);
    forall t: Square | Has(bitboards[k], t)
      ensures Has(mask, t)
    {
      ConfigurationOnList(k, SetSquares(mask), t);
    }
    SubsetFromHas(bitboards[k], mask);
  }

  /** Every board within the mask is enumerated. */
  lemma EnumeratedCovers(bitboards: seq<Bitboard>, mask: Bitboard, b: Bitboard) returns (k: int)
    requires |bitboards| == Pow2(PopCount(mask)) && Enumerated(bitboards, SetSquares(mask))
    requires SubsetOf(b, mask)
    ensures 0 <= k < |bitboards| && bitboards[k] == b
  {
    MaskSquares(mask);
    forall u: Square | Has(b, u)
      ensures u in SetSquares(mask)
    {
      SubsetHas(b, mask, u);
    }
    ConfigurationsCover(b, SetSquares(mask));
    k := Code(b, SetSquares(mask));
  }

  /** No board is enumerated twice. */
  lemma EnumeratedDistinct(bitboards: seq<Bitboard>, mask: Bitboard, k1: int, k2: int)
    requires |bitboards| == Pow2(PopCount(mask)) && Enumerated(bitboards, SetSquares(mask))
    requires 0 <= k1 < |bitboards| && 0 <= k2 < |bitboards| && k1 != k2
    ensures bitboards[k1] != bitboards[k2]
  {
    MaskSquares(mask);
    ConfigurationsDistinct(SetSquares(mask), k1, k2);
  }

  /** Lists every blocker board of a mask: the subsets of the mask, each once,
      2^n of them for a mask of n squares. */
  method BlockerBoards(mask: Bitboard) returns (bitboards: seq<Bitboard>)
    requires PopCount(mask) < 64
    ensures |bitboards| == Pow2(PopCount(mask))
    ensures Enumerated(bitboards, SetSquares(mask))
  {
    var indices := BitIndices(mask);
    bitboards := EnumerateConfigurations(indices);
  }
}
