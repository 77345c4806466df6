/**
 * The pawn, knight and king attack tables: for each square, the squares a
 * piece of that kind standing there attacks, built from the edge-masked
 * directional shifts of a single-square bitboard.
 */
module Leapers {
  import opened Types

  /** A white pawn attacks the two squares diagonally in front of it. */
  function WhitePawnAttacks(s: Square): Bitboard
  {
    NorthWest(SquareToBitboard(s)) | NorthEast(SquareToBitboard(s))
  }

  /** A black pawn attacks the two squares diagonally in front of it, seen
      from Black's side. */
  function BlackPawnAttacks(s: Square): Bitboard
  {
    SouthWest(SquareToBitboard(s)) | SouthEast(SquareToBitboard(s))
  }

  /** Each knight move is a diagonal step followed by a straight step away
      from the start. */
  function KnightAttacks(s: Square): Bitboard
  {
    var bb := SquareToBitboard(s);
    North(NorthWest(bb)) | North(NorthEast(bb)) | East(NorthEast(bb)) | East(SouthEast(bb))
    | South(SouthEast(bb)) | South(SouthWest(bb)) | West(SouthWest(bb)) | West(NorthWest(bb))
  }

  /** The first four knight moves of the source's order, and the last four. */
  function KnightUpward(bb: Bitboard): Bitboard
  {
    North(NorthWest(bb)) | North(NorthEast(bb)) | East(NorthEast(bb)) | East(SouthEast(bb))
  }

  function KnightDownward(bb: Bitboard): Bitboard
  {
    South(SouthEast(bb)) | South(SouthWest(bb)) | West(SouthWest(bb)) | West(NorthWest(bb))
  }

  /** The king attacks the up to eight squares around it. */
  function KingAttacks(s: Square): Bitboard
  {
    var bb := SquareToBitboard(s);
    North(bb) | NorthEast(bb) | East(bb) | SouthEast(bb)
    | South(bb) | SouthWest(bb) | West(bb) | NorthWest(bb)
  }

  /** The first four king moves of the source's order, and the last four. */
  function KingEastward(bb: Bitboard): Bitboard
  {
    North(bb) | NorthEast(bb) | East(bb) | SouthEast(bb)
  }

  function KingWestward(bb: Bitboard): Bitboard
  {
    South(bb) | SouthWest(bb) | West(bb) | NorthWest(bb)
  }

  // ---------------------------------------------------------------------------
  // Shifts of a single square are neighbours

  lemma NorthWestOfSquare(s: Square)
    ensures NorthWest(SquareToBitboard(s)) == Neighbor(s, 1, -1)
  {
    var side := West(SquareToBitboard(s));
    WestOfSquare(s);
    assert side == Neighbor(s, 0, -1);
    NorthStep(s, 0, -1);
    assert North(side) == Neighbor(s, 1, -1);
  }

  lemma NorthEastOfSquare(s: Square)
    ensures NorthEast(SquareToBitboard(s)) == Neighbor(s, 1, 1)
  {
    var side := East(SquareToBitboard(s));
    EastOfSquare(s);
    assert side == Neighbor(s, 0, 1);
    NorthStep(s, 0, 1);
    assert North(side) == Neighbor(s, 1, 1);
  }

  lemma SouthWestOfSquare(s: Square)
    ensures SouthWest(SquareToBitboard(s)) == Neighbor(s, -1, -1)
  {
    var side := West(SquareToBitboard(s));
    WestOfSquare(s);
    assert side == Neighbor(s, 0, -1);
    SouthStep(s, 0, -1);
    assert South(side) == Neighbor(s, -1, -1);
  }

  lemma SouthEastOfSquare(s: Square)
    ensures SouthEast(SquareToBitboard(s)) == Neighbor(s, -1, 1)
  {
    var side := East(SquareToBitboard(s));
    EastOfSquare(s);
    assert side == Neighbor(s, 0, 1);
    SouthStep(s, 0, 1);
    assert South(side) == Neighbor(s, -1, 1);
  }

  /** An offset from `s` to `t`, in ranks and files. */
  predicate Offset(s: Square, t: Square, dr: int, df: int)
  {
    Rank(t) - Rank(s) == dr && File(t) - File(s) == df
  }

  // ---------------------------------------------------------------------------
  // Pawns

  lemma HasNorthWest(s: Square, t: Square)
    ensures Has(NorthWest(SquareToBitboard(s)), t) <==> Offset(s, t, 1, -1)
  {
    NorthWestOfSquare(s);
    HasNeighbor(s, 1, -1, t);
  }

  lemma HasNorthEast(s: Square, t: Square)
    ensures Has(NorthEast(SquareToBitboard(s)), t) <==> Offset(s, t, 1, 1)
  {
    NorthEastOfSquare(s);
    HasNeighbor(s, 1, 1, t);
  }

  lemma HasSouthWest(s: Square, t: Square)
    ensures Has(SouthWest(SquareToBitboard(s)), t) <==> Offset(s, t, -1, -1)
  {
    SouthWestOfSquare(s);
    HasNeighbor(s, -1, -1, t);
  }

  lemma HasSouthEast(s: Square, t: Square)
    ensures Has(SouthEast(SquareToBitboard(s)), t) <==> Offset(s, t, -1, 1)
  {
    SouthEastOfSquare(s);
    HasNeighbor(s, -1, 1, t);
  }

  /** A white pawn attacks exactly the squares one rank up and one file
      aside. */
  lemma WhitePawnAttacksHas(s: Square, t: Square)
    ensures Has(WhitePawnAttacks(s), t) <==> Rank(t) == Rank(s) + 1 && Abs(File(t) - File(s)) == 1
  {
    HasOr(NorthWest(SquareToBitboard(s)), NorthEast(SquareToBitboard(s)), t);
    HasNorthWest(s, t);
    HasNorthEast(s, t);
  }

  /** A black pawn attacks exactly the squares one rank down and one file
      aside. */
  lemma BlackPawnAttacksHas(s: Square, t: Square)
    ensures Has(BlackPawnAttacks(s), t) <==> Rank(t) == Rank(s) - 1 && Abs(File(t) - File(s)) == 1
  {
    HasOr(SouthWest(SquareToBitboard(s)), SouthEast(SquareToBitboard(s)), t);
    HasSouthWest(s, t);
    HasSouthEast(s, t);
  }

  /** A white pawn on rank 8 attacks nothing. */
  lemma WhitePawnLastRank(s: Square)
    requires Rank(s) == 7
    ensures WhitePawnAttacks(s) == 0
  {
    forall t: Square
      ensures !Has(WhitePawnAttacks(s), t)
    {
      WhitePawnAttacksHas(s, t);
      RankFileDecode(t);
    }
    BitboardExt(WhitePawnAttacks(s), 0);
  }

  /** A black pawn on rank 1 attacks nothing. */
  lemma BlackPawnFirstRank(s: Square)
    requires Rank(s) == 0
    ensures BlackPawnAttacks(s) == 0
  {
    forall t: Square
      ensures !Has(BlackPawnAttacks(s), t)
    {
      BlackPawnAttacksHas(s, t);
      RankFileDecode(t);
    }
    BitboardExt(BlackPawnAttacks(s), 0);
  }

  // ---------------------------------------------------------------------------
  // Knights

  lemma HasNorthNorthWest(s: Square, t: Square)
    ensures Has(North(NorthWest(SquareToBitboard(s))), t) <==> Offset(s, t, 2, -1)
  {
    NorthWestOfSquare(s);
    NorthStep(s, 1, -1);
    HasNeighbor(s, 2, -1, t);
  }

  lemma HasNorthNorthEast(s: Square, t: Square)
    ensures Has(North(NorthEast(SquareToBitboard(s))), t) <==> Offset(s, t, 2, 1)
  {
    assert NorthEast(SquareToBitboard(s)) == Neighbor(s, 1, 1) by { NorthEastOfSquare(s); }
    assert North(Neighbor(s, 1, 1)) == Neighbor(s, 2, 1) by { NorthStep(s, 1, 1); }
    HasNeighbor(s, 2, 1, t);
  }

  lemma HasEastNorthEast(s: Square, t: Square)
    ensures Has(East(NorthEast(SquareToBitboard(s))), t) <==> Offset(s, t, 1, 2)
  {
    NorthEastOfSquare(s);
    EastStep(s, 1, 1);
    HasNeighbor(s, 1, 2, t);
  }

  lemma HasEastSouthEast(s: Square, t: Square)
    ensures Has(East(SouthEast(SquareToBitboard(s))), t) <==> Offset(s, t, -1, 2)
  {
    SouthEastOfSquare(s);
    EastStep(s, -1, 1);
    HasNeighbor(s, -1, 2, t);
  }

  lemma HasSouthSouthEast(s: Square, t: Square)
    ensures Has(South(SouthEast(SquareToBitboard(s))), t) <==> Offset(s, t, -2, 1)
  {
    SouthEastOfSquare(s);
    SouthStep(s, -1, 1);
    HasNeighbor(s, -2, 1, t);
  }

  lemma HasSouthSouthWest(s: Square, t: Square)
    ensures Has(South(SouthWest(SquareToBitboard(s))), t) <==> Offset(s, t, -2, -1)
  {
    SouthWestOfSquare(s);
    SouthStep(s, -1, -1);
    HasNeighbor(s, -2, -1, t);
  }

  lemma HasWestSouthWest(s: Square, t: Square)
    ensures Has(West(SouthWest(SquareToBitboard(s))), t) <==> Offset(s, t, -1, -2)
  {
    SouthWestOfSquare(s);
    WestStep(s, -1, -1);
    HasNeighbor(s, -1, -2, t);
  }

  lemma HasWestNorthWest(s: Square, t: Square)
    ensures Has(West(NorthWest(SquareToBitboard(s))), t) <==> Offset(s, t, 1, -2)
  {
    NorthWestOfSquare(s);
    WestStep(s, 1, -1);
    HasNeighbor(s, 1, -2, t);
  }

  /** A knight offset: one rank and two files, or two ranks and one file. */
  predicate KnightOffset(dr: int, df: int)
  {
    (Abs(dr) == 1 && Abs(df) == 2) || (Abs(dr) == 2 && Abs(df) == 1)
  }

  lemma KnightOffsets(dr: int, df: int)
    ensures ((dr == 2 && df == -1) || (dr == 2 && df == 1) || (dr == 1 && df == 2) || (dr == -1 && df == 2)
          || (dr == -2 && df == 1) || (dr == -2 && df == -1) || (dr == -1 && df == -2) || (dr == 1 && df == -2))
        <==> KnightOffset(dr, df)
  {
  }

  lemma KnightUpwardHas(s: Square, t: Square)
    ensures Has(KnightUpward(SquareToBitboard(s)), t)
        <==> (Offset(s, t, 2, -1) || Offset(s, t, 2, 1) || Offset(s, t, 1, 2) || Offset(s, t, -1, 2))
  {
    var bb := SquareToBitboard(s);
    HasOr4(North(NorthWest(bb)), North(NorthEast(bb)), East(NorthEast(bb)), East(SouthEast(bb)), t);
    HasNorthNorthWest(s, t);
    HasNorthNorthEast(s, t);
    HasEastNorthEast(s, t);
    HasEastSouthEast(s, t);
  }

  lemma KnightDownwardHas(s: Square, t: Square)
    ensures Has(KnightDownward(SquareToBitboard(s)), t)
        <==> (Offset(s, t, -2, 1) || Offset(s, t, -2, -1) || Offset(s, t, -1, -2) || Offset(s, t, 1, -2))
  {
    var bb := SquareToBitboard(s);
    HasOr4(South(SouthEast(bb)), South(SouthWest(bb)), West(SouthWest(bb)), West(NorthWest(bb)), t);
    HasSouthSouthEast(s, t);
    HasSouthSouthWest(s, t);
    HasWestSouthWest(s, t);
    HasWestNorthWest(s, t);
  }

  lemma KnightOffsetOf(s: Square, t: Square)
    ensures (Offset(s, t, 2, -1) || Offset(s, t, 2, 1) || Offset(s, t, 1, 2) || Offset(s, t, -1, 2)
          || Offset(s, t, -2, 1) || Offset(s, t, -2, -1) || Offset(s, t, -1, -2) || Offset(s, t, 1, -2))
        <==> KnightOffset(Rank(t) - Rank(s), File(t) - File(s))
  {
    KnightOffsets(Rank(t) - Rank(s), File(t) - File(s));
  }

  lemma KnightHalves(s: Square)
    ensures KnightAttacks(s) == KnightUpward(SquareToBitboard(s)) | KnightDownward(SquareToBitboard(s))
  {
  }

  /** A knight attacks exactly the squares one rank and two files, or two
      ranks and one file, away. */
  lemma KnightAttacksHas(s: Square, t: Square)
    ensures Has(KnightAttacks(s), t) <==> KnightOffset(Rank(t) - Rank(s), File(t) - File(s))
  {
    KnightHalves(s);
    HasOr(KnightUpward(SquareToBitboard(s)), KnightDownward(SquareToBitboard(s)), t);
    KnightUpwardHas(s, t);
    KnightDownwardHas(s, t);
    KnightOffsetOf(s, t);
  }

  lemma KnightNotSelf(s: Square)
    ensures !Has(KnightAttacks(s), s)
  {
    KnightAttacksHas(s, s);
  }

  // ---------------------------------------------------------------------------
  // Kings

  lemma HasNorth(s: Square, t: Square)
    ensures Has(North(SquareToBitboard(s)), t) <==> Offset(s, t, 1, 0)
  {
    NorthOfSquare(s);
    HasNeighbor(s, 1, 0, t);
  }

  lemma HasSouth(s: Square, t: Square)
    ensures Has(South(SquareToBitboard(s)), t) <==> Offset(s, t, -1, 0)
  {
    SouthOfSquare(s);
    HasNeighbor(s, -1, 0, t);
  }

  lemma HasEast(s: Square, t: Square)
    ensures Has(East(SquareToBitboard(s)), t) <==> Offset(s, t, 0, 1)
  {
    EastOfSquare(s);
    HasNeighbor(s, 0, 1, t);
  }

  lemma HasWest(s: Square, t: Square)
    ensures Has(West(SquareToBitboard(s)), t) <==> Offset(s, t, 0, -1)
  {
    WestOfSquare(s);
    HasNeighbor(s, 0, -1, t);
  }

  /** A king offset: at most one rank and one file, and not zero. */
  predicate KingOffset(dr: int, df: int)
  {
    Abs(dr) <= 1 && Abs(df) <= 1 && (dr != 0 || df != 0)
  }

  lemma KingOffsets(dr: int, df: int)
    ensures ((dr == 1 && df == 0) || (dr == 1 && df == 1) || (dr == 0 && df == 1) || (dr == -1 && df == 1)
          || (dr == -1 && df == 0) || (dr == -1 && df == -1) || (dr == 0 && df == -1) || (dr == 1 && df == -1))
        <==> KingOffset(dr, df)
  {
  }

  lemma KingEastwardHas(s: Square, t: Square)
    ensures Has(KingEastward(SquareToBitboard(s)), t)
        <==> (Offset(s, t, 1, 0) || Offset(s, t, 1, 1) || Offset(s, t, 0, 1) || Offset(s, t, -1, 1))
  {
    var bb := SquareToBitboard(s);
    HasOr4(North(bb), NorthEast(bb), East(bb), SouthEast(bb), t);
    HasNorth(s, t);
    HasNorthEast(s, t);
    HasEast(s, t);
    HasSouthEast(s, t);
  }

  lemma KingWestwardHas(s: Square, t: Square)
    ensures Has(KingWestward(SquareToBitboard(s)), t)
        <==> (Offset(s, t, -1, 0) || Offset(s, t, -1, -1) || Offset(s, t, 0, -1) || Offset(s, t, 1, -1))
  {
    var bb := SquareToBitboard(s);
    HasOr4(South(bb), SouthWest(bb), West(bb), NorthWest(bb), t);
    HasSouth(s, t);
    HasSouthWest(s, t);
    HasWest(s, t);
    HasNorthWest(s, t);
  }

  lemma KingOffsetOf(s: Square, t: Square)
    ensures (Offset(s, t, 1, 0) || Offset(s, t, 1, 1) || Offset(s, t, 0, 1) || Offset(s, t, -1, 1)
          || Offset(s, t, -1, 0) || Offset(s, t, -1, -1) || Offset(s, t, 0, -1) || Offset(s, t, 1, -1))
        <==> KingOffset(Rank(t) - Rank(s), File(t) - File(s))
  {
    KingOffsets(Rank(t) - Rank(s), File(t) - File(s));
  }

  lemma KingHalves(s: Square)
    ensures KingAttacks(s) == KingEastward(SquareToBitboard(s)) | KingWestward(SquareToBitboard(s))
  {
  }

  /** A king attacks exactly the squares at distance one in rank and file. */
  lemma KingAttacksHas(s: Square, t: Square)
    ensures Has(KingAttacks(s), t) <==> KingOffset(Rank(t) - Rank(s), File(t) - File(s))
  {
    KingHalves(s);
    HasOr(KingEastward(SquareToBitboard(s)), KingWestward(SquareToBitboard(s)), t);
    KingEastwardHas(s, t);
    KingWestwardHas(s, t);
    KingOffsetOf(s, t);
  }

  lemma KingNotSelf(s: Square)
    ensures !Has(KingAttacks(s), s)
  {
    KingAttacksHas(s, s);
  }

  // ---------------------------------------------------------------------------
  // The precompute loops

  /** One iteration of the pawn loop extends both halves of the table. */
  lemma PawnStep(before: seq<Bitboard>, after: seq<Bitboard>, n: int)
    requires 0 <= n < 64 && |before| == 128
    requires Tabulates(before, 0, n, WhitePawnAttacks)
    requires Tabulates(before, 64, n, BlackPawnAttacks)
    requires after == before[n := WhitePawnAttacks(SquareAt(n))][64 + n := BlackPawnAttacks(SquareAt(n))]
    ensures Tabulates(after, 0, n + 1, WhitePawnAttacks)
    ensures Tabulates(after, 64, n + 1, BlackPawnAttacks)
  {
    var middle := before[n := WhitePawnAttacks(SquareAt(n))];
    TabulatesStep(before, middle, 0, n, WhitePawnAttacks);
    TabulatesKeep(before, middle, 64, n, BlackPawnAttacks, n, WhitePawnAttacks(SquareAt(n)));
    TabulatesStep(middle, after, 64, n, BlackPawnAttacks);
    TabulatesKeep(middle, after, 0, n + 1, WhitePawnAttacks, 64 + n, BlackPawnAttacks(SquareAt(n)));
  }

  /** Fills the pawn table: entry s for a white pawn on s, entry 64 + s for a
      black pawn on s. */
  method PrecomputePawnAttacks() returns (pawnAttacks: array<Bitboard>)
    ensures fresh(pawnAttacks) && pawnAttacks.Length == 2 * kNumSquares
    ensures Tabulates(pawnAttacks[..], 0, kNumSquares, WhitePawnAttacks)
    ensures Tabulates(pawnAttacks[..], kNumSquares, kNumSquares, BlackPawnAttacks)
  {
    pawnAttacks := new Bitboard[2 * kNumSquares](_ => 0);
    var sq := 0;
    while sq < kNumSquares
      invariant sq <= kNumSquares
      invariant Tabulates(pawnAttacks[..], 0, sq, WhitePawnAttacks)
      invariant Tabulates(pawnAttacks[..], kNumSquares, sq, BlackPawnAttacks)
    {
      var sqBB := SquareToBitboard(SquareAt(sq));
      ghost var before := pawnAttacks[..];
      pawnAttacks[sq] := NorthWest(sqBB) | NorthEast(sqBB);
      pawnAttacks[kNumSquares + sq] := SouthWest(sqBB) | SouthEast(sqBB);
      PawnStep(before, pawnAttacks[..], sq);
      sq := sq + 1;
    }
  }

  /** Fills the knight table. */
  method PrecomputeKnightAttacks() returns (knightAttacks: array<Bitboard>)
    ensures fresh(knightAttacks) && knightAttacks.Length == kNumSquares
    ensures Tabulates(knightAttacks[..], 0, kNumSquares, KnightAttacks)
  {
    knightAttacks := new Bitboard[kNumSquares](_ => 0);
    var i := 0;
    while i < kNumSquares
      invariant i <= kNumSquares
      invariant Tabulates(knightAttacks[..], 0, i, KnightAttacks)
    {
      var bb := SquareToBitboard(SquareAt(i));
      var attacks: Bitboard := 0;
      attacks := attacks | North(NorthWest(bb));
      attacks := attacks | North(NorthEast(bb));
      attacks := attacks | East(NorthEast(bb));
      attacks := attacks | East(SouthEast(bb));
      attacks := attacks | South(SouthEast(bb));
      attacks := attacks | South(SouthWest(bb));
      attacks := attacks | West(SouthWest(bb));
      attacks := attacks | West(NorthWest(bb));
      ghost var before := knightAttacks[..];
      knightAttacks[i] := attacks;
      TabulatesStep(before, knightAttacks[..], 0, i, KnightAttacks);
      i := i + 1;
    }
  }

  /** Fills the king table. */
  method PrecomputeKingAttacks() returns (kingAttacks: array<Bitboard>)
    ensures fresh(kingAttacks) && kingAttacks.Length == kNumSquares
    ensures Tabulates(kingAttacks[..], 0, kNumSquares, KingAttacks)
  {
    kingAttacks := new Bitboard[kNumSquares](_ => 0);
    var i := 0;
    while i < kNumSquares
      invariant i <= kNumSquares
      invariant Tabulates(kingAttacks[..], 0, i, KingAttacks)
    {
      var bb := SquareToBitboard(SquareAt(i));
      var attacks: Bitboard := 0;
      attacks := attacks | North(bb);
      attacks := attacks | NorthEast(bb);
      attacks := attacks | East(bb);
      attacks := attacks | SouthEast(bb);
      attacks := attacks | South(bb);
      attacks := attacks | SouthWest(bb);
      attacks := attacks | West(bb);
      attacks := attacks | NorthWest(bb);
      ghost var before := kingAttacks[..];
      kingAttacks[i] := attacks;
      TabulatesStep(before, kingAttacks[..], 0, i, KingAttacks);
      i := i + 1;
    }
  }
}
