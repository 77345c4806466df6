/**
 * Geometry primitives: squares, bitboards, the piece/colour/castling enums,
 * directional shifts with edge masking, bit scans and population count.
 *
 * A bitboard is a 64-bit set of squares; bit i stands for square i, with
 * A1 = 0, H1 = 7, A8 = 56 and H8 = 63 (rank-major, file A first).
 */
module Types {

  type Bitboard = bv64

  /** A square index; the source stores it in a `uint8_t` enum. */
  type Square = s: bv8 | s < 64

  const kNumSquares: nat := 64
  const kNumPieces: nat := 13
  const kNumColors: nat := 2
  const kNumCastles: nat := 4

  // ---------------------------------------------------------------------------
  // Enums

  /** The twelve coloured piece kinds and the sentinel `Empty`. */
  datatype Piece =
    | WhitePawn | WhiteKnight | WhiteBishop | WhiteRook | WhiteQueen | WhiteKing
    | BlackPawn | BlackKnight | BlackBishop | BlackRook | BlackQueen | BlackKing
    | Empty

  /** The enum value of a piece, used as an index into the board's bitboards. */
  function PieceIndex(p: Piece): (i: nat)
    ensures i < kNumPieces
    ensures i == kNumPieces - 1 <==> p == Empty
  {
    match p
    case WhitePawn => 0
    case WhiteKnight => 1
    case WhiteBishop => 2
    case WhiteRook => 3
    case WhiteQueen => 4
    case WhiteKing => 5
    case BlackPawn => 6
    case BlackKnight => 7
    case BlackBishop => 8
    case BlackRook => 9
    case BlackQueen => 10
    case BlackKing => 11
    case Empty => 12
  }

  /** The piece with a given enum value. */
  function PieceOfIndex(i: nat): (p: Piece)
    requires i < kNumPieces
    ensures PieceIndex(p) == i
  {
    [WhitePawn, WhiteKnight, WhiteBishop, WhiteRook, WhiteQueen, WhiteKing,
     BlackPawn, BlackKnight, BlackBishop, BlackRook, BlackQueen, BlackKing,
     Empty][i]
  }

  /** The enum values 0..12 name the thirteen pieces one to one. */
  lemma PieceIndexBijective(p: Piece, q: Piece)
    ensures PieceOfIndex(PieceIndex(p)) == p
    ensures PieceIndex(p) == PieceIndex(q) ==> p == q
  {
  }

  datatype Color = White | Black

  function ColorIndex(c: Color): (i: nat)
    ensures i < kNumColors
    ensures (i == 0) == (c == White)
  {
    match c
    case White => 0
    case Black => 1
  }

  /** The four castling rights; as flags they are OR-ed into `Board.castling`. */
  datatype Castle = WhiteQueenSide | WhiteKingSide | BlackQueenSide | BlackKingSide

  function CastleFlag(c: Castle): bv8
  {
    match c
    case WhiteQueenSide => 1
    case WhiteKingSide => 2
    case BlackQueenSide => 4
    case BlackKingSide => 8
  }

  /** Each flag is one bit, distinct rights have disjoint bits, and all four
      together fill the low nibble, so the castling field is a 4-bit set. */
  lemma CastleFlagsAreBits(c: Castle, d: Castle)
    ensures CastleFlag(c) != 0 && CastleFlag(c) & (CastleFlag(c) - 1) == 0
    ensures c != d ==> CastleFlag(c) & CastleFlag(d) == 0
    ensures CastleFlag(c) & 0xF0 == 0
    ensures CastleFlag(WhiteQueenSide) | CastleFlag(WhiteKingSide)
          | CastleFlag(BlackQueenSide) | CastleFlag(BlackKingSide) == 0x0F
  {
  }

  // ---------------------------------------------------------------------------
  // Squares and single-square bitboards

  function SquareToBitboard(s: Square): Bitboard
  {
    (1 as bv64) << (s as bv64)
  }

  /** Square `t` belongs to the set `b`. */
  predicate Has(b: Bitboard, t: Square)
  {
    (b >> (t as bv64)) & 1 != 0
  }

  function Rank(s: Square): int
  {
    (s / 8) as int
  }

  function File(s: Square): int
  {
    (s % 8) as int
  }

  predicate OnBoard(r: int, f: int)
  {
    0 <= r < 8 && 0 <= f < 8
  }

  function Abs(x: int): nat
  {
    if x < 0 then -x else x
  }

  /** The square on rank `r`, file `f` (both counted from 0). */
  function GetSquare(r: int, f: int): Square
    requires OnBoard(r, f)
  {
    RankBase(r) + FileOffset(f)
  }

  /** The index of the first square of rank `r`, 8r, spelled out per rank. */
  function RankBase(r: int): bv8
  {
    if r == 0 then 0 else if r == 1 then 8 else if r == 2 then 16 else if r == 3 then 24
    else if r == 4 then 32 else if r == 5 then 40 else if r == 6 then 48 else 56
  }

  /** The offset of file `f` within its rank, spelled out per file. */
  function FileOffset(f: int): bv8
  {
    if f == 0 then 0 else if f == 1 then 1 else if f == 2 then 2 else if f == 3 then 3
    else if f == 4 then 4 else if f == 5 then 5 else if f == 6 then 6 else 7
  }

  /** The square numbered `j`. */
  function SquareAt(j: int): Square
    requires 0 <= j < 64
  {
    j as bv8
  }

  lemma SquareAtValue(j: int)
    requires 0 <= j < 64
    ensures SquareAt(j) as int == j
  {
    GetSquareDecode(j / 8, j % 8);
  }

  lemma SquareAtNumber(s: Square)
    ensures SquareAt(s as int) == s
  {
  }

  /** `GetSquare` lands on the requested rank and file, at index 8r + f. */
  lemma GetSquareDecode(r: int, f: int)
    requires OnBoard(r, f)
    ensures Rank(GetSquare(r, f)) == r && File(GetSquare(r, f)) == f
    ensures GetSquare(r, f) as int == 8 * r + f
  {
  }

  /** Rank and file decode a square, and the square is rebuilt from them. */
  lemma RankFileDecode(s: Square)
    ensures 0 <= Rank(s) < 8 && 0 <= File(s) < 8
    ensures s as int == 8 * Rank(s) + File(s)
    ensures GetSquare(Rank(s), File(s)) == s
  {
  }

  /** A single-square bitboard holds exactly that square. */
  lemma HasSquare(s: Square, t: Square)
    ensures Has(SquareToBitboard(s), t) <==> s == t
  {
  }

  lemma HasOr(a: Bitboard, b: Bitboard, t: Square)
    ensures Has(a | b, t) <==> Has(a, t) || Has(b, t)
  {
  }

  lemma HasOr4(a: Bitboard, b: Bitboard, c: Bitboard, d: Bitboard, t: Square)
    ensures Has(a | b | c | d, t) <==> Has(a, t) || Has(b, t) || Has(c, t) || Has(d, t)
  {
    HasOr(a | b | c, d, t);
    HasOr(a | b, c, t);
    HasOr(a, b, t);
  }

  /** Adding one square to a set adds exactly that square. */
  lemma HasSquareOr(s: Square, x: Bitboard, t: Square)
    ensures Has(SquareToBitboard(s) | x, t) <==> t == s || Has(x, t)
  {
    HasOr(SquareToBitboard(s), x, t);
    HasSquare(s, t);
  }

  /** The AND-with-a-single-square test used throughout the source. */
  lemma AndSquare(b: Bitboard, s: Square)
    ensures b & SquareToBitboard(s) != 0 <==> Has(b, s)
  {
  }

  lemma HasAnd(a: Bitboard, b: Bitboard, t: Square)
    ensures Has(a & b, t) <==> Has(a, t) && Has(b, t)
  {
  }

  // ---------------------------------------------------------------------------
  // File and rank masks

  const kFileA: Bitboard := 0x0101010101010101
  const kFileB: Bitboard := kFileA << 1
  const kFileC: Bitboard := kFileA << 2
  const kFileD: Bitboard := kFileA << 3
  const kFileE: Bitboard := kFileA << 4
  const kFileF: Bitboard := kFileA << 5
  const kFileG: Bitboard := kFileA << 6
  const kFileH: Bitboard := kFileA << 7
  const kRank1: Bitboard := 0x00000000000000ff
  const kRank2: Bitboard := kRank1 << 8
  const kRank3: Bitboard := kRank1 << 16
  const kRank4: Bitboard := kRank1 << 24
  const kRank5: Bitboard := kRank1 << 32
  const kRank6: Bitboard := kRank1 << 40
  const kRank7: Bitboard := kRank1 << 48
  const kRank8: Bitboard := kRank1 << 56

  /** The file masks contain exactly the squares of their file; likewise the
      rank masks. */
  lemma EdgeMasks(t: Square)
    ensures Has(kFileA, t) <==> File(t) == 0
    ensures Has(kFileH, t) <==> File(t) == 7
    ensures Has(kRank1, t) <==> Rank(t) == 0
    ensures Has(kRank8, t) <==> Rank(t) == 7
  {
  }

  // ---------------------------------------------------------------------------
  // Directional shifts

  function North(b: Bitboard): Bitboard { b << 8 }
  function South(b: Bitboard): Bitboard { b >> 8 }
  function East(b: Bitboard): Bitboard { (b & !kFileH) << 1 }
  function West(b: Bitboard): Bitboard { (b & !kFileA) >> 1 }
  function NorthEast(b: Bitboard): Bitboard { North(East(b)) }
  function SouthEast(b: Bitboard): Bitboard { South(East(b)) }
  function SouthWest(b: Bitboard): Bitboard { South(West(b)) }
  function NorthWest(b: Bitboard): Bitboard { North(West(b)) }

  /** North moves every square one rank up; nothing lands on rank 1 and
      rank-8 squares fall off the board. */
  lemma NorthHas(b: Bitboard, t: Square)
    ensures Has(North(b), t) <==> Rank(t) > 0 && Has(b, t - 8)
  {
  }

  /** South moves every square one rank down; rank-1 squares fall off. */
  lemma SouthHas(b: Bitboard, t: Square)
    ensures Has(South(b), t) <==> Rank(t) < 7 && Has(b, t + 8)
  {
  }

  /** East moves every square one file right and never wraps: nothing lands
      on file A, and file-H squares vanish. */
  lemma EastHas(b: Bitboard, t: Square)
    ensures Has(East(b), t) <==> File(t) > 0 && Has(b, t - 1)
  {
  }

  /** West moves every square one file left; nothing lands on file H. */
  lemma WestHas(b: Bitboard, t: Square)
    ensures Has(West(b), t) <==> File(t) < 7 && Has(b, t + 1)
  {
  }

  /** The edge cases the shifts are built for, as whole-board facts. */
  lemma ShiftEdges(b: Bitboard)
    ensures North(b & kRank8) == 0 && South(b & kRank1) == 0
    ensures East(b) & kFileA == 0 && East(b & kFileH) == 0
    ensures West(b) & kFileH == 0 && West(b & kFileA) == 0
    ensures NorthEast(b) & (kFileA | kRank1) == 0 && NorthEast(b & (kFileH | kRank8)) == 0
    ensures NorthWest(b) & (kFileH | kRank1) == 0 && NorthWest(b & (kFileA | kRank8)) == 0
    ensures SouthEast(b) & (kFileA | kRank8) == 0 && SouthEast(b & (kFileH | kRank1)) == 0
    ensures SouthWest(b) & (kFileH | kRank8) == 0 && SouthWest(b & (kFileA | kRank1)) == 0
  {
  }

  /** Each diagonal is a vertical and a horizontal shift, in either order. */
  lemma NorthEastCommutes(b: Bitboard)
    ensures NorthEast(b) == East(North(b))
  {}

  lemma NorthWestCommutes(b: Bitboard)
    ensures NorthWest(b) == West(North(b))
  {}

  lemma SouthEastCommutes(b: Bitboard)
    ensures SouthEast(b) == East(South(b))
  {}

  lemma SouthWestCommutes(b: Bitboard)
    ensures SouthWest(b) == West(South(b))
  {}

  /** The bitboard of the square on rank `r`, file `f`, or the empty board
      when (r, f) is off the board. */
  function BitAt(r: int, f: int): Bitboard
  {
    if OnBoard(r, f) then SquareToBitboard(GetSquare(r, f)) else 0
  }

  /** The bitboard of the square `dr` ranks and `df` files away from `s`, or
      the empty board when that square is off the board. */
  function Neighbor(s: Square, dr: int, df: int): Bitboard
  {
    BitAt(Rank(s) + dr, File(s) + df)
  }

  lemma BitUp8(s: Square, t: Square)
    requires t as int == s as int + 8
    ensures SquareToBitboard(s) << 8 == SquareToBitboard(t)
  {
    assert t == s + 8;
  }
  lemma BitUp1(s: Square, t: Square)
    requires t as int == s as int + 1
    ensures SquareToBitboard(s) << 1 == SquareToBitboard(t)
  {
    assert t == s + 1;
  }
  lemma BitUpOff(s: Square, k: bv8)
    requires k <= 9 && s as int + k as int >= 64
    ensures SquareToBitboard(s) << (k as bv64) == 0
  {}
  lemma BitDown8(s: Square, t: Square)
    requires t as int == s as int - 8
    ensures SquareToBitboard(s) >> 8 == SquareToBitboard(t)
  {
    assert s == t + 8;
  }
  lemma BitDown1(s: Square, t: Square)
    requires t as int == s as int - 1
    ensures SquareToBitboard(s) >> 1 == SquareToBitboard(t)
  {
    assert s == t + 1;
  }
  lemma BitDownOff(s: Square, k: bv8)
    requires k <= 9 && s < k
    ensures SquareToBitboard(s) >> (k as bv64) == 0
  {}
  lemma BitFileH(s: Square)
    ensures SquareToBitboard(s) & !kFileH == if s % 8 == 7 then 0 else SquareToBitboard(s)
  {}
  lemma BitFileA(s: Square)
    ensures SquareToBitboard(s) & !kFileA == if s % 8 == 0 then 0 else SquareToBitboard(s)
  {}

  /** The neighbour in direction (dr, df) has index s + 8dr + df. */
  lemma NeighborIndex(s: Square, dr: int, df: int)
    requires OnBoard(Rank(s) + dr, File(s) + df)
    ensures GetSquare(Rank(s) + dr, File(s) + df) as int == s as int + 8 * dr + df
  {
    RankFileDecode(s);
    GetSquareDecode(Rank(s) + dr, File(s) + df);
  }

  lemma NorthOfSquare(s: Square)
    ensures North(SquareToBitboard(s)) == Neighbor(s, 1, 0)
  {
    if s < 56 {
      NorthInside(s);
    } else {
      NorthOutside(s);
    }
  }
  lemma NorthInside(s: Square)
    requires s < 56
    ensures North(SquareToBitboard(s)) == Neighbor(s, 1, 0)
  {
    RankFileDecode(s);
    NeighborIndex(s, 1, 0);
    BitUp8(s, GetSquare(Rank(s) + 1, File(s)));
  }
  lemma NorthOutside(s: Square)
    requires s >= 56
    ensures North(SquareToBitboard(s)) == Neighbor(s, 1, 0)
  {
    RankFileDecode(s);
    BitUpOff(s, 8);
  }

  lemma SouthOfSquare(s: Square)
    ensures South(SquareToBitboard(s)) == Neighbor(s, -1, 0)
  {
    if s >= 8 {
      SouthInside(s);
    } else {
      SouthOutside(s);
    }
  }
  lemma SouthInside(s: Square)
    requires s >= 8
    ensures South(SquareToBitboard(s)) == Neighbor(s, -1, 0)
  {
    RankFileDecode(s);
    NeighborIndex(s, -1, 0);
    BitDown8(s, GetSquare(Rank(s) - 1, File(s)));
  }
  lemma SouthOutside(s: Square)
    requires s < 8
    ensures South(SquareToBitboard(s)) == Neighbor(s, -1, 0)
  {
    RankFileDecode(s);
    BitDownOff(s, 8);
  }

  lemma EastOfSquare(s: Square)
    ensures East(SquareToBitboard(s)) == Neighbor(s, 0, 1)
  {
    if s % 8 != 7 {
      EastInside(s);
    } else {
      EastOutside(s);
    }
  }
  lemma EastInside(s: Square)
    requires s % 8 != 7
    ensures East(SquareToBitboard(s)) == Neighbor(s, 0, 1)
  {
    RankFileDecode(s);
    BitFileH(s);
    NeighborIndex(s, 0, 1);
    BitUp1(s, GetSquare(Rank(s), File(s) + 1));
  }
  lemma EastOutside(s: Square)
    requires s % 8 == 7
    ensures East(SquareToBitboard(s)) == Neighbor(s, 0, 1)
  {
    RankFileDecode(s);
    BitFileH(s);
  }

  lemma WestOfSquare(s: Square)
    ensures West(SquareToBitboard(s)) == Neighbor(s, 0, -1)
  {
    if s % 8 != 0 {
      WestInside(s);
    } else {
      WestOutside(s);
    }
  }
  lemma WestInside(s: Square)
    requires s % 8 != 0
    ensures West(SquareToBitboard(s)) == Neighbor(s, 0, -1)
  {
    RankFileDecode(s);
    BitFileA(s);
    NeighborIndex(s, 0, -1);
    BitDown1(s, GetSquare(Rank(s), File(s) - 1));
  }
  lemma WestOutside(s: Square)
    requires s % 8 == 0
    ensures West(SquareToBitboard(s)) == Neighbor(s, 0, -1)
  {
    RankFileDecode(s);
    BitFileA(s);
  }

  /** Shifting the bitboard of (r, f) moves it to the next rank or file, and
      what leaves the board is gone. */
  lemma NorthBitAt(r: int, f: int)
    requires r >= 0
    ensures North(BitAt(r, f)) == BitAt(r + 1, f)
  {
    if OnBoard(r, f) {
      GetSquareDecode(r, f);
      NorthOfSquare(GetSquare(r, f));
    }
  }
  lemma SouthBitAt(r: int, f: int)
    requires r < 8
    ensures South(BitAt(r, f)) == BitAt(r - 1, f)
  {
    if OnBoard(r, f) {
      GetSquareDecode(r, f);
      SouthOfSquare(GetSquare(r, f));
    }
  }
  lemma EastBitAt(r: int, f: int)
    requires f >= 0
    ensures East(BitAt(r, f)) == BitAt(r, f + 1)
  {
    if OnBoard(r, f) {
      GetSquareDecode(r, f);
      EastOfSquare(GetSquare(r, f));
    }
  }
  lemma WestBitAt(r: int, f: int)
    requires f < 8
    ensures West(BitAt(r, f)) == BitAt(r, f - 1)
  {
    if OnBoard(r, f) {
      GetSquareDecode(r, f);
      WestOfSquare(GetSquare(r, f));
    }
  }

  /** One more step north, south, east or west of a neighbour, moving away
      from the start square. */
  lemma NorthStep(s: Square, dr: int, df: int)
    requires dr >= 0
    ensures North(Neighbor(s, dr, df)) == Neighbor(s, dr + 1, df)
  {
    NorthBitAt(Rank(s) + dr, File(s) + df);
  }
  lemma SouthStep(s: Square, dr: int, df: int)
    requires dr <= 0
    ensures South(Neighbor(s, dr, df)) == Neighbor(s, dr - 1, df)
  {
    SouthBitAt(Rank(s) + dr, File(s) + df);
  }
  lemma EastStep(s: Square, dr: int, df: int)
    requires df >= 0
    ensures East(Neighbor(s, dr, df)) == Neighbor(s, dr, df + 1)
  {
    EastBitAt(Rank(s) + dr, File(s) + df);
  }
  lemma WestStep(s: Square, dr: int, df: int)
    requires df <= 0
    ensures West(Neighbor(s, dr, df)) == Neighbor(s, dr, df - 1)
  {
    WestBitAt(Rank(s) + dr, File(s) + df);
  }

  /** The bitboard of (r, f) holds exactly the square on that rank and file. */
  lemma HasBitAt(r: int, f: int, t: Square)
    ensures Has(BitAt(r, f), t) <==> Rank(t) == r && File(t) == f
  {
    RankFileDecode(t);
    if OnBoard(r, f) {
      GetSquareDecode(r, f);
      HasSquare(GetSquare(r, f), t);
    }
  }

  lemma HasNeighbor(s: Square, dr: int, df: int, t: Square)
    ensures Has(Neighbor(s, dr, df), t) <==> Rank(t) - Rank(s) == dr && File(t) - File(s) == df
  {
    HasBitAt(Rank(s) + dr, File(s) + df, t);
  }

  // ---------------------------------------------------------------------------
  // Set squares, population count and the lowest set bit

  /** The set squares of `b` at index `k` or above, in increasing order. */
  function SquaresFrom(b: Bitboard, k: bv8): seq<Square>
    requires k <= 64
    decreases 64 - k as int
  {
    if k == 64 then []
    else (if Has(b, k) then [k] else []) + SquaresFrom(b, k + 1)
  }

  function SetSquares(b: Bitboard): seq<Square>
  {
    SquaresFrom(b, 0)
  }

  /** Population count: how many squares the bitboard holds. */
  function PopCount(b: Bitboard): nat
  {
    |SetSquares(b)|
  }

  lemma {:induction false} SquaresFromContents(b: Bitboard, k: bv8)
    requires k <= 64
    ensures forall t: Square :: t in SquaresFrom(b, k) <==> k <= t && Has(b, t)
    decreases 64 - k as int
  {
    if k < 64 {
      SquaresFromContents(b, k + 1);
    }
  }

  lemma {:induction false} SquaresFromSorted(b: Bitboard, k: bv8)
    requires k <= 64
    ensures forall i, j :: 0 <= i < j < |SquaresFrom(b, k)| ==> SquaresFrom(b, k)[i] < SquaresFrom(b, k)[j]
    decreases 64 - k as int
  {
    if k < 64 {
      SquaresFromSorted(b, k + 1);
      SquaresFromContents(b, k + 1);
      var all := SquaresFrom(b, k);
      var rest := SquaresFrom(b, k + 1);
      forall i, j | 0 <= i < j < |all| ensures all[i] < all[j] {
        if Has(b, k) && i == 0 {
          assert all[j] == rest[j - 1];
          assert all[j] in rest;
        }
      }
    }
  }

  /** SetSquares lists exactly the squares of `b`, strictly increasing. */
  lemma SetSquaresSpec(b: Bitboard)
    ensures forall t: Square :: t in SetSquares(b) <==> Has(b, t)
    ensures forall i, j :: 0 <= i < j < |SetSquares(b)| ==> SetSquares(b)[i] < SetSquares(b)[j]
  {
    SquaresFromContents(b, 0);
    SquaresFromSorted(b, 0);
  }

  /** At most one entry per square from `k` up, and fewer when one of those
      squares is missing. */
  lemma {:induction false} SquaresFromLength(b: Bitboard, k: bv8, t: Square)
    requires k <= 64
    ensures |SquaresFrom(b, k)| <= 64 - k as int
    ensures k <= t && !Has(b, t) ==> |SquaresFrom(b, k)| < 64 - k as int
    decreases 64 - k as int
  {
    if k < 64 {
      SquaresFromLength(b, k + 1, t);
    }
  }

  /** A board that misses a square has fewer than 64 squares. */
  lemma PopCountMissing(b: Bitboard, t: Square)
    requires !Has(b, t)
    ensures PopCount(b) < 64
  {
    SquaresFromLength(b, 0, t);
  }

  lemma SquaresFromStep(b: Bitboard, k: bv8)
    requires k < 64
    ensures |SquaresFrom(b, k)| == (if Has(b, k) then 1 else 0) + |SquaresFrom(b, k + 1)|
  {
  }

  lemma AddStep(x: Bitboard, s: Square, k: bv8)
    requires k < 64 && !Has(x, s)
    ensures |SquaresFrom(SquareToBitboard(s) | x, k)| - |SquaresFrom(SquareToBitboard(s) | x, k + 1)|
         == |SquaresFrom(x, k)| - |SquaresFrom(x, k + 1)| + (if k == s then 1 else 0)
  {
    SquaresFromStep(x, k);
    SquaresFromStep(SquareToBitboard(s) | x, k);
    HasSquareOr(s, x, k);
  }

  lemma {:induction false} SquaresFromAdd(x: Bitboard, s: Square, k: bv8)
    requires k <= 64 && !Has(x, s)
    ensures |SquaresFrom(SquareToBitboard(s) | x, k)| == |SquaresFrom(x, k)| + (if k <= s then 1 else 0)
    decreases 64 - k as int
  {
    if k < 64 {
      SquaresFromAdd(x, s, k + 1);
      AddStep(x, s, k);
    }
  }

  /** Adding a square the board lacks raises its count by one. */
  lemma PopCountAdd(x: Bitboard, s: Square)
    requires !Has(x, s)
    ensures PopCount(SquareToBitboard(s) | x) == PopCount(x) + 1
  {
    SquaresFromAdd(x, s, 0);
  }

  /** At most one of four boards holds `t`. */
  predicate Exclusive(a: Bitboard, b: Bitboard, c: Bitboard, d: Bitboard, t: Square)
  {
    !(Has(a, t) && Has(b, t)) && !(Has(a, t) && Has(c, t)) && !(Has(a, t) && Has(d, t))
    && !(Has(b, t) && Has(c, t)) && !(Has(b, t) && Has(d, t)) && !(Has(c, t) && Has(d, t))
  }

  lemma UnionStep(a: Bitboard, b: Bitboard, c: Bitboard, d: Bitboard, k: bv8)
    requires k < 64 && Exclusive(a, b, c, d, k)
    ensures |SquaresFrom(a | b | c | d, k)| - |SquaresFrom(a | b | c | d, k + 1)|
         == |SquaresFrom(a, k)| - |SquaresFrom(a, k + 1)| + |SquaresFrom(b, k)| - |SquaresFrom(b, k + 1)|
          + |SquaresFrom(c, k)| - |SquaresFrom(c, k + 1)| + |SquaresFrom(d, k)| - |SquaresFrom(d, k + 1)|
  {
    SquaresFromStep(a, k);
    SquaresFromStep(b, k);
    SquaresFromStep(c, k);
    SquaresFromStep(d, k);
    SquaresFromStep(a | b | c | d, k);
    HasOr4(a, b, c, d, k);
  }

  lemma {:induction false} SquaresFromUnion(a: Bitboard, b: Bitboard, c: Bitboard, d: Bitboard, k: bv8)
    requires k <= 64 && forall t: Square :: Exclusive(a, b, c, d, t)
    ensures |SquaresFrom(a | b | c | d, k)|
         == |SquaresFrom(a, k)| + |SquaresFrom(b, k)| + |SquaresFrom(c, k)| + |SquaresFrom(d, k)|
    decreases 64 - k as int
  {
    if k < 64 {
      SquaresFromUnion(a, b, c, d, k + 1);
      UnionStep(a, b, c, d, k);
    }
  }

  /** The count of a union of four boards no two of which share a square is
      the sum of their counts. */
  lemma PopCountUnion(a: Bitboard, b: Bitboard, c: Bitboard, d: Bitboard)
    requires forall t: Square :: Exclusive(a, b, c, d, t)
    ensures PopCount(a | b | c | d) == PopCount(a) + PopCount(b) + PopCount(c) + PopCount(d)
  {
    SquaresFromUnion(a, b, c, d, 0);
  }

  lemma PopCountEqual(a: Bitboard, b: Bitboard)
    requires a == b
    ensures PopCount(a) == PopCount(b)
  {
  }

  /** Bits of `b` strictly below square `k`. */
  function Below(k: Square): Bitboard
  {
    SquareToBitboard(k) - 1
  }

  lemma BelowStep(b: Bitboard, k: Square)
    requires b & Below(k) == 0 && !Has(b, k)
    ensures k < 63 ==> b & Below(k + 1) == 0
    ensures k == 63 ==> b == 0
  {}

  /** Search upward from `k` for the first set square. */
  function LowestFrom(b: Bitboard, k: Square): (l: Square)
    requires b != 0 && b & Below(k) == 0
    ensures Has(b, l) && b & Below(l) == 0
    decreases 64 - k as int
  {
    if Has(b, k) then k
    else
      BelowStep(b, k);
      LowestFrom(b, k + 1)
  }

  /** The lowest set square of a nonempty board. */
  function LowestSquare(b: Bitboard): (l: Square)
    requires b != 0
    ensures Has(b, l)
    ensures forall t: Square :: t < l ==> !Has(b, t)
  {
    var l := LowestFrom(b, 0);
    forall t: Square | t < l ensures !Has(b, t) { NothingBelow(b, l, t); }
    l
  }

  lemma NothingBelow(b: Bitboard, l: Square, t: Square)
    requires b & Below(l) == 0 && t < l
    ensures !Has(b, t)
  {}

  lemma HasXor(a: Bitboard, b: Bitboard, t: Square)
    ensures Has(a ^ b, t) <==> Has(a, t) != Has(b, t)
  {
  }

  /** Two bitboards holding the same squares are equal: otherwise their
      lowest differing square tells them apart. */
  lemma BitboardExt(a: Bitboard, b: Bitboard)
    requires forall t: Square :: Has(a, t) == Has(b, t)
    ensures a == b
  {
    var diff := a ^ b;
    forall t: Square
      ensures !Has(diff, t)
    {
      HasXor(a, b, t);
    }
    if a != b {
      var l := LowestSquare(diff);
      assert false;
    }
  }

  lemma {:induction false} SquaresFromAgree(a: Bitboard, c: Bitboard, k: bv8)
    requires k <= 64
    requires forall t: Square :: k <= t ==> (Has(a, t) <==> Has(c, t))
    ensures SquaresFrom(a, k) == SquaresFrom(c, k)
    decreases 64 - k as int
  {
    if k < 64 {
      SquaresFromAgree(a, c, k + 1);
    }
  }

  lemma {:induction false} SquaresFromSkip(b: Bitboard, k: bv8, j: bv8)
    requires k <= j <= 64
    requires forall t: Square :: k <= t < j ==> !Has(b, t)
    ensures SquaresFrom(b, k) == SquaresFrom(b, j)
    decreases j as int - k as int
  {
    if k < j {
      SquaresFromSkip(b, k + 1, j);
    }
  }

  /** The lowest-bit facts in bit-vector form. */
  lemma LowestBits(b: Bitboard, l: Square)
    requires Has(b, l) && b & Below(l) == 0
    ensures b & -b == SquareToBitboard(l)
    ensures b & (b - 1) == b & !SquareToBitboard(l)
  {}

  lemma HasClear(b: Bitboard, l: Square, t: Square)
    ensures Has(b & !SquareToBitboard(l), t) <==> Has(b, t) && t != l
  {}

  lemma ListWithout(b: Bitboard, c: Bitboard, l: Square)
    requires Has(b, l)
    requires forall t: Square :: t < l ==> !Has(b, t)
    requires forall t: Square :: Has(c, t) <==> Has(b, t) && t != l
    ensures SetSquares(b) == [l] + SetSquares(c)
  {
    var next: bv8 := l as bv8 + 1;
    SquaresFromSkip(b, 0, l);
    SquaresFromSkip(c, 0, next);
    SquaresFromAgree(b, c, next);
  }

  /** Clearing the lowest bit drops exactly the first listed square. */
  lemma ClearLowest(b: Bitboard)
    requires b != 0
    ensures SetSquares(b) == [LowestSquare(b)] + SetSquares(b & (b - 1))
  {
    var l := LowestSquare(b);
    var c := b & (b - 1);
    LowestBits(b, l);
    forall t: Square ensures Has(c, t) <==> Has(b, t) && t != l { HasClear(b, l, t); }
    ListWithout(b, c, l);
  }

  /** Isolates the lowest set bit (two's-complement negation). */
  function LSB(b: Bitboard): Bitboard
  {
    b & -b
  }

  /** `LSB` keeps exactly the lowest set square, and is 0 on the empty board. */
  lemma LSBIsLowestBit(b: Bitboard)
    ensures b == 0 ==> LSB(b) == 0
    ensures b != 0 ==> LSB(b) == SquareToBitboard(LowestSquare(b))
  {
    if b != 0 {
      LowestBits(b, LowestSquare(b));
    }
  }

  lemma {:induction false} SquaresFromEmpty(k: bv8)
    requires k <= 64
    ensures SquaresFrom(0, k) == []
    decreases 64 - k as int
  {
    if k < 64 {
      SquaresFromEmpty(k + 1);
    }
  }

  /** Only the empty board has population count 0. */
  lemma PopCountZero(b: Bitboard)
    ensures PopCount(b) == 0 <==> b == 0
  {
    if b != 0 {
      ClearLowest(b);
    } else {
      SquaresFromEmpty(0);
    }
  }

  /** Counts set bits by clearing the lowest one until none is left; the
      loop runs once per set bit. */
  method SetBitsCount(bitboard: Bitboard) returns (count: nat)
    ensures count == PopCount(bitboard)
  {
    count := 0;
    var b := bitboard;
    while b != 0
      invariant count + PopCount(b) == PopCount(bitboard)
      decreases PopCount(b)
    {
      ClearLowest(b);
      b := b & (b - 1);
      count := count + 1;
    }
    PopCountZero(b);
  }

  // ---------------------------------------------------------------------------
  // De Bruijn bit scan

  const kDeBruijnMagic: Bitboard := 0x03F79D71B4CB0A89

  const kDeBruijn: seq<Square> :=
    [ 0,  1, 48,  2, 57, 49, 28,  3] +
    [61, 58, 50, 42, 38, 29, 17,  4] +
    [62, 55, 59, 36, 53, 51, 43, 22] +
    [45, 39, 33, 30, 24, 18, 12,  5] +
    [63, 47, 56, 27, 60, 41, 37, 16] +
    [54, 35, 52, 21, 44, 32, 23, 11] +
    [46, 26, 40, 15, 34, 20, 31, 10] +
    [25, 14, 19,  9, 13,  8,  7,  6]

  lemma ShiftBound(x: Bitboard)
    ensures x >> 58 < 64
  {}

  function DeBruijnEntry(h: Bitboard): Square
    requires h < 64
  {
    kDeBruijn[h as int]
  }

  /** Log2 of a single-bit board via a De Bruijn multiply; other inputs give
      some square. Its meaning is stated by `BitboardToSquareInverts`. */
  function BitboardToSquare(b: Bitboard): Square
  {
    ShiftBound(b * kDeBruijnMagic);
    DeBruijnEntry((b * kDeBruijnMagic) >> 58)
  }

  /** The index of the lowest set bit; square 0 (A1) for the empty board,
      as the table's entry 0 is 0. */
  function LSBSquare(b: Bitboard): Square
  {
    BitboardToSquare(LSB(b))
  }

  /** `LSBSquare` names the lowest set square. */
  lemma LSBSquareIsLowest(b: Bitboard)
    ensures b != 0 ==> LSBSquare(b) == LowestSquare(b)
    ensures b == 0 ==> LSBSquare(b) == 0
  {
    LSBIsLowestBit(b);
    if b != 0 {
      BitboardToSquareInverts(LowestSquare(b));
    }
  }

  lemma InvertsRank1(s: Square)
    requires 0 <= s < 8
    ensures BitboardToSquare(SquareToBitboard(s)) == s
  {
    if s == 0 { assert BitboardToSquare(SquareToBitboard(0)) == 0; }
    else if s == 1 { assert BitboardToSquare(SquareToBitboard(1)) == 1; }
    else if s == 2 { assert BitboardToSquare(SquareToBitboard(2)) == 2; }
    else if s == 3 { assert BitboardToSquare(SquareToBitboard(3)) == 3; }
    else if s == 4 { assert BitboardToSquare(SquareToBitboard(4)) == 4; }
    else if s == 5 { assert BitboardToSquare(SquareToBitboard(5)) == 5; }
    else if s == 6 { assert BitboardToSquare(SquareToBitboard(6)) == 6; }
    else { assert BitboardToSquare(SquareToBitboard(7)) == 7; }
  }

  lemma InvertsRank2(s: Square)
    requires 8 <= s < 16
    ensures BitboardToSquare(SquareToBitboard(s)) == s
  {
    if s == 8 { assert BitboardToSquare(SquareToBitboard(8)) == 8; }
    else if s == 9 { assert BitboardToSquare(SquareToBitboard(9)) == 9; }
    else if s == 10 { assert BitboardToSquare(SquareToBitboard(10)) == 10; }
    else if s == 11 { assert BitboardToSquare(SquareToBitboard(11)) == 11; }
    else if s == 12 { assert BitboardToSquare(SquareToBitboard(12)) == 12; }
    else if s == 13 { assert BitboardToSquare(SquareToBitboard(13)) == 13; }
    else if s == 14 { assert BitboardToSquare(SquareToBitboard(14)) == 14; }
    else { assert BitboardToSquare(SquareToBitboard(15)) == 15; }
  }

  lemma InvertsRank3(s: Square)
    requires 16 <= s < 24
    ensures BitboardToSquare(SquareToBitboard(s)) == s
  {
    if s == 16 { assert BitboardToSquare(SquareToBitboard(16)) == 16; }
    else if s == 17 { assert BitboardToSquare(SquareToBitboard(17)) == 17; }
    else if s == 18 { assert BitboardToSquare(SquareToBitboard(18)) == 18; }
    else if s == 19 { assert BitboardToSquare(SquareToBitboard(19)) == 19; }
    else if s == 20 { assert BitboardToSquare(SquareToBitboard(20)) == 20; }
    else if s == 21 { assert BitboardToSquare(SquareToBitboard(21)) == 21; }
    else if s == 22 { assert BitboardToSquare(SquareToBitboard(22)) == 22; }
    else { assert BitboardToSquare(SquareToBitboard(23)) == 23; }
  }

  lemma InvertsRank4(s: Square)
    requires 24 <= s < 32
    ensures BitboardToSquare(SquareToBitboard(s)) == s
  {
    if s == 24 { assert BitboardToSquare(SquareToBitboard(24)) == 24; }
    else if s == 25 { assert BitboardToSquare(SquareToBitboard(25)) == 25; }
    else if s == 26 { assert BitboardToSquare(SquareToBitboard(26)) == 26; }
    else if s == 27 { assert BitboardToSquare(SquareToBitboard(27)) == 27; }
    else if s == 28 { assert BitboardToSquare(SquareToBitboard(28)) == 28; }
    else if s == 29 { assert BitboardToSquare(SquareToBitboard(29)) == 29; }
    else if s == 30 { assert BitboardToSquare(SquareToBitboard(30)) == 30; }
    else { assert BitboardToSquare(SquareToBitboard(31)) == 31; }
  }

  lemma InvertsRank5(s: Square)
    requires 32 <= s < 40
    ensures BitboardToSquare(SquareToBitboard(s)) == s
  {
    if s == 32 { assert BitboardToSquare(SquareToBitboard(32)) == 32; }
    else if s == 33 { assert BitboardToSquare(SquareToBitboard(33)) == 33; }
    else if s == 34 { assert BitboardToSquare(SquareToBitboard(34)) == 34; }
    else if s == 35 { assert BitboardToSquare(SquareToBitboard(35)) == 35; }
    else if s == 36 { assert BitboardToSquare(SquareToBitboard(36)) == 36; }
    else if s == 37 { assert BitboardToSquare(SquareToBitboard(37)) == 37; }
    else if s == 38 { assert BitboardToSquare(SquareToBitboard(38)) == 38; }
    else { assert BitboardToSquare(SquareToBitboard(39)) == 39; }
  }

  lemma InvertsRank6(s: Square)
    requires 40 <= s < 48
    ensures BitboardToSquare(SquareToBitboard(s)) == s
  {
    if s == 40 { assert BitboardToSquare(SquareToBitboard(40)) == 40; }
    else if s == 41 { assert BitboardToSquare(SquareToBitboard(41)) == 41; }
    else if s == 42 { assert BitboardToSquare(SquareToBitboard(42)) == 42; }
    else if s == 43 { assert BitboardToSquare(SquareToBitboard(43)) == 43; }
    else if s == 44 { assert BitboardToSquare(SquareToBitboard(44)) == 44; }
    else if s == 45 { assert BitboardToSquare(SquareToBitboard(45)) == 45; }
    else if s == 46 { assert BitboardToSquare(SquareToBitboard(46)) == 46; }
    else { assert BitboardToSquare(SquareToBitboard(47)) == 47; }
  }

  lemma InvertsRank7(s: Square)
    requires 48 <= s < 56
    ensures BitboardToSquare(SquareToBitboard(s)) == s
  {
    if s == 48 { assert BitboardToSquare(SquareToBitboard(48)) == 48; }
    else if s == 49 { assert BitboardToSquare(SquareToBitboard(49)) == 49; }
    else if s == 50 { assert BitboardToSquare(SquareToBitboard(50)) == 50; }
    else if s == 51 { assert BitboardToSquare(SquareToBitboard(51)) == 51; }
    else if s == 52 { assert BitboardToSquare(SquareToBitboard(52)) == 52; }
    else if s == 53 { assert BitboardToSquare(SquareToBitboard(53)) == 53; }
    else if s == 54 { assert BitboardToSquare(SquareToBitboard(54)) == 54; }
    else { assert BitboardToSquare(SquareToBitboard(55)) == 55; }
  }

  lemma InvertsRank8(s: Square)
    requires 56 <= s < 64
    ensures BitboardToSquare(SquareToBitboard(s)) == s
  {
    if s == 56 { assert BitboardToSquare(SquareToBitboard(56)) == 56; }
    else if s == 57 { assert BitboardToSquare(SquareToBitboard(57)) == 57; }
    else if s == 58 { assert BitboardToSquare(SquareToBitboard(58)) == 58; }
    else if s == 59 { assert BitboardToSquare(SquareToBitboard(59)) == 59; }
    else if s == 60 { assert BitboardToSquare(SquareToBitboard(60)) == 60; }
    else if s == 61 { assert BitboardToSquare(SquareToBitboard(61)) == 61; }
    else if s == 62 { assert BitboardToSquare(SquareToBitboard(62)) == 62; }
    else { assert BitboardToSquare(SquareToBitboard(63)) == 63; }
  }

  /** The De Bruijn table inverts `SquareToBitboard` on all 64 squares. */
  lemma BitboardToSquareInverts(s: Square)
    ensures BitboardToSquare(SquareToBitboard(s)) == s
  {
    if s < 8 { InvertsRank1(s); }
    else if s < 16 { InvertsRank2(s); }
    else if s < 24 { InvertsRank3(s); }
    else if s < 32 { InvertsRank4(s); }
    else if s < 40 { InvertsRank5(s); }
    else if s < 48 { InvertsRank6(s); }
    else if s < 56 { InvertsRank7(s); }
    else { InvertsRank8(s); }
  }

  // ---------------------------------------------------------------------------
  // Bitboards built from lists of squares

  /** The squares listed in `l`, as a bitboard. */
  function FromSquares(l: seq<Square>): Bitboard
  {
    if |l| == 0 then 0 else FromSquares(l[..|l| - 1]) | SquareToBitboard(l[|l| - 1])
  }

  lemma FromSquaresAppend(l: seq<Square>, x: Square)
    ensures FromSquares(l + [x]) == FromSquares(l) | SquareToBitboard(x)
  {
    assert (l + [x])[..|l|] == l;
  }

  lemma FromSquaresLast(l: seq<Square>, t: Square)
    requires |l| > 0
    ensures Has(FromSquares(l), t) <==> Has(FromSquares(l[..|l| - 1]), t) || t == l[|l| - 1]
  {
    HasOr(FromSquares(l[..|l| - 1]), SquareToBitboard(l[|l| - 1]), t);
    HasSquare(l[|l| - 1], t);
  }

  /** The bitboard holds exactly the listed squares. */
  lemma {:induction false} FromSquaresHas(l: seq<Square>, t: Square)
    ensures Has(FromSquares(l), t) <==> t in l
  {
    if |l| > 0 {
      FromSquaresHas(l[..|l| - 1], t);
      FromSquaresLast(l, t);
      assert l == l[..|l| - 1] + [l[|l| - 1]];
    }
  }

  // ---------------------------------------------------------------------------
  // Precomputed per-square tables

  /** Entries offset, ..., offset + n - 1 of `table` hold `entry` of squares
      0, ..., n - 1. */
  predicate Tabulates(table: seq<Bitboard>, offset: int, n: int, entry: Square -> Bitboard)
    requires 0 <= offset && 0 <= n <= 64 && offset + n <= |table|
  {
    forall k :: 0 <= k < n ==> table[offset + k] == entry(SquareAt(k))
  }

  /** Writing the entry of square n extends the tabulated range by one. */
  lemma TabulatesStep(before: seq<Bitboard>, after: seq<Bitboard>, offset: int, n: int, entry: Square -> Bitboard)
    requires 0 <= offset && 0 <= n < 64 && offset + n < |before|
    requires Tabulates(before, offset, n, entry)
    requires after == before[offset + n := entry(SquareAt(n))]
    ensures Tabulates(after, offset, n + 1, entry)
  {
  }

  /** Writing outside the tabulated range keeps it. */
  lemma TabulatesKeep(before: seq<Bitboard>, after: seq<Bitboard>, offset: int, n: int,
                      entry: Square -> Bitboard, i: int, v: Bitboard)
    requires 0 <= offset && 0 <= n <= 64 && offset + n <= |before|
    requires 0 <= i < |before| && (i < offset || offset + n <= i)
    requires Tabulates(before, offset, n, entry)
    requires after == before[i := v]
    ensures Tabulates(after, offset, n, entry)
  {
  }
}
