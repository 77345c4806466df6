/**
 * The castling table: for each castling right, where king and rook start and
 * land, which squares must be empty and which must not be attacked. The table
 * has sixteen entries so that it can be indexed by a castling flag; only the
 * four flag values 1, 2, 4 and 8 carry data.
 */
module Castling {
  import opened Types
  import opened Blockers

  datatype CastleInfo = CastleInfo(
    kingOrigin: Bitboard,
    kingDestination: Bitboard,
    rookOrigin: Bitboard,
    rookDestination: Bitboard,
    neededEmpty: Bitboard,  // squares that must be empty
    neededSafe: Bitboard    // squares that must not be attacked
  )

  const A1: Square := 0
  const B1: Square := 1
  const C1: Square := 2
  const D1: Square := 3
  const E1: Square := 4
  const F1: Square := 5
  const G1: Square := 6
  const H1: Square := 7
  const A8: Square := 56
  const B8: Square := 57
  const C8: Square := 58
  const D8: Square := 59
  const E8: Square := 60
  const F8: Square := 61
  const G8: Square := 62
  const H8: Square := 63

  /** An entry no castling flag selects. */
  const Unused: CastleInfo := CastleInfo(0, 0, 0, 0, 0, 0)

  const WhiteQueenSideInfo: CastleInfo := CastleInfo(
    SquareToBitboard(E1), SquareToBitboard(C1),
    SquareToBitboard(A1), SquareToBitboard(D1),
    SquareToBitboard(B1) | SquareToBitboard(C1) | SquareToBitboard(D1),
    SquareToBitboard(C1) | SquareToBitboard(D1))

  const WhiteKingSideInfo: CastleInfo := CastleInfo(
    SquareToBitboard(E1), SquareToBitboard(G1),
    SquareToBitboard(H1), SquareToBitboard(F1),
    SquareToBitboard(F1) | SquareToBitboard(G1),
    SquareToBitboard(F1) | SquareToBitboard(G1))

  const BlackQueenSideInfo: CastleInfo := CastleInfo(
    SquareToBitboard(E8), SquareToBitboard(C8),
    SquareToBitboard(A8), SquareToBitboard(D8),
    SquareToBitboard(B8) | SquareToBitboard(C8) | SquareToBitboard(D8),
    SquareToBitboard(C8) | SquareToBitboard(D8))

  const BlackKingSideInfo: CastleInfo := CastleInfo(
    SquareToBitboard(E8), SquareToBitboard(G8),
    SquareToBitboard(H8), SquareToBitboard(F8),
    SquareToBitboard(F8) | SquareToBitboard(G8),
    SquareToBitboard(F8) | SquareToBitboard(G8))

  /** The table, indexed by castling flag. */
  const kCastleInfo: seq<CastleInfo> := [
    Unused, WhiteQueenSideInfo, WhiteKingSideInfo, Unused,
    BlackQueenSideInfo, Unused, Unused, Unused,
    BlackKingSideInfo, Unused, Unused, Unused,
    Unused, Unused, Unused, Unused]

  /** The entry of a castling right: the one its flag indexes. */
  function InfoOf(c: Castle): (info: CastleInfo)
    ensures info == kCastleInfo[CastleFlag(c) as int]
  {
    match c
    case WhiteQueenSide => WhiteQueenSideInfo
    case WhiteKingSide => WhiteKingSideInfo
    case BlackQueenSide => BlackQueenSideInfo
    case BlackKingSide => BlackKingSideInfo
  }

  predicate IsWhite(c: Castle)
  {
    c == WhiteQueenSide || c == WhiteKingSide
  }

  predicate IsKingSide(c: Castle)
  {
    c == WhiteKingSide || c == BlackKingSide
  }

  /** The rank a side's king and rooks start on. */
  function HomeRank(c: Castle): Bitboard
  {
    if IsWhite(c) then kRank1 else kRank8
  }

  /** Every used entry is consistent: the squares that must be safe must also
      be empty, the king lands on a square that must be safe, the rook lands
      on a square that must be empty, neither piece's start square is required
      empty, and all four squares are on the side's home rank. */
  lemma CastleInfoConsistent(c: Castle)
    ensures SubsetOf(InfoOf(c).neededSafe, InfoOf(c).neededEmpty)
    ensures SubsetOf(InfoOf(c).kingDestination, InfoOf(c).neededSafe)
    ensures SubsetOf(InfoOf(c).rookDestination, InfoOf(c).neededEmpty)
    ensures InfoOf(c).kingOrigin & InfoOf(c).neededEmpty == 0
    ensures InfoOf(c).rookOrigin & InfoOf(c).neededEmpty == 0
    ensures SubsetOf(InfoOf(c).kingOrigin | InfoOf(c).kingDestination
                     | InfoOf(c).rookOrigin | InfoOf(c).rookDestination, HomeRank(c))
  {
  }

  /** The geometry of the entries: the king leaves the e-file two files
      towards its rook, which lands on the square the king crosses; the
      squares to keep safe are exactly the two the king crosses and lands on. */
  lemma CastleInfoGeometry(c: Castle)
    ensures InfoOf(c).kingOrigin == SquareToBitboard(if IsWhite(c) then E1 else E8)
    ensures InfoOf(c).kingDestination
         == SquareToBitboard(if IsWhite(c) then (if IsKingSide(c) then G1 else C1)
                             else (if IsKingSide(c) then G8 else C8))
    ensures InfoOf(c).rookOrigin
         == SquareToBitboard(if IsWhite(c) then (if IsKingSide(c) then H1 else A1)
                             else (if IsKingSide(c) then H8 else A8))
    ensures InfoOf(c).rookDestination
         == SquareToBitboard(if IsWhite(c) then (if IsKingSide(c) then F1 else D1)
                             else (if IsKingSide(c) then F8 else D8))
    ensures InfoOf(c).neededSafe == InfoOf(c).kingDestination | InfoOf(c).rookDestination
  {
  }

  /** Only the four flag values carry an entry. */
  lemma UnusedEntries(i: int)
    requires 0 <= i < 16 && i != 1 && i != 2 && i != 4 && i != 8
    ensures kCastleInfo[i] == Unused
  {
  }
}
