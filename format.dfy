/**
 * Text forms: a square as "e4", a promotion piece as its letter, a move as
 * origin, destination and an optional "=piece", and a bitboard as an 8 x 8
 * grid of 'O' (set) and '-' (clear), rank 8 on top and file A on the left.
 */
module Format {
  import opened Types

  // ---------------------------------------------------------------------------
  // Decimal numbers

  function DigitChar(d: int): char
    requires 0 <= d < 10
  {
    ('0' as int + d) as char
  }

  predicate IsDigit(c: char)
  {
    '0' <= c <= '9'
  }

  function DigitValue(c: char): int
  {
    c as int - '0' as int
  }

  /** The decimal form of `n`, as a stream insertion of an integer writes it. */
  function DecimalString(n: nat): (s: string)
    ensures |s| >= 1 && forall i :: 0 <= i < |s| ==> IsDigit(s[i])
    decreases n
  {
    if n < 10 then [DigitChar(n)] else DecimalString(n / 10) + [DigitChar(n % 10)]
  }

  // ---------------------------------------------------------------------------
  // Squares

  function FileChar(f: int): char
    requires 0 <= f < 8
  {
    ('a' as int + f) as char
  }

  /** A square as its file letter followed by its rank number. */
  function SquareString(s: Square): string
  {
    RankFileDecode(s);
    [FileChar(File(s))] + DecimalString(Rank(s) + 1)
  }

  /** A square prints as two characters: a file letter 'a'..'h' naming its
      file and a rank digit '1'..'8' naming its rank. */
  lemma SquareStringShape(s: Square)
    ensures |SquareString(s)| == 2
    ensures 'a' <= SquareString(s)[0] <= 'h' && SquareString(s)[0] as int - 'a' as int == File(s)
    ensures '1' <= SquareString(s)[1] <= '8' && SquareString(s)[1] as int - '1' as int == Rank(s)
  {
    RankFileDecode(s);
  }

  // ---------------------------------------------------------------------------
  // Promotion pieces and moves

  /** The pieces a pawn can promote to; any other value of the enum is
      `Unlisted`. */
  datatype PromotionPieceType = PromoteKnight | PromoteBishop | PromoteRook | PromoteQueen | Unlisted(code: int)

  /** The move kinds; only promotion is told apart when printing. */
  datatype MoveType = Promotion | OtherMoveType(code: int)

  datatype Move = Move(origin: Square, destination: Square, moveType: MoveType, promotion: PromotionPieceType)

  function PromotionChar(p: PromotionPieceType): char
  {
    match p
    case PromoteKnight => 'n'
    case PromoteBishop => 'b'
    case PromoteRook => 'r'
    case PromoteQueen => 'q'
    case Unlisted(_) => '?'
  }

  /** The four promotion pieces print as distinct letters among n, b, r, q,
      and every other value prints as '?'. */
  lemma PromotionCharCases(p: PromotionPieceType, q: PromotionPieceType)
    ensures PromotionChar(p) == '?' <==> p.Unlisted?
    ensures !p.Unlisted? ==> PromotionChar(p) in "nbrq"
    ensures !p.Unlisted? && !q.Unlisted? && PromotionChar(p) == PromotionChar(q) ==> p == q
  {
  }

  /** A move: origin, destination, then "=" and the piece for a promotion. */
  function MoveString(m: Move): string
  {
    SquareString(m.origin) + SquareString(m.destination)
    + (if m.moveType == Promotion then "=" + [PromotionChar(m.promotion)] else "")
  }

  /** The square named by a file letter and a rank digit. */
  function ParseSquare(file: char, rank: char): int
  {
    8 * (rank as int - '1' as int) + (file as int - 'a' as int)
  }

  /** Reading a square back from its text gives the square. */
  lemma SquareStringParses(s: Square)
    ensures ParseSquare(SquareString(s)[0], SquareString(s)[1]) == s as int
  {
    SquareStringShape(s);
    RankFileDecode(s);
  }

  /** A printed move is 4 characters long, or 6 for a promotion; its first
      four characters give back origin and destination, and the last
      character of a promotion gives back the piece. */
  lemma MoveStringParses(m: Move)
    ensures |MoveString(m)| == (if m.moveType == Promotion then 6 else 4)
    ensures ParseSquare(MoveString(m)[0], MoveString(m)[1]) == m.origin as int
    ensures ParseSquare(MoveString(m)[2], MoveString(m)[3]) == m.destination as int
    ensures m.moveType == Promotion ==> MoveString(m)[4] == '=' && MoveString(m)[5] == PromotionChar(m.promotion)
  {
    SquareStringShape(m.origin);
    SquareStringShape(m.destination);
    SquareStringParses(m.origin);
    SquareStringParses(m.destination);
  }

  // ---------------------------------------------------------------------------
  // The bitboard grid

  /** The character for rank `r`, file `f`. */
  function Cell(b: Bitboard, r: int, f: int): char
    requires OnBoard(r, f)
  {
    if Has(b, GetSquare(r, f)) then 'O' else '-'
  }

  /** The first `n` cells of rank `r`, file A first. */
  function CellsUpTo(b: Bitboard, r: int, n: int): string
    requires 0 <= r < 8 && 0 <= n <= 8
  {
    if n == 0 then [] else CellsUpTo(b, r, n - 1) + [Cell(b, r, n - 1)]
  }

  /** The first `n` lines of the grid: ranks 8, 7, ..., 9 - n, each ended by
      a newline. */
  function Lines(b: Bitboard, n: int): string
    requires 0 <= n <= 8
  {
    if n == 0 then [] else Lines(b, n - 1) + CellsUpTo(b, 7 - (n - 1), 8) + "\n"
  }

  function Grid(b: Bitboard): string
  {
    Lines(b, 8)
  }

  /** Renders the bitboard rank by rank, from rank 8 down to rank 1. */
  method PrintBitboard(bitboard: Bitboard) returns (out: string)
    ensures out == Grid(bitboard)
  {
    out := [];
    var rank := 7;
    while rank >= 0
      invariant -1 <= rank <= 7
      invariant out == Lines(bitboard, 7 - rank)
    {
      var line := RankCells(bitboard, rank);
      out := out + line + "\n";
      rank := rank - 1;
    }
  }

  /** The inner loop: the cells of one rank, file A to file H. */
  method RankCells(bitboard: Bitboard, rank: int) returns (line: string)
    requires 0 <= rank < 8
    ensures line == CellsUpTo(bitboard, rank, 8)
  {
    line := [];
    var file := 0;
    while file <= 7
      invariant 0 <= file <= 8
      invariant line == CellsUpTo(bitboard, rank, file)
    {
      var cell := CellChar(bitboard, rank, file);
      line := line + [cell];
      file := file + 1;
    }
  }

  /** The bit test of one cell. */
  method CellChar(bitboard: Bitboard, rank: int, file: int) returns (c: char)
    requires OnBoard(rank, file)
    ensures c == Cell(bitboard, rank, file)
  {
    var sq := GetSquare(rank, file);
    AndSquare(bitboard, sq);
    if bitboard & SquareToBitboard(sq) != 0 {
      c := 'O';
    } else {
      c := '-';
    }
  }

  lemma {:induction false} CellsUpToIndex(b: Bitboard, r: int, n: int, f: int)
    requires 0 <= r < 8 && 0 <= f < n <= 8
    ensures |CellsUpTo(b, r, n)| == n && CellsUpTo(b, r, n)[f] == Cell(b, r, f)
  {
    if f < n - 1 {
      CellsUpToIndex(b, r, n - 1, f);
    } else if n > 1 {
      CellsUpToIndex(b, r, n - 1, 0);
    }
  }

  lemma {:induction false} CellsUpToLength(b: Bitboard, r: int, n: int)
    requires 0 <= r < 8 && 0 <= n <= 8
    ensures |CellsUpTo(b, r, n)| == n
  {
    if n > 0 {
      CellsUpToLength(b, r, n - 1);
    }
  }

  lemma {:induction false} LinesLength(b: Bitboard, n: int)
    requires 0 <= n <= 8
    ensures |Lines(b, n)| == 9 * n
  {
    if n > 0 {
      LinesLength(b, n - 1);
      CellsUpToLength(b, 7 - (n - 1), 8);
    }
  }

  /** Line `i` of the grid (counted from the top) shows rank 8 - i. */
  lemma {:induction false} LinesIndex(b: Bitboard, n: int, i: int, f: int)
    requires 0 <= i < n <= 8 && 0 <= f < 8
    ensures |Lines(b, n)| == 9 * n
    ensures Lines(b, n)[9 * i + f] == Cell(b, 7 - i, f)
    ensures Lines(b, n)[9 * i + 8] == '\n'
  {
    LinesLength(b, n);
    LinesLength(b, n - 1);
    CellsUpToIndex(b, 7 - (n - 1), 8, f);
    if i < n - 1 {
      LinesIndex(b, n - 1, i, f);
      LinesLength(b, n - 1);
      assert Lines(b, n) == Lines(b, n - 1) + (CellsUpTo(b, 7 - (n - 1), 8) + "\n");
    }
  }

  /** The grid has 8 lines of 8 characters and a newline; the character at
      rank r, file f is 'O' exactly when the bitboard holds that square. */
  lemma GridCell(b: Bitboard, r: int, f: int)
    requires OnBoard(r, f)
    ensures |Grid(b)| == 72
    ensures Grid(b)[9 * (7 - r) + f] == (if Has(b, GetSquare(r, f)) then 'O' else '-')
    ensures Grid(b)[9 * (7 - r) + 8] == '\n'
  {
    LinesLength(b, 8);
    LinesIndex(b, 8, 7 - r, f);
  }

  /** The grid shows the whole bitboard: two bitboards with the same grid are
      equal. */
  lemma GridInjective(a: Bitboard, b: Bitboard)
    requires Grid(a) == Grid(b)
    ensures a == b
  {
    forall t: Square
      ensures Has(a, t) == Has(b, t)
    {
      SameCell(a, b, t);
    }
    BitboardExt(a, b);
  }

  lemma SameCell(a: Bitboard, b: Bitboard, t: Square)
    requires Grid(a) == Grid(b)
    ensures Has(a, t) == Has(b, t)
  {
    RankFileDecode(t);
    var r, f := Rank(t), File(t);
    assert GetSquare(r, f) == t;
    GridCell(a, r, f);
    GridCell(b, r, f);
    assert Grid(a)[9 * (7 - r) + f] == Grid(b)[9 * (7 - r) + f];
  }
}
