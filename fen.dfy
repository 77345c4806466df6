/**
 * Forsyth-Edwards Notation as the board reads it: the six-field format
 * gate, the walk over the piece placement (rank 8 first, file A first), the
 * castling letters, the en passant square and the two move clocks.
 *
 * The walk is given twice, differing only in the overflow check made after a
 * piece is placed: `RankCheck` is the check the board makes (rank > 8, which
 * never fires) and `FileCheck` the check evidently meant (file > 8, the one
 * made after an empty square).
 */
module Fen {
  import opened Types
  import Format

  // ---------------------------------------------------------------------------
  // The six fields

  /** The characters `\s` matches: space, tab, newline, vertical tab, form
      feed and carriage return. */
  predicate IsSpace(c: char)
  {
    c == ' ' || 9 <= c as int <= 13
  }

  predicate NoSpace(s: string)
  {
    forall i :: 0 <= i < |s| ==> !IsSpace(s[i])
  }

  /** The pieces of `s` between single whitespace characters. */
  function Split(s: string): (fields: seq<string>)
    ensures |fields| >= 1
    decreases |s|
  {
    if s == [] then [[]]
    else
      var rest := Split(s[1..]);
      if IsSpace(s[0]) then [[]] + rest else [[s[0]] + rest[0]] + rest[1..]
  }

  predicate IsPieceChar(c: char)
  {
    c in "PNBRQKpnbrqk"
  }

  predicate IsPlacementChar(c: char)
  {
    IsPieceChar(c) || '1' <= c <= '8' || c == '/'
  }

  predicate PlacementChars(s: string)
  {
    forall i :: 0 <= i < |s| ==> IsPlacementChar(s[i])
  }

  predicate PlacementField(s: string)
  {
    |s| >= 1 && PlacementChars(s)
  }

  predicate TurnField(s: string)
  {
    s == "w" || s == "b"
  }

  predicate CastlingField(s: string)
  {
    s == "-" || (1 <= |s| <= 4 && forall i :: 0 <= i < |s| ==> s[i] in "KQkq")
  }

  predicate EnPassantField(s: string)
  {
    s == "-" || (|s| == 2 && 'a' <= s[0] <= 'h' && (s[1] == '3' || s[1] == '6'))
  }

  predicate ClockField(s: string)
  {
    |s| >= 1 && forall i :: 0 <= i < |s| ==> Format.IsDigit(s[i])
  }

  /** The format gate: placement, side to move, castling, en passant and the
      two clocks, separated by single whitespace characters, and nothing else. */
  predicate Grammar(fen: string)
  {
    var f := Split(fen);
    |f| == 6 && PlacementField(f[0]) && TurnField(f[1]) && CastlingField(f[2])
    && EnPassantField(f[3]) && ClockField(f[4]) && ClockField(f[5])
  }

  /** No field holds whitespace, and there is one field more than there are
      whitespace characters. */
  lemma {:induction false} SplitFields(s: string)
    ensures forall k :: 0 <= k < |Split(s)| ==> NoSpace(Split(s)[k])
    ensures |Split(s)| == 1 + Occurrences(s, IsSpace)
    decreases |s|
  {
    if s != [] {
      SplitFields(s[1..]);
      OccurrencesFront(s, IsSpace);
      var rest := Split(s[1..]);
      if !IsSpace(s[0]) {
        assert NoSpace(rest[0]);
        assert NoSpace([s[0]] + rest[0]);
      }
    }
  }

  /** The number of characters of `s` that satisfy `p`. */
  function Occurrences(s: string, p: char -> bool): nat
    decreases |s|
  {
    if s == [] then 0 else Occurrences(s[..|s| - 1], p) + (if p(s[|s| - 1]) then 1 else 0)
  }

  lemma {:induction false} OccurrencesFront(s: string, p: char -> bool)
    requires s != []
    ensures Occurrences(s, p) == (if p(s[0]) then 1 else 0) + Occurrences(s[1..], p)
    decreases |s|
  {
    if |s| > 1 {
      OccurrencesFront(s[..|s| - 1], p);
      assert s[..|s| - 1][1..] == s[1..][..|s[1..]| - 1];
    }
  }

  /** A field without whitespace is read whole, up to the next separator. */
  lemma {:induction false} SplitField(a: string, c: char, rest: string)
    requires NoSpace(a) && IsSpace(c)
    ensures Split(a + [c] + rest) == [a] + Split(rest)
    decreases |a|
  {
    if a == [] {
      assert (a + [c] + rest)[1..] == rest;
    } else {
      assert (a + [c] + rest)[1..] == a[1..] + [c] + rest;
      assert NoSpace(a[1..]);
      SplitField(a[1..], c, rest);
      assert [a[0]] + a[1..] == a;
    }
  }

  lemma {:induction false} SplitLast(a: string)
    requires NoSpace(a)
    ensures Split(a) == [a]
    decreases |a|
  {
    if a != [] {
      assert NoSpace(a[1..]);
      SplitLast(a[1..]);
      assert [a[0]] + a[1..] == a;
    }
  }

  /** Six well-formed fields joined by whitespace pass the gate, and the gate
      reads back exactly those fields. */
  lemma JoinedFields(p: string, t: string, c: string, e: string, h: string, m: string,
                     s1: char, s2: char, s3: char, s4: char, s5: char)
    requires PlacementField(p) && TurnField(t) && CastlingField(c) && EnPassantField(e)
    requires ClockField(h) && ClockField(m)
    requires IsSpace(s1) && IsSpace(s2) && IsSpace(s3) && IsSpace(s4) && IsSpace(s5)
    ensures var fen := p + [s1] + (t + [s2] + (c + [s3] + (e + [s4] + (h + [s5] + m))));
            Grammar(fen) && Split(fen) == [p, t, c, e, h, m]
  {
    FieldsHaveNoSpace(p, t, c, e, h, m);
    var x5 := h + [s5] + m;
    var x4 := e + [s4] + x5;
    var x3 := c + [s3] + x4;
    var x2 := t + [s2] + x3;
    SplitLast(m);
    SplitField(h, s5, m);
    SplitField(e, s4, x5);
    SplitField(c, s3, x4);
    SplitField(t, s2, x3);
    SplitField(p, s1, x2);
    assert Split(p + [s1] + x2) == [p, t, c, e, h, m];
  }

  lemma FieldsHaveNoSpace(p: string, t: string, c: string, e: string, h: string, m: string)
    requires PlacementField(p) && TurnField(t) && CastlingField(c) && EnPassantField(e)
    requires ClockField(h) && ClockField(m)
    ensures NoSpace(p) && NoSpace(t) && NoSpace(c) && NoSpace(e) && NoSpace(h) && NoSpace(m)
  {
    forall i | 0 <= i < |p| ensures !IsSpace(p[i]) {
      assert IsPlacementChar(p[i]);
    }
    forall i | 0 <= i < |c| ensures !IsSpace(c[i]) {
      assert c == "-" || c[i] in "KQkq";
    }
  }

  // ---------------------------------------------------------------------------
  // The placement walk

  /** The piece a placement letter names. */
  function PieceOfChar(c: char): Piece
    requires IsPieceChar(c)
  {
    match c
    case 'P' => WhitePawn
    case 'N' => WhiteKnight
    case 'B' => WhiteBishop
    case 'R' => WhiteRook
    case 'Q' => WhiteQueen
    case 'K' => WhiteKing
    case 'p' => BlackPawn
    case 'n' => BlackKnight
    case 'b' => BlackBishop
    case 'r' => BlackRook
    case 'q' => BlackQueen
    case 'k' => BlackKing
  }

  /** A square the walk fills: the piece (`Empty` for a digit) and the rank
      and file counters at that moment. */
  datatype Cell = Cell(piece: Piece, rank: int, file: int)

  /** The walk's state: the cells filled so far, the counters, and whether it
      has thrown. */
  datatype Walker = Walker(cells: seq<Cell>, rank: int, file: int, ok: bool)

  /** The check made after a piece is placed. */
  datatype PieceCheck = RankCheck | FileCheck

  predicate Overflows(check: PieceCheck, rank: int, file: int)
  {
    match check
    case RankCheck => rank > 8
    case FileCheck => file > 8
  }

  const Start: Walker := Walker([], 7, 0, true)

  /** The value of a digit, or of any character below 'A'. */
  function Span(c: char): int
  {
    c as int - '0' as int
  }

  /** One empty square at the counters, then the file check. */
  function PutEmpty(w: Walker): Walker
  {
    if !w.ok then w
    else Walker(w.cells + [Cell(Empty, w.rank, w.file)], w.rank, w.file + 1, w.file + 1 <= 8)
  }

  /** The first `n` rounds of the loop over a digit's empty squares. */
  function Fill(w: Walker, n: int): Walker
    decreases n
  {
    if n <= 0 then w else PutEmpty(Fill(w, n - 1))
  }

  /** One character of the placement. */
  function Step(w: Walker, c: char, check: PieceCheck): Walker
    requires IsPlacementChar(c)
  {
    if !w.ok then w
    else if c == '/' then Walker(w.cells, w.rank - 1, 0, w.rank - 1 >= 0)
    else if c < 'A' then Fill(w, Span(c))
    else Walker(w.cells + [Cell(PieceOfChar(c), w.rank, w.file)], w.rank, w.file + 1,
                !Overflows(check, w.rank, w.file + 1))
  }

  /** The walk over the first |s| characters. */
  function Walk(s: string, check: PieceCheck): Walker
    requires PlacementChars(s)
    decreases |s|
  {
    if s == [] then Start else Step(Walk(s[..|s| - 1], check), s[|s| - 1], check)
  }

  /** The whole placement: the walk, then the check that the last rank was
      reached. */
  function Placement(s: string, check: PieceCheck): Walker
    requires PlacementChars(s)
  {
    var w := Walk(s, check);
    if w.ok && w.rank > 0 then w.(ok := false) else w
  }

  /** Once the walk has thrown, the rest of the placement changes nothing. */
  lemma {:induction false} WalkFrozen(s: string, i: int, check: PieceCheck)
    requires PlacementChars(s) && 0 <= i <= |s| && !Walk(s[..i], check).ok
    ensures Walk(s, check) == Walk(s[..i], check)
    ensures Placement(s, check) == Walk(s[..i], check)
    decreases |s|
  {
    if i < |s| {
      var p := s[..|s| - 1];
      assert p[..i] == s[..i];
      WalkFrozen(p, i, check);
    } else {
      assert s[..i] == s;
    }
  }

  /** Once the squares of a digit have overflowed, its remaining squares are
      not placed. */
  lemma {:induction false} FillFrozen(w: Walker, m: int, n: int)
    requires m <= n && !Fill(w, m).ok
    ensures Fill(w, n) == Fill(w, m)
    decreases n - m
  {
    if n > m {
      FillFrozen(w, m, n - 1);
    }
  }

  // ---------------------------------------------------------------------------
  // From cells to bitboards

  /** The single bit `1 << n`; a count of 64 or more is taken modulo 64. */
  function Bit(n: int): Bitboard
  {
    SquareToBitboard(SquareAt(n % 64))
  }

  /** The bit a cell sets: 8 * rank + file. */
  function BitIndex(c: Cell): int
  {
    8 * c.rank + c.file
  }

  /** The thirteen bitboards after OR-ing in the cells, in order. */
  function Apply(boards: seq<Bitboard>, cells: seq<Cell>): (r: seq<Bitboard>)
    requires |boards| == kNumPieces
    ensures |r| == kNumPieces
    decreases |cells|
  {
    if cells == [] then boards
    else
      var b := Apply(boards, cells[..|cells| - 1]);
      var c := cells[|cells| - 1];
      b[PieceIndex(c.piece) := b[PieceIndex(c.piece)] | Bit(BitIndex(c))]
  }

  const EmptyBoards: seq<Bitboard> := seq(13, _ => 0)

  /** One more cell ORs its bit into its piece's bitboard. */
  lemma ApplySnoc(boards: seq<Bitboard>, cells: seq<Cell>, c: Cell)
    requires |boards| == kNumPieces
    ensures var b := Apply(boards, cells);
            Apply(boards, cells + [c])
            == b[PieceIndex(c.piece) := b[PieceIndex(c.piece)] | Bit(BitIndex(c))]
  {
    assert (cells + [c])[..|cells|] == cells;
  }

  /** A bitboard holds a square exactly when it held it before or some cell
      of its piece sets that square's bit. */
  lemma {:induction false} ApplyHas(boards: seq<Bitboard>, cells: seq<Cell>, k: int, t: Square)
    requires |boards| == kNumPieces && 0 <= k < kNumPieces
    ensures Has(Apply(boards, cells)[k], t) <==> Has(boards[k], t) || SetBy(cells, k, t)
    decreases |cells|
  {
    if cells != [] {
      var init := cells[..|cells| - 1];
      var c := cells[|cells| - 1];
      ApplyHas(boards, init, k, t);
      ApplyLast(boards, cells, k);
      HasSetBit(Apply(boards, init)[k], BitIndex(c), t);
      SetByLast(cells, k, t);
    }
  }

  /** Some cell sets square `t` on the bitboard of piece `k`. */
  predicate SetBy(cells: seq<Cell>, k: int, t: Square)
  {
    exists j :: 0 <= j < |cells| && Sets(cells[j], k, t)
  }

  lemma SetByLast(cells: seq<Cell>, k: int, t: Square)
    requires cells != []
    ensures SetBy(cells, k, t) <==> SetBy(cells[..|cells| - 1], k, t) || Sets(cells[|cells| - 1], k, t)
  {
    var init := cells[..|cells| - 1];
    if SetBy(cells, k, t) {
      var j :| 0 <= j < |cells| && Sets(cells[j], k, t);
      if j < |cells| - 1 {
        assert init[j] == cells[j];
      }
    }
    if SetBy(init, k, t) {
      var j :| 0 <= j < |init| && Sets(init[j], k, t);
      assert cells[j] == init[j];
    }
  }

  lemma ApplyLast(boards: seq<Bitboard>, cells: seq<Cell>, k: int)
    requires |boards| == kNumPieces && 0 <= k < kNumPieces && cells != []
    ensures var b := Apply(boards, cells[..|cells| - 1]);
            var c := cells[|cells| - 1];
            Apply(boards, cells)[k] == if PieceIndex(c.piece) == k then b[k] | Bit(BitIndex(c)) else b[k]
  {
  }

  /** The cell `c` sets square `t` on the bitboard of piece `k`. */
  predicate Sets(c: Cell, k: int, t: Square)
  {
    PieceIndex(c.piece) == k && BitIndex(c) % 64 == t as int
  }

  lemma HasSetBit(b: Bitboard, n: int, t: Square)
    ensures Has(b | Bit(n), t) <==> Has(b, t) || n % 64 == t as int
  {
    var s := SquareAt(n % 64);
    HasSetSquare(b, s, t);
    SquareAtIs(n % 64, t);
  }

  lemma HasSetSquare(b: Bitboard, s: Square, t: Square)
    ensures Has(b | SquareToBitboard(s), t) <==> Has(b, t) || s == t
  {
    HasOr(b, SquareToBitboard(s), t);
    HasSquare(s, t);
  }

  lemma SquareAtIs(j: int, t: Square)
    requires 0 <= j < 64
    ensures SquareAt(j) == t <==> j == t as int
  {
    SquareAtValue(j);
  }

  // ---------------------------------------------------------------------------
  // What a successful walk has read

  predicate IsSlash(c: char)
  {
    c == '/'
  }

  /** The walk keeps the rank of a rank-only change: the empty squares of a
      digit stay on the rank, and a walk that throws stays thrown. */
  lemma {:induction false} FillKeepsRank(w: Walker, n: int)
    ensures Fill(w, n).rank == w.rank
    ensures Fill(w, n).ok ==> w.ok
    decreases n
  {
    if n > 0 {
      FillKeepsRank(w, n - 1);
    }
  }

  /** While the walk runs, its rank is 7 less the number of '/' read, and
      never below 0. */
  lemma {:induction false} WalkRank(s: string, check: PieceCheck)
    requires PlacementChars(s)
    ensures Walk(s, check).ok ==> Walk(s, check).rank == 7 - Occurrences(s, IsSlash) >= 0
    decreases |s|
  {
    if s != [] {
      var p := s[..|s| - 1];
      WalkRank(p, check);
      var c := s[|s| - 1];
      if c != '/' && c < 'A' {
        FillKeepsRank(Walk(p, check), Span(c));
      }
    }
  }

  /** A placement that is read without throwing has exactly seven '/'. */
  lemma PlacementSlashes(s: string, check: PieceCheck)
    requires PlacementChars(s)
    ensures Placement(s, check).ok ==> Occurrences(s, IsSlash) == 7
  {
    WalkRank(s, check);
  }

  /** The counts of a placement read so far: the '/' seen, the squares the
      current rank covers, and whether every rank so far covered at most 8
      squares and every finished rank exactly 8, with at most 8 ranks. */
  datatype Shape = Shape(slashes: int, width: int, full: bool)

  function ShapeOf(s: string): Shape
    requires PlacementChars(s)
    decreases |s|
  {
    if s == [] then Shape(0, 0, true)
    else
      var sh := ShapeOf(s[..|s| - 1]);
      var c := s[|s| - 1];
      if c == '/' then Shape(sh.slashes + 1, 0, sh.full && sh.width == 8 && sh.slashes < 7)
      else
        var width := sh.width + (if c < 'A' then Span(c) else 1);
        Shape(sh.slashes, width, sh.full && width <= 8)
  }

  /** Eight ranks of eight squares each. */
  predicate FullRanks(s: string)
  {
    PlacementChars(s) && ShapeOf(s).full && ShapeOf(s).slashes == 7 && ShapeOf(s).width == 8
  }

  /** The squares a placement names, in reading order: rank 8 to rank 1, and
      file A to file H within a rank. */
  function Expand(s: string): seq<Piece>
    requires PlacementChars(s)
    decreases |s|
  {
    if s == [] then [] else Expand(s[..|s| - 1]) + Squares(s[|s| - 1])
  }

  function Squares(c: char): seq<Piece>
    requires IsPlacementChar(c)
  {
    if c == '/' then [] else if c < 'A' then seq(Span(c), _ => Empty) else [PieceOfChar(c)]
  }

  /** The position of a cell in reading order. */
  function ReadingIndex(c: Cell): int
  {
    8 * (7 - c.rank) + c.file
  }

  /** The position of a square in reading order. */
  function SquareReadingIndex(t: Square): int
  {
    8 * (7 - Rank(t)) + File(t)
  }

  /** Cell j of the walk is square j in reading order, on the board, with
      piece j of `pieces`. */
  predicate ReadsAs(cells: seq<Cell>, pieces: seq<Piece>)
  {
    |cells| == |pieces|
    && forall j :: 0 <= j < |cells| ==>
         ReadingIndex(cells[j]) == j && 0 <= cells[j].file < 8 && cells[j].piece == pieces[j]
  }

  function EmptyRun(rank: int, file: int, n: nat): seq<Cell>
  {
    seq(n, i => Cell(Empty, rank, file + i))
  }

  /** A digit whose squares fit on the rank adds one empty cell per square. */
  lemma {:induction false} FillFits(w: Walker, n: nat)
    requires w.ok && 0 <= w.file && w.file + n <= 8
    ensures Fill(w, n) == Walker(w.cells + EmptyRun(w.rank, w.file, n), w.rank, w.file + n, true)
    decreases n
  {
    if n > 0 {
      FillFits(w, n - 1);
      assert EmptyRun(w.rank, w.file, n - 1) + [Cell(Empty, w.rank, w.file + n - 1)]
          == EmptyRun(w.rank, w.file, n);
    }
  }

  lemma ReadsAsEmpties(cells: seq<Cell>, pieces: seq<Piece>, rank: int, file: int, n: nat)
    requires ReadsAs(cells, pieces) && 8 * (7 - rank) + file == |cells| && 0 <= file && file + n <= 8
    ensures ReadsAs(cells + EmptyRun(rank, file, n), pieces + seq(n, _ => Empty))
  {
  }

  lemma ReadsAsPiece(cells: seq<Cell>, pieces: seq<Piece>, rank: int, file: int, p: Piece)
    requires ReadsAs(cells, pieces) && 8 * (7 - rank) + file == |cells| && 0 <= file < 8
    ensures ReadsAs(cells + [Cell(p, rank, file)], pieces + [p])
  {
  }

  /** While every rank read so far fits, the walk does not throw, whichever
      check follows a piece, and it has read exactly the squares the
      placement names, each at its place in reading order. */
  lemma {:induction false} WalkFits(s: string, check: PieceCheck)
    requires PlacementChars(s) && ShapeOf(s).full
    ensures var w := Walk(s, check);
            var sh := ShapeOf(s);
            w.ok && w.rank == 7 - sh.slashes && w.file == sh.width
            && 0 <= sh.slashes <= 7 && 0 <= sh.width <= 8
            && 8 * sh.slashes + sh.width == |w.cells|
            && ReadsAs(w.cells, Expand(s))
    decreases |s|
  {
    if s != [] {
      var p := s[..|s| - 1];
      var c := s[|s| - 1];
      WalkFits(p, check);
      var w := Walk(p, check);
      if c == '/' {
      } else if c < 'A' {
        FillFits(w, Span(c));
        ReadsAsEmpties(w.cells, Expand(p), w.rank, w.file, Span(c));
      } else {
        ReadsAsPiece(w.cells, Expand(p), w.rank, w.file, PieceOfChar(c));
      }
    }
  }

  /** Eight full ranks are read without throwing, by either check, into the
      64 squares the placement names. */
  lemma FullRanksRead(s: string, check: PieceCheck)
    requires FullRanks(s)
    ensures Placement(s, check).ok && |Expand(s)| == 64
    ensures ReadsAs(Placement(s, check).cells, Expand(s))
  {
    WalkFits(s, check);
  }

  /** On eight full ranks the check after a piece never matters: the walk as
      the board makes it and the corrected walk agree. */
  lemma FullRanksChecksAgree(s: string)
    requires FullRanks(s)
    ensures Placement(s, RankCheck) == Placement(s, FileCheck)
  {
    WalkFits(s, RankCheck);
    WalkFits(s, FileCheck);
    var a := Placement(s, RankCheck).cells;
    var b := Placement(s, FileCheck).cells;
    forall j | 0 <= j < |a|
      ensures a[j] == b[j]
    {
      SameReadingIndex(a[j], b[j]);
    }
  }

  lemma SameReadingIndex(a: Cell, b: Cell)
    requires ReadingIndex(a) == ReadingIndex(b) && 0 <= a.file < 8 && 0 <= b.file < 8 && a.piece == b.piece
    ensures a == b
  {
  }

  /** A cell in reading position j < 64 sets square t exactly when t is the
      j-th square in reading order. */
  lemma CellSquare(c: Cell, j: int, t: Square)
    requires ReadingIndex(c) == j && 0 <= j < 64 && 0 <= c.file < 8
    ensures BitIndex(c) % 64 == t as int <==> j == SquareReadingIndex(t)
  {
    RankFileDecode(t);
    CellOnBoard(c);
    SameCoordinates(c.rank, c.file, Rank(t), File(t));
  }

  /** A cell of reading position 0..63 and file 0..7 is on the board and sets
      the bit of its own square. */
  lemma CellOnBoard(c: Cell)
    requires 0 <= ReadingIndex(c) < 64 && 0 <= c.file < 8
    ensures 0 <= c.rank < 8 && 0 <= BitIndex(c) < 64 && BitIndex(c) % 64 == BitIndex(c)
  {
  }

  /** On the board, equal positions and equal reading positions both mean
      equal coordinates. */
  lemma SameCoordinates(r1: int, f1: int, r2: int, f2: int)
    requires 0 <= f1 < 8 && 0 <= f2 < 8
    ensures 8 * r1 + f1 == 8 * r2 + f2 <==> r1 == r2 && f1 == f2
    ensures 8 * (7 - r1) + f1 == 8 * (7 - r2) + f2 <==> r1 == r2 && f1 == f2
  {
  }

  /** The board read from eight full ranks: square t is on the bitboard of
      piece k exactly when the placement names piece k at t's place in
      reading order. So every square is on exactly one of the thirteen
      bitboards: they are pairwise disjoint and together cover the board. */
  lemma FullRanksPartition(s: string, k: int, t: Square)
    requires FullRanks(s) && 0 <= k < kNumPieces
    ensures |Expand(s)| == 64 && 0 <= SquareReadingIndex(t) < 64
    ensures Has(Apply(EmptyBoards, Placement(s, RankCheck).cells)[k], t)
            <==> PieceIndex(Expand(s)[SquareReadingIndex(t)]) == k
  {
    FullRanksRead(s, RankCheck);
    RankFileDecode(t);
    var cells := Placement(s, RankCheck).cells;
    ApplyHas(EmptyBoards, cells, k, t);
    NothingInZero(t);
    var i := SquareReadingIndex(t);
    CellSquare(cells[i], i, t);
    if SetBy(cells, k, t) {
      var j :| 0 <= j < |cells| && Sets(cells[j], k, t);
      CellSquare(cells[j], j, t);
    }
  }

  lemma NothingInZero(t: Square)
    ensures !Has(0, t)
  {
  }

  // ---------------------------------------------------------------------------
  // The corrected walk

  /** The squares still to read start at reading position `Cursor(w)`. */
  function Cursor(w: Walker): int
  {
    8 * (7 - w.rank) + w.file
  }

  /** Every cell is on the board, before the cursor, and the cells come in
      strictly increasing reading order. */
  predicate Ordered(w: Walker)
  {
    0 <= w.rank <= 7 && 0 <= w.file <= 8
    && (forall j :: 0 <= j < |w.cells| ==>
          OnBoard(w.cells[j].rank, w.cells[j].file) && ReadingIndex(w.cells[j]) < Cursor(w))
    && (forall j1, j2 :: 0 <= j1 < j2 < |w.cells| ==>
          ReadingIndex(w.cells[j1]) < ReadingIndex(w.cells[j2]))
  }

  lemma OrderedPut(w: Walker, p: Piece, ok: bool)
    requires Ordered(w) && w.file < 8
    ensures Ordered(Walker(w.cells + [Cell(p, w.rank, w.file)], w.rank, w.file + 1, ok))
  {
  }

  lemma OrderedSlash(w: Walker)
    requires Ordered(w) && w.rank >= 1
    ensures Ordered(Walker(w.cells, w.rank - 1, 0, true))
  {
  }

  lemma {:induction false} OrderedFill(w: Walker, n: int)
    requires Ordered(w) && Fill(w, n).ok
    ensures Ordered(Fill(w, n))
    decreases n
  {
    if n > 0 {
      var v := Fill(w, n - 1);
      OrderedFill(w, n - 1);
      OrderedPut(v, Empty, v.file + 1 <= 8);
    }
  }

  /** With the file check after every square, a walk that has not thrown
      read every square on the board, in strictly increasing reading order. */
  lemma {:induction false} CorrectedWalkOrdered(s: string)
    requires PlacementChars(s) && Walk(s, FileCheck).ok
    ensures Ordered(Walk(s, FileCheck))
    decreases |s|
  {
    if s != [] {
      var p := s[..|s| - 1];
      var c := s[|s| - 1];
      var w := Walk(p, FileCheck);
      assert w.ok;
      CorrectedWalkOrdered(p);
      if c == '/' {
        OrderedSlash(w);
      } else if c < 'A' {
        OrderedFill(w, Span(c));
      } else {
        OrderedPut(w, PieceOfChar(c), true);
      }
    }
  }

  /** With the corrected check, a placement read without throwing puts no
      square on two bitboards. */
  lemma CorrectedDisjoint(s: string, k1: int, k2: int, t: Square)
    requires PlacementChars(s) && Placement(s, FileCheck).ok
    requires 0 <= k1 < kNumPieces && 0 <= k2 < kNumPieces
    requires Has(Apply(EmptyBoards, Placement(s, FileCheck).cells)[k1], t)
    requires Has(Apply(EmptyBoards, Placement(s, FileCheck).cells)[k2], t)
    ensures k1 == k2
  {
    var w := Placement(s, FileCheck);
    CorrectedWalkOrdered(s);
    ApplyHas(EmptyBoards, w.cells, k1, t);
    ApplyHas(EmptyBoards, w.cells, k2, t);
    NothingInZero(t);
    var j1 :| 0 <= j1 < |w.cells| && Sets(w.cells[j1], k1, t);
    var j2 :| 0 <= j2 < |w.cells| && Sets(w.cells[j2], k2, t);
    SameSquareSameCell(w, j1, j2);
  }

  lemma SameSquareSameCell(w: Walker, j1: int, j2: int)
    requires Ordered(w) && 0 <= j1 < |w.cells| && 0 <= j2 < |w.cells|
    requires BitIndex(w.cells[j1]) % 64 == BitIndex(w.cells[j2]) % 64
    ensures j1 == j2
  {
    var a, b := w.cells[j1], w.cells[j2];
    OnBoardBitIndex(a);
    OnBoardBitIndex(b);
    SameCoordinates(a.rank, a.file, b.rank, b.file);
    assert ReadingIndex(a) == ReadingIndex(b);
  }

  lemma OnBoardBitIndex(c: Cell)
    requires OnBoard(c.rank, c.file)
    ensures BitIndex(c) % 64 == BitIndex(c)
  {
  }

  // ---------------------------------------------------------------------------
  // A ninth square on the last rank

  lemma WalkSnoc(p: string, c: char, check: PieceCheck)
    requires PlacementChars(p) && IsPlacementChar(c)
    ensures PlacementChars(p + [c])
    ensures Walk(p + [c], check) == Step(Walk(p, check), c, check)
  {
    assert (p + [c])[..|p|] == p;
  }

  const A2: Square := 8

  /** After eight full ranks, a ninth piece letter on the last rank passes
      the check the board makes after a piece (rank > 8) and lands on the bit
      after H1, which is A2: the square then sits on the bitboard of that
      piece and on the bitboard of whatever the placement put on A2. The
      file check rejects the same placement. */
  lemma NinthPiece(s: string, c: char)
    requires FullRanks(s) && IsPieceChar(c)
    ensures PlacementChars(s + [c]) && |Expand(s)| == 64
    ensures Placement(s + [c], RankCheck).ok && !Placement(s + [c], FileCheck).ok
    ensures var b := Apply(EmptyBoards, Placement(s + [c], RankCheck).cells);
            Has(b[PieceIndex(PieceOfChar(c))], A2) && Has(b[PieceIndex(Expand(s)[48])], A2)
  {
    NinthPieceWalk(s, c);
    NinthPieceBoards(Walk(s, RankCheck).cells, Expand(s), PieceOfChar(c));
  }

  lemma NinthPieceWalk(s: string, c: char)
    requires FullRanks(s) && IsPieceChar(c)
    ensures PlacementChars(s + [c]) && |Expand(s)| == 64
    ensures ReadsAs(Walk(s, RankCheck).cells, Expand(s))
    ensures Placement(s + [c], RankCheck)
         == Walker(Walk(s, RankCheck).cells + [Cell(PieceOfChar(c), 0, 8)], 0, 9, true)
    ensures !Placement(s + [c], FileCheck).ok
  {
    WalkFits(s, RankCheck);
    WalkFits(s, FileCheck);
    WalkSnoc(s, c, RankCheck);
    WalkSnoc(s, c, FileCheck);
  }

  lemma NinthPieceBoards(cells: seq<Cell>, pieces: seq<Piece>, p: Piece)
    requires ReadsAs(cells, pieces) && |pieces| == 64
    ensures var b := Apply(EmptyBoards, cells + [Cell(p, 0, 8)]);
            Has(b[PieceIndex(p)], A2) && Has(b[PieceIndex(pieces[48])], A2)
  {
    var all := cells + [Cell(p, 0, 8)];
    LastCellSets(cells, p);
    ApplyHas(EmptyBoards, all, PieceIndex(p), A2);
    ReadCellSets(cells, pieces, p);
    ApplyHas(EmptyBoards, all, PieceIndex(pieces[48]), A2);
  }

  lemma LastCellSets(cells: seq<Cell>, p: Piece)
    ensures SetBy(cells + [Cell(p, 0, 8)], PieceIndex(p), A2)
  {
    assert Sets((cells + [Cell(p, 0, 8)])[|cells|], PieceIndex(p), A2);
  }

  lemma ReadCellSets(cells: seq<Cell>, pieces: seq<Piece>, p: Piece)
    requires ReadsAs(cells, pieces) && |pieces| == 64
    ensures SetBy(cells + [Cell(p, 0, 8)], PieceIndex(pieces[48]), A2)
  {
    var all := cells + [Cell(p, 0, 8)];
    assert all[48] == cells[48];
    CellSquare(cells[48], 48, A2);
    assert Sets(all[48], PieceIndex(pieces[48]), A2);
  }

  /** `n` empty ranks, each closed by '/'. */
  function EmptyRanks(n: nat): string
  {
    if n == 0 then [] else EmptyRanks(n - 1) + "8/"
  }

  function Pawns(m: nat): string
  {
    seq(m, _ => 'P')
  }

  lemma {:induction false} EmptyRanksShape(n: nat)
    requires n <= 7
    ensures PlacementChars(EmptyRanks(n))
    ensures ShapeOf(EmptyRanks(n)) == Shape(n, 0, true)
    ensures Expand(EmptyRanks(n)) == seq(8 * n, _ => Empty)
  {
    if n > 0 {
      var p := EmptyRanks(n - 1);
      EmptyRanksShape(n - 1);
      assert PlacementChars(p + ['8']);
      assert (p + ['8'])[..|p|] == p;
      assert p + "8/" == (p + ['8']) + ['/'];
      assert (p + "8/")[..|p| + 1] == p + ['8'];
    }
  }

  lemma {:induction false} PawnsShape(m: nat)
    requires m <= 8
    ensures PlacementChars(EmptyRanks(7) + Pawns(m))
    ensures ShapeOf(EmptyRanks(7) + Pawns(m)) == Shape(7, m, true)
  {
    EmptyRanksShape(7);
    if m > 0 {
      PawnsShape(m - 1);
      PawnsSnoc(m);
    } else {
      assert EmptyRanks(7) + Pawns(0) == EmptyRanks(7);
    }
  }

  lemma {:induction false} PawnsExpand(m: nat)
    requires m <= 8
    ensures PlacementChars(EmptyRanks(7) + Pawns(m))
    ensures Expand(EmptyRanks(7) + Pawns(m)) == seq(56, _ => Empty) + seq(m, _ => WhitePawn)
  {
    EmptyRanksShape(7);
    if m > 0 {
      PawnsExpand(m - 1);
      PawnsSnoc(m);
    } else {
      assert EmptyRanks(7) + Pawns(0) == EmptyRanks(7);
    }
  }

  lemma PawnsSnoc(m: nat)
    requires 0 < m
    ensures EmptyRanks(7) + Pawns(m) == (EmptyRanks(7) + Pawns(m - 1)) + ['P']
    ensures (EmptyRanks(7) + Pawns(m))[..|EmptyRanks(7) + Pawns(m - 1)|] == EmptyRanks(7) + Pawns(m - 1)
  {
    assert Pawns(m) == Pawns(m - 1) + ['P'];
  }

  /** The placement "8/8/8/8/8/8/8/PPPPPPPPP" (nine pawns on the first rank)
      passes the board's checks and leaves A2 both empty and holding a white
      pawn; the file check rejects it. */
  lemma NinePawns()
    ensures PlacementChars("8/8/8/8/8/8/8/PPPPPPPPP")
    ensures Placement("8/8/8/8/8/8/8/PPPPPPPPP", RankCheck).ok
    ensures !Placement("8/8/8/8/8/8/8/PPPPPPPPP", FileCheck).ok
    ensures var b := Apply(EmptyBoards, Placement("8/8/8/8/8/8/8/PPPPPPPPP", RankCheck).cells);
            Has(b[PieceIndex(WhitePawn)], A2) && Has(b[PieceIndex(Empty)], A2)
  {
    var s := EmptyRanks(7) + Pawns(8);
    PawnsShape(8);
    PawnsExpand(8);
    NinthPiece(s, 'P');
    NinePawnsSpelled();
  }

  lemma NinePawnsSpelled()
    ensures "8/8/8/8/8/8/8/PPPPPPPPP" == EmptyRanks(7) + Pawns(8) + ['P']
  {
    assert EmptyRanks(7) == "8/8/8/8/8/8/8/";
  }

  // ---------------------------------------------------------------------------
  // Side to move

  /** The side to move: 'w' is White and any other letter Black. */
  function TurnOf(field: string): Color
    requires |field| >= 1
  {
    if field[0] == 'w' then White else Black
  }

  /** A well-formed turn field names White exactly when it is "w" and Black
      exactly when it is "b". */
  lemma TurnOfField(field: string)
    requires TurnField(field)
    ensures TurnOf(field) == White <==> field == "w"
    ensures TurnOf(field) == Black <==> field == "b"
  {
  }

  // ---------------------------------------------------------------------------
  // Castling rights

  /** The letter that names a castling right. */
  function CastleLetter(c: Castle): char
  {
    match c
    case WhiteKingSide => 'K'
    case WhiteQueenSide => 'Q'
    case BlackKingSide => 'k'
    case BlackQueenSide => 'q'
  }

  /** The flag a castling letter adds; any other character adds none. */
  function LetterFlag(c: char): bv8
  {
    if c == 'K' then CastleFlag(WhiteKingSide)
    else if c == 'Q' then CastleFlag(WhiteQueenSide)
    else if c == 'k' then CastleFlag(BlackKingSide)
    else if c == 'q' then CastleFlag(BlackQueenSide)
    else 0
  }

  /** The rights after OR-ing in the flag of every letter of `s`, in order. */
  function AddLetters(rights: bv8, s: string): bv8
    decreases |s|
  {
    if s == [] then rights else AddLetters(rights, s[..|s| - 1]) | LetterFlag(s[|s| - 1])
  }

  /** The castling field read onto the rights already held: "-" adds none. */
  function CastlingOf(rights: bv8, field: string): bv8
    requires |field| >= 1
  {
    if field[0] != '-' then AddLetters(rights, field) else rights
  }

  /** A letter's flag holds right `c` exactly when the letter names `c`, and
      never touches the high four bits. */
  lemma LetterFlagHas(x: char, c: Castle)
    ensures LetterFlag(x) & CastleFlag(c) != 0 <==> x == CastleLetter(c)
    ensures LetterFlag(x) & 0xF0 == 0
  {
  }

  lemma OrHas(a: bv8, b: bv8, f: bv8)
    requires b & 0xF0 == 0
    ensures (a | b) & f != 0 <==> a & f != 0 || b & f != 0
    ensures (a | b) & 0xF0 == a & 0xF0
  {
  }

  /** After reading letters `s`, right `c` is held exactly when it was held
      before or `s` names it; the bits above the four rights are untouched. */
  lemma {:induction false} AddLettersHas(rights: bv8, s: string, c: Castle)
    ensures AddLetters(rights, s) & CastleFlag(c) != 0
            <==> rights & CastleFlag(c) != 0 || CastleLetter(c) in s
    ensures AddLetters(rights, s) & 0xF0 == rights & 0xF0
    decreases |s|
  {
    if s != [] {
      var p, x := s[..|s| - 1], s[|s| - 1];
      AddLettersHas(rights, p, c);
      LetterFlagHas(x, c);
      OrHas(AddLetters(rights, p), LetterFlag(x), CastleFlag(c));
      assert s == p + [x];
      assert CastleLetter(c) in s <==> CastleLetter(c) in p || x == CastleLetter(c);
    }
  }

  /** Reading a well-formed castling field keeps every right already held,
      adds exactly the rights its letters name, and leaves the high bits. */
  lemma CastlingOfField(rights: bv8, field: string, c: Castle)
    requires CastlingField(field)
    ensures CastlingOf(rights, field) & CastleFlag(c) != 0
            <==> rights & CastleFlag(c) != 0 || CastleLetter(c) in field
    ensures CastlingOf(rights, field) & 0xF0 == rights & 0xF0
  {
    AddLettersHas(rights, field, c);
  }

  // ---------------------------------------------------------------------------
  // En passant

  /** The en passant target: none for "-", otherwise the bit of the square
      the file letter and rank digit name. */
  function EnPassantOf(field: string): Bitboard
    requires EnPassantField(field)
  {
    if field[0] == '-' then 0 else Bit(Format.ParseSquare(field[0], field[1]))
  }

  /** A named en passant square lies on the third or sixth rank, its bit is
      the target, and it prints back as the field. */
  lemma EnPassantSquare(field: string)
    requires EnPassantField(field) && field != "-"
    ensures 0 <= Format.ParseSquare(field[0], field[1]) < 64
    ensures var sq := SquareAt(Format.ParseSquare(field[0], field[1]));
            (Rank(sq) == 2 || Rank(sq) == 5)
            && EnPassantOf(field) == SquareToBitboard(sq)
            && Format.SquareString(sq) == field
  {
    var j := Format.ParseSquare(field[0], field[1]);
    SquareAtValue(j);
    var sq := SquareAt(j);
    RankFileDecode(sq);
    Format.SquareStringShape(sq);
    assert Rank(sq) == j / 8 && File(sq) == j % 8;
    assert Format.SquareString(sq)[0] == field[0];
    assert Format.SquareString(sq)[1] == field[1];
  }

  /** Every square of the third or sixth rank, printed, is a well-formed en
      passant field that reads back as that square. */
  lemma SquareEnPassant(sq: Square)
    requires Rank(sq) == 2 || Rank(sq) == 5
    ensures EnPassantField(Format.SquareString(sq))
    ensures EnPassantOf(Format.SquareString(sq)) == SquareToBitboard(sq)
  {
    Format.SquareStringShape(sq);
    Format.SquareStringParses(sq);
    SquareAtNumber(sq);
  }

  // ---------------------------------------------------------------------------
  // Move clocks

  /** The number the digits of `s` spell, most significant first. */
  function Decimal(s: string): int
    decreases |s|
  {
    if s == [] then 0 else 10 * Decimal(s[..|s| - 1]) + Format.DigitValue(s[|s| - 1])
  }

  /** A clock field: its number, or 0 for "-". */
  function ClockOf(field: string): int
    requires |field| >= 1
  {
    if field[0] != '-' then Decimal(field) else 0
  }

  /** A count written out in decimal is a well-formed clock field that reads
      back as the count. */
  lemma {:induction false} DecimalRoundTrip(n: nat)
    ensures ClockField(Format.DecimalString(n))
    ensures Decimal(Format.DecimalString(n)) == n
    ensures ClockOf(Format.DecimalString(n)) == n
    decreases n
  {
    var s := Format.DecimalString(n);
    if n >= 10 {
      DecimalRoundTrip(n / 10);
      assert s[..|s| - 1] == Format.DecimalString(n / 10);
    }
    assert Format.IsDigit(s[0]);
  }

  /** A clock field never reads as a negative number. */
  lemma {:induction false} DecimalNonNegative(s: string)
    requires forall i :: 0 <= i < |s| ==> Format.IsDigit(s[i])
    ensures Decimal(s) >= 0
    decreases |s|
  {
    if s != [] {
      DecimalNonNegative(s[..|s| - 1]);
      assert Format.IsDigit(s[|s| - 1]);
    }
  }
}
