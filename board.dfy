/**
 * The board: thirteen bitboards (one per piece kind and one for the empty
 * squares), the castling rights, the side to move, the en passant target and
 * the two move clocks; loaded from a FEN string or given field by field.
 *
 * `LoadFEN` is what loading a FEN string does to a position, thrown
 * exceptions included: a load that throws returns `ok == false` together with
 * the state the board was left in, since the bitboards are updated square by
 * square before a later check may throw.
 */
module ChessBoard {
  import opened Types
  import Format
  import opened Fen

  /** The fields of a board as one value. */
  datatype Position = Position(
    bitboards: seq<Bitboard>,
    castling: bv8,
    turn: Color,
    enPassant: Bitboard,
    halfmoves: int,
    fullmoves: int
  )

  /** The board a default-constructed board holds. */
  const DefaultPosition: Position := Position(EmptyBoards, 0, White, 0, 0, 1)

  /** The position after a load, and whether the load ran without throwing. */
  datatype Loaded = Loaded(position: Position, ok: bool)

  /** Loading `fen` onto `p`. The format gate comes first and leaves `p` as it
      is; the placement is OR-ed into the bitboards square by square, so a
      placement that throws leaves the squares read so far; only after the
      placement are the side to move, the castling rights (OR-ed onto those
      held), the en passant target and the clocks set. */
  function LoadFEN(p: Position, fen: string): (r: Loaded)
    requires |p.bitboards| == kNumPieces
    ensures |r.position.bitboards| == kNumPieces
  {
    if !Grammar(fen) then Loaded(p, false)
    else
      var f := Split(fen);
      var w := Placement(f[0], RankCheck);
      var boards := Apply(p.bitboards, w.cells);
      if !w.ok then Loaded(p.(bitboards := boards), false)
      else
        Loaded(Position(boards, CastlingOf(p.castling, f[2]), TurnOf(f[1]), EnPassantOf(f[3]),
                        ClockOf(f[4]), ClockOf(f[5])), true)
  }

  // ---------------------------------------------------------------------------
  // What a load does

  /** A load succeeds exactly when the string passes the format gate and the
      placement is read without throwing. A string the gate refuses changes
      nothing; a load that throws changes at most the bitboards. */
  lemma LoadFENOutcome(p: Position, fen: string)
    requires |p.bitboards| == kNumPieces
    ensures var r := LoadFEN(p, fen);
            r.ok <==> Grammar(fen) && Placement(Split(fen)[0], RankCheck).ok
    ensures !Grammar(fen) ==> LoadFEN(p, fen).position == p
    ensures var q := LoadFEN(p, fen).position;
            !LoadFEN(p, fen).ok ==>
              q.castling == p.castling && q.turn == p.turn && q.enPassant == p.enPassant
              && q.halfmoves == p.halfmoves && q.fullmoves == p.fullmoves
  {
  }

  /** After a successful load: the placement had exactly seven '/', the side
      to move is White exactly when the turn field is "w", a castling right
      is held exactly when it was held before or the castling field names it,
      the en passant target is empty or the bit of a square on the third or
      sixth rank, and both clocks are the numbers their fields spell, never
      negative. */
  lemma LoadFENFields(p: Position, fen: string, c: Castle)
    requires |p.bitboards| == kNumPieces && LoadFEN(p, fen).ok
    ensures var f := Split(fen);
            var q := LoadFEN(p, fen).position;
            |f| == 6 && PlacementChars(f[0])
            && Occurrences(f[0], IsSlash) == 7
            && (q.turn == White <==> f[1] == "w")
            && (q.castling & CastleFlag(c) != 0 <==> p.castling & CastleFlag(c) != 0 || CastleLetter(c) in f[2])
            && q.castling & 0xF0 == p.castling & 0xF0
            && (q.enPassant == 0 <==> f[3] == "-")
            && (f[3] != "-" ==> exists sq: Square :: (Rank(sq) == 2 || Rank(sq) == 5) && q.enPassant == SquareToBitboard(sq))
            && q.halfmoves == Decimal(f[4]) >= 0 && q.fullmoves == Decimal(f[5]) >= 0
  {
    var f := Split(fen);
    PlacementSlashes(f[0], RankCheck);
    TurnOfField(f[1]);
    CastlingOfField(p.castling, f[2], c);
    if f[3] != "-" {
      EnPassantSquare(f[3]);
      var sq := SquareAt(Format.ParseSquare(f[3][0], f[3][1]));
      NonZeroSquare(sq);
    }
    DecimalNonNegative(f[4]);
    DecimalNonNegative(f[5]);
  }

  lemma NonZeroSquare(sq: Square)
    ensures SquareToBitboard(sq) != 0
  {
  }

  /** Loading eight full ranks onto a default board succeeds, and then square
      t is on the bitboard of piece k exactly when the placement names piece
      k at t: every square is on exactly one of the thirteen bitboards. */
  lemma LoadFENFullRanks(fen: string, k: int, t: Square)
    requires Grammar(fen) && FullRanks(Split(fen)[0]) && 0 <= k < kNumPieces
    ensures LoadFEN(DefaultPosition, fen).ok
    ensures |Expand(Split(fen)[0])| == 64 && 0 <= SquareReadingIndex(t) < 64
    ensures Has(LoadFEN(DefaultPosition, fen).position.bitboards[k], t)
            <==> PieceIndex(Expand(Split(fen)[0])[SquareReadingIndex(t)]) == k
  {
    var s := Split(fen)[0];
    FullRanksRead(s, RankCheck);
    FullRanksPartition(s, k, t);
  }

  /** The FEN string "8/8/8/8/8/8/8/PPPPPPPPP w - - 0 1", whose first rank
      names nine squares, loads without throwing, and afterwards A2 is on
      both the white pawn bitboard and the empty-square bitboard. */
  lemma NinePawnsLoad()
    ensures LoadFEN(DefaultPosition, "8/8/8/8/8/8/8/PPPPPPPPP w - - 0 1").ok
    ensures var b := LoadFEN(DefaultPosition, "8/8/8/8/8/8/8/PPPPPPPPP w - - 0 1").position.bitboards;
            Has(b[PieceIndex(WhitePawn)], A2) && Has(b[PieceIndex(Empty)], A2)
  {
    NinePawns();
    NinePawnsFields();
  }

  lemma NinePawnsFields()
    ensures Grammar("8/8/8/8/8/8/8/PPPPPPPPP w - - 0 1")
    ensures Split("8/8/8/8/8/8/8/PPPPPPPPP w - - 0 1") == ["8/8/8/8/8/8/8/PPPPPPPPP", "w", "-", "-", "0", "1"]
  {
    var p := "8/8/8/8/8/8/8/PPPPPPPPP";
    JoinedFields(p, "w", "-", "-", "0", "1", ' ', ' ', ' ', ' ', ' ');
    NinePawnsJoined();
  }

  lemma NinePawnsJoined()
    ensures "8/8/8/8/8/8/8/PPPPPPPPP w - - 0 1"
         == "8/8/8/8/8/8/8/PPPPPPPPP" + [' '] + ("w" + [' '] + ("-" + [' '] + ("-" + [' '] + ("0" + [' '] + "1"))))
  {
  }

  /** The en passant target `FromRaw` sets: none for a negative square,
      otherwise the bit of the square. */
  function RawEnPassant(square: int): Bitboard
  {
    if square < 0 then 0 else Bit(square)
  }

  /** A negative square gives no target and a square 0..63 gives exactly
      that square. */
  lemma RawEnPassantSquare(square: int, t: Square)
    ensures square < 0 ==> RawEnPassant(square) == 0
    ensures 0 <= square < 64 ==> (Has(RawEnPassant(square), t) <==> t as int == square)
  {
    if 0 <= square < 64 {
      HasSetSquare(0, SquareAt(square), t);
      SquareAtIs(square, t);
    }
  }

  // ---------------------------------------------------------------------------
  // The board object

  class Board {
    var bitboards: array<Bitboard>
    var castling: bv8
    var turn: Color
    var enPassant: Bitboard
    var halfmoves: int
    var fullmoves: int

    ghost predicate Valid()
      reads this
    {
      bitboards.Length == kNumPieces
    }

    /** The board's fields as one value. */
    function State(): Position
      reads this, bitboards
    {
      Position(bitboards[..], castling, turn, enPassant, halfmoves, fullmoves)
    }

    /** An empty board: no pieces, no castling rights, no en passant target,
        White to move, half-move clock 0 and full-move clock 1. */
    constructor ()
      ensures Valid() && fresh(bitboards)
      ensures State() == DefaultPosition
    {
      bitboards := new Bitboard[kNumPieces](_ => 0);
      castling := 0;
      enPassant := 0;
      halfmoves := 0;
      fullmoves := 1;
      turn := White;
      new;
      assert bitboards[..] == EmptyBoards;
    }

    /** A board built from a FEN string: the empty board, then the load. */
    static method FromString(fen: string) returns (board: Board, ok: bool)
      ensures fresh(board) && fresh(board.bitboards) && board.Valid()
      ensures LoadFEN(DefaultPosition, fen) == Loaded(board.State(), ok)
    {
      board := new Board();
      ok := board.FromFEN(fen);
    }

    /** A board given field by field; a negative en passant square means no
        target. */
    static method FromRaw(boards: seq<Bitboard>, turn: Color, castling: bv8,
                          enPassantSquare: int, halfmoves: int, fullmoves: int)
      returns (board: Board)
      requires |boards| == kNumPieces
      ensures fresh(board) && fresh(board.bitboards) && board.Valid()
      ensures board.State()
              == Position(boards, castling, turn, RawEnPassant(enPassantSquare), halfmoves, fullmoves)
    {
      board := new Board();
      board.bitboards := new Bitboard[kNumPieces](i requires 0 <= i < kNumPieces => boards[i]);
      board.turn := turn;
      board.castling := castling;
      board.enPassant := if enPassantSquare < 0 then 0 else Bit(enPassantSquare);
      board.halfmoves := halfmoves;
      board.fullmoves := fullmoves;
      assert board.bitboards[..] == boards;
    }

    /** Loads a FEN string onto the board; `ok` is false where the load
        throws, and the board is then left as the load left it. */
    method FromFEN(fen: string) returns (ok: bool)
      requires Valid()
      modifies this, bitboards
      ensures Valid() && bitboards == old(bitboards)
      ensures State() == LoadFEN(old(State()), fen).position
      ensures ok == LoadFEN(old(State()), fen).ok
    {
      ghost var p := State();
      if !Grammar(fen) {
        return false;
      }
      var fields := Split(fen);
      ok := PlacePieces(fields[0]);
      LoadFENSteps(p, fen);
      ghost var q := LoadFEN(p, fen).position;
      if ok {
        ReadFields(fields);
      }
      assert bitboards[..] == q.bitboards;
      assert castling == q.castling && turn == q.turn && enPassant == q.enPassant;
      assert halfmoves == q.halfmoves && fullmoves == q.fullmoves;
      assert q == Position(q.bitboards, q.castling, q.turn, q.enPassant, q.halfmoves, q.fullmoves);
    }

    /** The fields after the placement: the side to move, the castling
        letters OR-ed onto the rights held, the en passant square, and the
        two clocks, each first set to 0. */
    method ReadFields(fields: seq<string>)
      requires |fields| == 6 && TurnField(fields[1]) && CastlingField(fields[2])
      requires EnPassantField(fields[3]) && ClockField(fields[4]) && ClockField(fields[5])
      modifies this
      ensures bitboards == old(bitboards)
      ensures turn == TurnOf(fields[1]) && castling == CastlingOf(old(castling), fields[2])
      ensures enPassant == EnPassantOf(fields[3])
      ensures halfmoves == ClockOf(fields[4]) && fullmoves == ClockOf(fields[5])
    {
      turn := if fields[1][0] == 'w' then White else Black;
      if fields[2][0] != '-' {
        castling := AddCastlingLetters(castling, fields[2]);
      }
      enPassant := ReadEnPassant(fields[3]);
      halfmoves, fullmoves := 0, 0;
      if fields[4][0] != '-' {
        halfmoves := ParseClock(fields[4]);
      }
      if fields[5][0] != '-' {
        fullmoves := ParseClock(fields[5]);
      }
    }

    /** The placement loop: rank 8 first, file A first, each square OR-ed
        into its bitboard; the walk throws when the rank falls below 1 at
        the end. */
    method PlacePieces(s: string) returns (ok: bool)
      requires Valid() && PlacementChars(s)
      modifies bitboards
      ensures Valid()
      ensures ok == Placement(s, RankCheck).ok
      ensures bitboards[..] == Apply(old(bitboards[..]), Placement(s, RankCheck).cells)
    {
      ghost var base := bitboards[..];
      var file, rank := 0, 7;
      var i := 0;
      while i < |s|
        invariant 0 <= i <= |s| && Valid()
        invariant Walk(s[..i], RankCheck).rank == rank && Walk(s[..i], RankCheck).file == file
        invariant Walk(s[..i], RankCheck).ok
        invariant bitboards[..] == Apply(base, Walk(s[..i], RankCheck).cells)
      {
        ghost var w := Walk(s[..i], RankCheck);
        WalkSnoc(s[..i], s[i], RankCheck);
        assert s[..i + 1] == s[..i] + [s[i]];
        var placed;
        rank, file, placed := PlaceChar(base, w, s[i], rank, file);
        if !placed {
          WalkFrozen(s, i + 1, RankCheck);
          return false;
        }
        i := i + 1;
      }
      assert s[..i] == s;
      ok := rank <= 0;
    }

    /** One character of the placement: a '/' moves to the next rank down
        (throwing below rank 1), a digit places that many empty squares, any
        other letter places its piece and then checks the rank. */
    method PlaceChar(ghost base: seq<Bitboard>, ghost w: Walker, c: char, rank0: int, file0: int)
      returns (rank: int, file: int, ok: bool)
      requires Valid() && |base| == kNumPieces && bitboards[..] == Apply(base, w.cells)
      requires w.rank == rank0 && w.file == file0 && w.ok && IsPlacementChar(c)
      modifies bitboards
      ensures Valid() && bitboards[..] == Apply(base, Step(w, c, RankCheck).cells)
      ensures Step(w, c, RankCheck).rank == rank && Step(w, c, RankCheck).file == file
      ensures Step(w, c, RankCheck).ok == ok
    {
      rank, file, ok := rank0, file0, true;
      if c == '/' {
        file := 0;
        rank := rank - 1;
        if rank < 0 {
          ok := false;
        }
      } else if c < 'A' {
        assert Step(w, c, RankCheck) == Fill(w, c as int - '0' as int);
        file, ok := PlaceEmpties(base, w, rank, file, c as int - '0' as int);
      } else {
        ghost var piece := Cell(PieceOfChar(c), rank, file);
        assert Step(w, c, RankCheck).cells == w.cells + [piece];
        OrSquare(base, w.cells, PieceOfChar(c), rank, file);
        file := file + 1;
        if rank > 8 {
          ok := false;
        }
      }
    }

    /** The squares of one digit: `n` empty squares from the current file
        on, each OR-ed into the empty-square bitboard and followed by the
        check that the file has not passed 8. */
    method PlaceEmpties(ghost base: seq<Bitboard>, ghost w: Walker, rank: int, start: int, n: int)
      returns (file: int, ok: bool)
      requires Valid() && |base| == kNumPieces && bitboards[..] == Apply(base, w.cells)
      requires w.rank == rank && w.file == start && w.ok && 1 <= n
      modifies bitboards
      ensures Valid() && bitboards[..] == Apply(base, Fill(w, n).cells)
      ensures Fill(w, n).rank == rank && Fill(w, n).file == file && Fill(w, n).ok == ok
    {
      file := start;
      ghost var v := w;
      var num := 1;
      while num <= n
        invariant 1 <= num <= n + 1 && v == Fill(w, num - 1)
        invariant Valid() && bitboards[..] == Apply(base, v.cells)
        invariant v.rank == rank && v.file == file && v.ok
      {
        OrSquare(base, v.cells, Empty, rank, file);
        file := file + 1;
        v := PutEmpty(v);
        assert v == Fill(w, num);
        if file > 8 {
          FillFrozen(w, num, n);
          return file, false;
        }
        num := num + 1;
      }
      return file, true;
    }

    /** One square: its bit OR-ed into the bitboard of its piece. */
    method OrSquare(ghost base: seq<Bitboard>, ghost cells: seq<Cell>, piece: Piece, rank: int, file: int)
      requires Valid() && |base| == kNumPieces && bitboards[..] == Apply(base, cells)
      modifies bitboards
      ensures Valid() && bitboards[..] == Apply(base, cells + [Cell(piece, rank, file)])
    {
      var k := PieceIndex(piece);
      ApplyOneMore(base, cells, piece, rank, file);
      bitboards[k] := bitboards[k] | Bit(8 * rank + file);
    }
  }

  lemma ApplyOneMore(boards: seq<Bitboard>, cells: seq<Cell>, piece: Piece, rank: int, file: int)
    requires |boards| == kNumPieces
    ensures var b := Apply(boards, cells);
            Apply(boards, cells + [Cell(piece, rank, file)])
            == b[PieceIndex(piece) := b[PieceIndex(piece)] | Bit(8 * rank + file)]
  {
    ApplySnoc(boards, cells, Cell(piece, rank, file));
  }

  /** How a load unfolds: the gate, then the placement, then the other fields
      only when the placement has not thrown. */
  lemma LoadFENSteps(p: Position, fen: string)
    requires |p.bitboards| == kNumPieces && Grammar(fen)
    ensures var f := Split(fen);
            var w := Placement(f[0], RankCheck);
            var q := LoadFEN(p, fen).position;
            LoadFEN(p, fen).ok == w.ok
            && q.bitboards == Apply(p.bitboards, w.cells)
            && (!w.ok ==> q.castling == p.castling && q.turn == p.turn && q.enPassant == p.enPassant
                          && q.halfmoves == p.halfmoves && q.fullmoves == p.fullmoves)
            && (w.ok ==> q.castling == CastlingOf(p.castling, f[2]) && q.turn == TurnOf(f[1])
                         && q.enPassant == EnPassantOf(f[3])
                         && q.halfmoves == ClockOf(f[4]) && q.fullmoves == ClockOf(f[5]))
  {
  }

  /** The en passant field: none for "-", otherwise the bit of the square
      its file letter and rank digit name. */
  method ReadEnPassant(field: string) returns (target: Bitboard)
    requires EnPassantField(field)
    ensures target == EnPassantOf(field)
  {
    if field[0] == '-' {
      target := 0;
    } else {
      var file := field[0] as int - 'a' as int;
      var rank := field[1] as int - '1' as int;
      assert 8 * rank + file == Format.ParseSquare(field[0], field[1]);
      target := Bit(8 * rank + file);
    }
  }

  /** The castling loop: the flag of every letter OR-ed onto the rights. */
  method AddCastlingLetters(rights: bv8, field: string) returns (r: bv8)
    ensures r == AddLetters(rights, field)
  {
    r := rights;
    for i := 0 to |field|
      invariant r == AddLetters(rights, field[..i])
    {
      var c := field[i];
      if c == 'K' {
        r := r | CastleFlag(WhiteKingSide);
      } else if c == 'Q' {
        r := r | CastleFlag(WhiteQueenSide);
      } else if c == 'k' {
        r := r | CastleFlag(BlackKingSide);
      } else if c == 'q' {
        r := r | CastleFlag(BlackQueenSide);
      }
      assert field[..i + 1][..i] == field[..i];
    }
    assert field[..|field|] == field;
  }

  /** The clock loop: ten times the count so far plus the next digit. */
  method ParseClock(field: string) returns (n: int)
    ensures n == Decimal(field)
  {
    n := 0;
    for i := 0 to |field|
      invariant n == Decimal(field[..i])
    {
      n := 10 * n + (field[i] as int - '0' as int);
      assert field[..i + 1][..i] == field[..i];
    }
    assert field[..|field|] == field;
  }
}
