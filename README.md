# lightknight core, modelled in Dafny

This project models the core of the lightknight chess engine:

- **Bitboard geometry.** Squares, the piece, colour and castling enums, the file and rank masks, and the eight directional shifts that never wrap around a board edge. Also the lowest-bit isolation, the De Bruijn bit scan and the population count.
- **Attack tables.** The relevant-occupancy masks of bishops and rooks and the pawn, knight and king attack tables, each built by its precompute loop. The magic-bitboard tables for bishops and rooks, and the sliding-attack lookups that read them.
- **Castling table.** What each castling right moves and which squares it needs empty and safe.
- **Magic search.** The offline magic-number generator: the occupancy hash, the blocker-board enumeration, the search for one square and the drivers for all 64 squares.
- **The board.** Its FEN loader, the raw constructor and the default constructor.
- **Printing.** Squares, promotion pieces, moves and bitboards as text.

A bitboard is a `bv64`, with bit `i` standing for square `i` (A1 = 0, H8 = 63). A square is a `bv8` below 64. Dafny's bit-vector arithmetic wraps modulo 2^64, as `uint64_t` does.

Three things are parameters of the model:

- **Randomness.** `rng(p)` is the p-th 64-bit draw of the magic search.
- **Magic constants.** The 64 magics per slider. The tables and lookups are proved correct for any magics that are collision-free on their square (`Magic.MagicInjective`). The search is proved to return only such magics (`MagicsGen.FoundMagicInjective`).
- **Exceptions.** A C++ exception thrown by the loader becomes `ok == false`. The model keeps the board state the throw leaves behind.

Each precompute routine is an imperative method over an `array`. Its loop invariants tie the array to a specification function: `Types.Tabulates`, `Magic.SquareFilled`. Lemmas then characterise those functions square by square. For example:

- the knight attacks of `s` are exactly the squares a knight's move away;
- the rook attacks are the squares on the rank or file of `s` with no blocker strictly between;
- the table lookup equals the ray-walk attacks for every occupancy.

The board is a `class`. Its array of thirteen bitboards is updated in place, and `FromFEN` is proved against the specification function `ChessBoard.LoadFEN`.

Two behaviours of the loader deserve a note:

- **Partition invariant.** The loader does not keep the 13 bitboards pairwise disjoint, nor does it make them cover the board.
  - `FromRaw` copies whatever it is given.
  - A placement whose ranks are short leaves squares on no bitboard.
  - The rank check at `src/board.cc:72` lets a ninth square on rank 1 overlap rank 2 (see Findings).

  The model proves the partition only for placements of eight full ranks (`ChessBoard.LoadFENFullRanks`). It proves disjointness for the corrected check (`Fen.CorrectedDisjoint`).
- **Loader order.** The loader ORs the castling letters onto the rights the board already had, and it writes the placement into the existing bitboards. `LoadFEN` therefore takes the previous position as an input.

## Model

| member | source | states |
|---|---|---|
| Types.PieceIndexBijective | include/types.h:8-23 | the enum values 0..12 name the thirteen pieces one to one, with `Empty` last |
| Types.CastleFlagsAreBits | include/types.h:31-37 | each castling flag is a single bit; distinct rights have disjoint bits; the four together fill the low nibble |
| Types.EdgeMasks | include/types.h:39-55 | `kFileA`/`kFileH` hold exactly the squares of file A/H, `kRank1`/`kRank8` exactly those of rank 1/8 |
| Types.NorthHas | include/types.h:70 | square t is in `North(b)` iff t is above rank 1 and the square below it is in b |
| Types.SouthHas | include/types.h:71 | square t is in `South(b)` iff t is below rank 8 and the square above it is in b |
| Types.EastHas | include/types.h:72 | square t is in `East(b)` iff t is off file A and its west neighbour is in b (no wrap to the next rank) |
| Types.WestHas | include/types.h:73 | square t is in `West(b)` iff t is off file H and its east neighbour is in b |
| Types.ShiftEdges | include/types.h:70-77 | every shift sends the edge squares it crosses off the board and never lands on the opposite edge |
| Types.NorthEastCommutes | include/types.h:74 | NorthEast is East then North or North then East alike |
| Types.SouthEastCommutes | include/types.h:75 | SouthEast is the vertical and horizontal shift in either order |
| Types.SouthWestCommutes | include/types.h:76 | SouthWest is the vertical and horizontal shift in either order |
| Types.NorthWestCommutes | include/types.h:77 | NorthWest is the vertical and horizontal shift in either order |
| Types.LSBIsLowestBit | include/types.h:91 | `b & -b` is the bitboard of the lowest set square of b, and 0 for the empty board |
| Types.ClearLowest | include/types.h:96 | `b & (b - 1)` lists the squares of b without its lowest one |
| Types.SetSquaresSpec | include/types.h:93-100 | the square list behind the population count holds exactly the squares of b, strictly increasing |
| Types.PopCountZero | include/types.h:95 | the population count is 0 exactly for the empty board, so the counting loop stops exactly then |
| Types.PopCountAdd | include/types.h:93-100 | adding a square the board lacks raises the population count by one |
| Types.PopCountUnion | include/types.h:93-100 | the population count of four boards that share no square is the sum of their counts |
| Types.SetBitsCount | include/types.h:93-100 | the loop returns the number of set squares of the bitboard |
| Types.BitboardToSquareInverts | include/types.h:102-105 | the De Bruijn multiply, shift by 58 and table read give back s from the single-bit board of s, for all 64 squares |
| Types.LSBSquareIsLowest | include/types.h:107 | `LSBSquare` names the lowest set square of a nonempty board, and A1 for the empty board |
| Types.RankFileDecode | include/types.h:108-110 | rank `s / 8` and file `s % 8` are on the board and rebuild s as 8·rank + file |
| Types.HasSquare | include/types.h:108 | `1 << s` holds square s and no other |
| Format.SquareStringShape | src/types.cc:5-7 | a square prints as its file letter a..h and rank digit 1..8 |
| Format.SquareStringParses | src/types.cc:5-7 | reading the two printed characters back gives the square |
| Format.PromotionCharCases | src/types.cc:9-24 | the four promotion pieces print as distinct letters among n, b, r, q; every other value prints '?' |
| Format.MoveStringParses | src/types.cc:26-38 | a move prints as 4 characters, 6 for a promotion; origin and destination read back, and a promotion ends in '=' and the piece letter |
| Format.PrintBitboard | src/types.cc:40-50 | the nested loops produce `Grid(b)`, rank 8 first |
| Format.GridCell | src/types.cc:40-50 | the grid has 8 lines of 8 cells and a newline; the cell for rank r, file f is 'O' exactly when the bitboard holds that square |
| Format.GridInjective | src/types.cc:40-50 | two bitboards with the same printed grid are equal |
| Castling.CastleInfoGeometry | include/movegen.h:23-56 | each right moves the king from E1/E8 to C or G and the rook from the A or H corner to D or F; the safe squares are the king's and rook's landing squares |
| Castling.CastleInfoConsistent | include/movegen.h:23-56 | the safe squares are among the squares that must be empty, the king and rook origins are not, and every square involved is on the home rank |
| Castling.UnusedEntries | include/movegen.h:23-56 | the twelve entries not indexed by a castling flag are empty |
| Rays.RayMaskHas | include/movegen.h:96-110 | a square is in a ray's mask iff it is on the ray and the next square along the ray is on the board |
| Rays.RayAttackHas | include/movegen.h:231-256 | a square is attacked along a ray iff it is on the ray and no earlier square of the ray is a blocker |
| Rays.BishopMaskHas | include/movegen.h:89-113 | the bishop mask of s holds exactly the squares diagonal to s, other than s, on ranks and files 1..6 |
| Rays.RookMaskHas | include/movegen.h:114-130 | the rook mask of s holds the squares of its rank off files A and H and of its file off ranks 1 and 8, other than s |
| Rays.RayMaskCount | include/movegen.h:96-110 | a ray's mask holds as many squares as the ray can step before its next square leaves the board |
| Rays.RookMaskCount | include/movegen.h:114-130 | the rook mask of s holds 6 squares along its rank when s is on file A or H and 5 otherwise, plus 6 along its file when s is on rank 1 or 8 and 5 otherwise |
| Rays.BishopMaskCount | include/movegen.h:89-113 | the bishop mask of s holds the sum of its four diagonal rays' counts |
| Rays.BishopAttacksHas | include/movegen.h:226-256 | the bishop attacks from s are the squares diagonal to s, other than s, with no blocker strictly between |
| Rays.RookAttacksHas | include/movegen.h:300-328 | the rook attacks from s are the squares on its rank or file, other than s, with no blocker strictly between |
| Rays.BishopIgnoresOutside | include/movegen.h:87-88 | the bishop attacks depend only on the blockers inside the bishop's relevant mask |
| Rays.RookIgnoresOutside | include/movegen.h:87-88 | the rook attacks depend only on the blockers inside the rook's relevant mask |
| Occupancy.MaskGuardIff | include/movegen.h:97 | the loop guard `r <= 6 && f <= 6` (and the other three) holds exactly when the square and its successor on the ray are on the board |
| Occupancy.AttackGuardIff | include/movegen.h:232 | the loop guard `r <= 7 && f <= 7` (and the others) holds exactly when the square is on the board |
| Occupancy.AddRayMask | include/movegen.h:97-98 | one mask loop ORs exactly the ray's mask into the accumulator |
| Occupancy.DiagonalWalks | include/movegen.h:96-110 | the four diagonal loops of one square compute the bishop mask |
| Occupancy.StraightWalks | include/movegen.h:121-127 | the four straight loops of one square compute the rook mask |
| Occupancy.PrecomputeBishopRelevantOccupancy | include/movegen.h:89-113 | entry i of the array is the bishop mask of square i |
| Occupancy.PrecomputeRookRelevantOccupancy | include/movegen.h:114-130 | entry i of the array is the rook mask of square i |
| Occupancy.AddRayAttack | include/movegen.h:232-236 | one attack loop, with its break on the first blocker, ORs exactly the ray's attacks into the accumulator |
| Occupancy.DiagonalAttackWalks | include/movegen.h:231-256 | the four diagonal attack loops compute the bishop attacks for the blockers |
| Occupancy.StraightAttackWalks | include/movegen.h:305-328 | the four straight attack loops compute the rook attacks for the blockers |
| Leapers.WhitePawnAttacksHas | include/movegen.h:143 | a white pawn on s attacks exactly the squares one rank up and one file to either side |
| Leapers.BlackPawnAttacksHas | include/movegen.h:144 | a black pawn on s attacks exactly the squares one rank down and one file to either side |
| Leapers.WhitePawnLastRank | include/movegen.h:143 | a white pawn on rank 8 attacks nothing |
| Leapers.BlackPawnFirstRank | include/movegen.h:144 | a black pawn on rank 1 attacks nothing |
| Leapers.KnightAttacksHas | include/movegen.h:156-164 | the knight attacks of s are exactly the squares a (±1, ±2) or (±2, ±1) step away |
| Leapers.KnightNotSelf | include/movegen.h:156-164 | a knight never attacks its own square |
| Leapers.KingAttacksHas | include/movegen.h:178-186 | the king attacks of s are exactly the squares at most one rank and one file away, other than s |
| Leapers.KingNotSelf | include/movegen.h:178-186 | a king never attacks its own square |
| Leapers.PrecomputePawnAttacks | include/movegen.h:136-148 | entry s holds the white pawn attacks of s and entry 64 + s the black ones |
| Leapers.PrecomputeKnightAttacks | include/movegen.h:150-170 | entry s holds the knight attacks of s |
| Leapers.PrecomputeKingAttacks | include/movegen.h:172-192 | entry s holds the king attacks of s |
| Blockers.BitIndices | include/movegen.h:205-209 | the loop lists exactly the squares of the mask, in increasing order |
| Blockers.ConfigurationBoard | include/movegen.h:216-221 | the inner loop builds the board holding `bit_indices[j]` exactly when bit j of i is set |
| Blockers.EnumerateConfigurations | include/movegen.h:211-223 | the outer loop produces 2^n boards, board i being configuration i |
| Blockers.ConfigurationsCover | include/movegen.h:211-223 | every subset of the listed squares is configuration number `Code(b)`, below 2^n |
| Blockers.ConfigurationsDistinct | include/movegen.h:211-223 | distinct numbers below 2^n give distinct boards |
| Blockers.LastConfiguration | include/movegen.h:211-223 | the last configuration, 2^n - 1, is the whole mask |
| Blockers.BlockerBoards | helpers/magics-gen/magics_gen.cc:24-45 | the blocker boards of a mask are 2^popcount boards that enumerate its subsets |
| Blockers.EnumeratedWithin | helpers/magics-gen/magics_gen.cc:24-45 | every enumerated board is a subset of the mask |
| Blockers.EnumeratedCovers | helpers/magics-gen/magics_gen.cc:24-45 | every subset of the mask is one of the enumerated boards |
| Blockers.EnumeratedDistinct | helpers/magics-gen/magics_gen.cc:24-45 | no board is enumerated twice |
| Magic.HashBound | include/movegen.h:259 | the bishop hash (shift 55) is below 512 and the rook hash (shift 52) below 4096 |
| Magic.SlotInBlock | include/movegen.h:260 | square sq's slot `sq · 2^(64 - shift) + hash` lies in sq's own block and inside the table |
| Magic.BlocksDisjoint | include/movegen.h:61 | the blocks of two squares share no slot |
| Magic.InjectiveSlots | include/movegen.h:259-261 | under a collision-free magic, distinct blocker boards of a square get distinct slots |
| Magic.AttackWalks | include/movegen.h:226-256 | the attack loops for one blocker board compute the ray-walk attacks of the slider |
| Magic.StoreAttacks | include/movegen.h:226-262 | after one square's stores, every blocker board of the square finds its attacks at its slot; slots no blocker board of the square reaches keep their old value, and other squares' blocks are unchanged |
| Magic.SquareBoards | include/movegen.h:199-223 | the blocker boards generated for a square enumerate the subsets of its relevant mask |
| Magic.PrecomputeAttacks | include/movegen.h:194-266 | after all 64 squares, every blocker board of every square finds its attacks at its slot, and every entry no blocker board reaches keeps its initial 0 |
| Magic.PrecomputeBishopAttacks | include/movegen.h:194-266 | the bishop table has 64 · 512 entries, is filled for every square, and is 0 at every entry no blocker board reaches |
| Magic.PrecomputeRookAttacks | include/movegen.h:268-338 | the rook table has 64 · 4096 entries, is filled for every square, and is 0 at every entry no blocker board reaches |
| Lookup.LookupInRange | src/movegen.cc:7-9 | the slot a lookup reads lies in the square's block and inside the table |
| Lookup.ReadFilled | src/movegen.cc:22 | a filled table answers every blocker board of the square with its ray-walk attacks |
| Lookup.LookupIgnoresOutside | src/movegen.cc:7 | masking the occupancy twice reads the same slot as masking once |
| Lookup.LookupCorrect | src/movegen.cc:6-40 | with the relevant mask and a filled table, the lookup equals the ray-walk attacks for every occupancy, blockers outside the mask included |
| Lookup.BishopLookupCorrect | src/movegen.cc:6-23 | `BishopAttackBitboard` equals the bishop's ray-walk attacks for every occupancy |
| Lookup.RookLookupCorrect | src/movegen.cc:25-40 | `RookAttackBitboard` equals the rook's ray-walk attacks for every occupancy |
| Lookup.BishopLookupHas | src/movegen.cc:6-23 | square t is in the bishop lookup iff t is diagonal to s, not s, and the way is open |
| Lookup.RookLookupHas | src/movegen.cc:25-40 | square t is in the rook lookup iff t shares s's rank or file, is not s, and the way is open |
| Lookup.QueenHasEither | src/movegen.cc:42-44 | the queen attacks are the union of the bishop and rook lookups |
| Lookup.QueenLookupHas | src/movegen.cc:42-44 | square t is in the queen lookup iff a bishop or a rook on s would see it |
| Lookup.RookEmptyBoard | src/movegen.cc:25-40 | on an empty board a rook sees its whole rank and file but not its own square |
| Lookup.RookAdjacent | src/movegen.cc:25-40 | a rook always attacks the orthogonally adjacent squares, whatever the occupancy |
| Lookup.BishopAdjacent | src/movegen.cc:6-23 | a bishop always attacks the diagonally adjacent squares, whatever the occupancy |
| MagicsGen.RookBitsRange | helpers/magics-gen/magics_gen.h:10-19 | every rook bit count is 10..12, and 12 exactly on the four corners |
| MagicsGen.BishopBitsRange | helpers/magics-gen/magics_gen.h:21-30 | every bishop bit count is 5..9, and 9 exactly on the four centre squares |
| MagicsGen.RookBitsCount | helpers/magics-gen/magics_gen.h:10-19 | each rook bit count is the number of squares in that square's rook mask |
| MagicsGen.BishopBitsCount | helpers/magics-gen/magics_gen.h:21-30 | each bishop bit count is the number of squares in that square's bishop mask |
| MagicsGen.BitsCount | helpers/magics-gen/magics_gen.cc:49 | the bit count the search checks against the shift, for either slider and any square, is the number of squares in that slider's relevant mask |
| MagicsGen.EngineShiftFits | helpers/magics-gen/magics_gen.cc:49 | at the engine's shifts (64 - 9, 64 - 12) no square's bit count exceeds the hash width, so the early exit never fires |
| MagicsGen.NarrowWiden | helpers/magics-gen/magics_gen.cc:19-22 | for shifts of 33 or more, narrowing the hash to 32-bit `int` and widening it back loses nothing |
| MagicsGen.StoredHashIsMagicHash | helpers/magics-gen/magics_gen.cc:63 | at the engine's shifts, the hash the search stores is the hash the engine's tables use |
| MagicsGen.CandidateHashes | helpers/magics-gen/magics_gen.cc:60-71 | the hash set reaches the number of blocker boards exactly when all their hashes are distinct |
| MagicsGen.Collision | helpers/magics-gen/magics_gen.cc:64-65 | a repeated hash means the candidate is not collision-free |
| MagicsGen.SearchSound | helpers/magics-gen/magics_gen.cc:58-73 | a nonzero magic returned by the attempts loop passes the collision test |
| MagicsGen.SearchAttempt | helpers/magics-gen/magics_gen.cc:58-73 | the magic returned is the first accepted candidate within the attempt budget |
| MagicsGen.SearchGivesUp | helpers/magics-gen/magics_gen.cc:75-77 | when no candidate in the budget passes, the search returns 0 after consuming all draws |
| MagicsGen.FindSound | helpers/magics-gen/magics_gen.cc:47-78 | the search returns 0 at once when the bit count exceeds 64 - shift; a nonzero magic gives every blocker board its own hash |
| MagicsGen.FindMagic | helpers/magics-gen/magics_gen.cc:47-112 | the method returns the magic and the next draw that the search specification gives |
| MagicsGen.FindRookMagic | helpers/magics-gen/magics_gen.cc:47-78 | the rook search, as `FindMagic` for rooks |
| MagicsGen.FindBishopMagic | helpers/magics-gen/magics_gen.cc:80-112 | the bishop search, as `FindMagic` for bishops |
| MagicsGen.FoundMagicInjective | helpers/magics-gen/magics_gen.cc:47-78 | a nonzero magic found at the engine's shift is collision-free for the engine's tables |
| MagicsGen.GenerateFixedShiftMagics | helpers/magics-gen/magics_gen.cc:127-153 | the driver stores each square's search result up to the first failure, then zeros; it reports success exactly when all 64 magics are nonzero |
| MagicsGen.GenerateRookFixedShiftMagics | helpers/magics-gen/magics_gen.cc:127-139 | the rook driver, as above |
| MagicsGen.GenerateBishopFixedShiftMagics | helpers/magics-gen/magics_gen.cc:141-153 | the bishop driver, as above |
| MagicsGen.GeneratedStops | helpers/magics-gen/magics_gen.cc:133-134 | after the first zero magic, every later entry is zero |
| MagicsGen.GeneratedMagicsFit | helpers/magics-gen/magics_gen.cc:127-153 | when the driver succeeds at the engine's shift, all 64 magics are fit for the engine's precompute |
| Fen.SplitFields | src/board.cc:15-22 | the fields of the string contain no white space, one more field than there are separators |
| Fen.JoinedFields | src/board.cc:15-35 | six well-formed fields joined by single white-space characters pass the format gate and split back into those fields |
| Fen.ApplyHas | src/board.cc:60-69 | after the placement ORs, square t is on bitboard k iff it was before or some placed cell of piece k lands on t |
| Fen.WalkRank | src/board.cc:46-55 | while the walk has not failed, its rank is 7 minus the number of '/' read so far |
| Fen.PlacementSlashes | src/board.cc:46-78 | a placement that passes every check has exactly seven '/' |
| Fen.FullRanksRead | src/board.cc:46-78 | a placement of eight ranks of exactly eight squares passes and places its squares in reading order |
| Fen.FullRanksChecksAgree | src/board.cc:72 | on full ranks, the check as written and the corrected check behave alike |
| Fen.FullRanksPartition | src/board.cc:46-78 | on empty bitboards, a full-rank placement puts every square on exactly the bitboard of the piece it names |
| Fen.CorrectedDisjoint | src/board.cc:56-75 | with the file check the code evidently intended, no square lands on two bitboards |
| Fen.NinePawns | src/board.cc:68-73 | "8/8/8/8/8/8/8/PPPPPPPPP" passes the check as written but fails the corrected one; A2 ends up white pawn and empty at once |
| Fen.TurnOfField | src/board.cc:81-84 | the side to move is White exactly for "w" and Black exactly for "b" |
| Fen.AddLettersHas | src/board.cc:87-104 | after the castling loop a right is held iff it was held before or its letter occurs; the high nibble is untouched |
| Fen.CastlingOfField | src/board.cc:87-104 | for a castling field, including "-", a right is held iff held before or named; the high nibble is untouched |
| Fen.EnPassantSquare | src/board.cc:107-113 | a square field names a square on rank 3 or 6; the target is that square's bit, and the square prints back as the field |
| Fen.SquareEnPassant | src/board.cc:107-113 | every square on rank 3 or 6 printed as a field is accepted and gives its own bit |
| Fen.DecimalRoundTrip | src/board.cc:116-124 | the clock loop reads back the canonical decimal spelling of every n, without leading zeros: `Decimal(DecimalString(n)) == n` |
| Fen.DecimalNonNegative | src/board.cc:116-124 | a clock read from digits is never negative |
| ChessBoard.LoadFENOutcome | src/board.cc:13-78 | a load succeeds iff the string passes the format gate and the placement raises nothing; a refused string changes nothing; a failed load changes only the bitboards |
| ChessBoard.LoadFENFields | src/board.cc:80-124 | after a successful load the turn, castling rights, en passant target and both clocks are the values their fields spell |
| ChessBoard.LoadFENFullRanks | src/board.cc:146-148 | loading eight full ranks onto a new board puts every square on exactly the bitboard of the piece the placement names there |
| ChessBoard.NinePawnsLoad | src/board.cc:72 | "8/8/8/8/8/8/8/PPPPPPPPP w - - 0 1" loads without an exception and leaves A2 on both the white-pawn and the empty bitboard |
| ChessBoard.RawEnPassantSquare | src/board.cc:139 | a negative square gives no target; a square 0..63 gives exactly that square's bit |
| ChessBoard.Board.constructor | src/board.cc:150-157 | a new board has all bitboards 0, no castling rights, White to move, no en passant target, clocks 0 and 1 |
| ChessBoard.Board.FromString | src/board.cc:146-148 | a board built from a string is the default board after `LoadFEN`, with the exception outcome reported |
| ChessBoard.Board.FromRaw | src/board.cc:127-144 | the new board holds the given bitboards, turn, rights and clocks, and the en passant bit of the given square (none when negative) |
| ChessBoard.Board.FromFEN | src/board.cc:13-125 | the in-place load leaves the board in exactly the state `LoadFEN` gives for the old state, and `ok` says whether it threw |
| ChessBoard.Board.PlacePieces | src/board.cc:46-78 | the placement loop ORs exactly the walk's cells into the bitboards and fails exactly when the walk does |
| ChessBoard.Board.PlaceChar | src/board.cc:49-74 | one character moves rank, file and bitboards as one step of the walk |
| ChessBoard.Board.PlaceEmpties | src/board.cc:58-66 | a digit n ORs n squares into the empty bitboard and raises when the file passes 8 |
| ChessBoard.ReadEnPassant | src/board.cc:107-113 | the en passant field gives `EnPassantOf(field)` |
| ChessBoard.AddCastlingLetters | src/board.cc:87-104 | the castling loop gives `CastlingOf(rights, field)` |
| ChessBoard.ParseClock | src/board.cc:118-124 | the clock loop gives `ClockOf(field)` |

## Left out

- The random number generator (`RandU64`, a Mersenne Twister seeded with 42) is not modelled. The search takes the draw sequence as a parameter, and three draws are ANDed into each candidate as the code does.
- `main` in the magic generator and `PrintMagicsArray` only drive the search and write to the console, so they are not modelled. The error messages on standard error are left out too.
- The 64 literal magic constants per slider in `include/movegen.h` are not checked one by one. The tables and lookups assume each is collision-free (`Magic.MagicInjective`). Only magics found by the modelled search are proved to be collision-free.
- The precomputed tables appear as the methods that fill them. `consteval` evaluation is not modelled, and neither are the `std::vector` and `std::array` containers as such.
- The format gate uses `std::regex`, which is not modelled. It is replaced by a predicate over the six white-space-separated fields (`Fen.Grammar`) that accepts the same language.
- Exceptions are an `ok == false` result that carries the board state at the throw. The exception types are left out.
- A lookup of a piece letter that the character map lacks cannot happen once the gate has passed, so it is not modelled.
- `GetSquare` and the `Move` class are not part of the files modelled. `GetSquare(r, f)` is taken as square 8r + f. A move is taken as origin, destination, move type and promotion piece with the accessors the printer uses.
- The move-generation functions are only declared in `include/movegen.h` and have no bodies among the core files, so they are not modelled: `PawnAttackBitboard` and the `Generate*Moves` family.
- `ChessBoard.Board.FromFEN`: the clocks are unbounded integers. The 32-bit `int` overflow of a clock string of ten or more digits is not modelled.
- Shifts of 64 or more are undefined in C++. The model (`Fen.Bit`) takes the shift amount modulo 64, as x86 hardware does. Such shifts happen in three places:
  - the piece branch (`src/board.cc:69`) whenever 8·rank + file reaches 64, for example a ninth piece on rank 8, which the rank check lets through;
  - the empty-square branch (`src/board.cc:60`), which ORs before its `file > 8` check at line 63, so "P8/8/8/8/8/8/8/8 w - - 0 1" and "81/8/8/8/8/8/8/8 w - - 0 1" shift by 64 just before the throw;
  - `FromRaw` (`src/board.cc:139`), given an en passant square of 64 or more.
- `ChessBoard.Board.PlaceEmpties` requires a digit 1..8. The format gate admits only these digits for empty squares, since '0' and '9' are excluded from `[1-8]`.
- `Magic.HashBound`: the hash bound is proved for the two engine shifts only, not for an arbitrary shift.
- The occupancy hash of the search is narrowed to a 32-bit `int` and sign-extended when stored. The model writes both conversions out (`MagicsGen.GetOccupancyHash`, `MagicsGen.StoredHash`). They are proved lossless only for shifts of 33 or more, which covers the engine's shifts.

## Findings

| source | as written | input that shows it | evidently intended | confidence | as-written member | corrected member |
|---|---|---|---|---|---|---|
| src/board.cc:72 | after placing a piece the loader checks `rank > 8`, which can never hold, so a ninth piece on a rank is accepted and written into the next rank's first square | "8/8/8/8/8/8/8/PPPPPPPPP w - - 0 1": the ninth pawn goes to bit 8 (A2), which the empty-square bitboard already holds | `file > 8` (raise when a rank names more than eight squares), as the empty-square branch at line 63 does | high; not executed | ChessBoard.NinePawnsLoad | Fen.CorrectedDisjoint |
