/**
 * The magic-number search: the occupancy hash, the collision test of one
 * candidate, the search for one square and the drivers that search all 64
 * squares.
 *
 * The random source is a parameter: `rng(p)` is the p-th 64-bit draw, and a
 * search that starts at draw `start` reports the first draw it left unused.
 */
module MagicsGen {
  import opened Types
  import opened Rays
  import opened Blockers
  import opened Magic

  /** The number of relevant blocker squares of a rook on each square, one
      rank per row. */
  const kRookBits: seq<int> :=
    [12, 11, 11, 11, 11, 11, 11, 12] +
    [11, 10, 10, 10, 10, 10, 10, 11] +
    [11, 10, 10, 10, 10, 10, 10, 11] +
    [11, 10, 10, 10, 10, 10, 10, 11] +
    [11, 10, 10, 10, 10, 10, 10, 11] +
    [11, 10, 10, 10, 10, 10, 10, 11] +
    [11, 10, 10, 10, 10, 10, 10, 11] +
    [12, 11, 11, 11, 11, 11, 11, 12]

  /** The number of relevant blocker squares of a bishop on each square. */
  const kBishopBits: seq<int> :=
    [6, 5, 5, 5, 5, 5, 5, 6] +
    [5, 5, 5, 5, 5, 5, 5, 5] +
    [5, 5, 7, 7, 7, 7, 5, 5] +
    [5, 5, 7, 9, 9, 7, 5, 5] +
    [5, 5, 7, 9, 9, 7, 5, 5] +
    [5, 5, 7, 7, 7, 7, 5, 5] +
    [5, 5, 5, 5, 5, 5, 5, 5] +
    [6, 5, 5, 5, 5, 5, 5, 6]

  function Bits(kind: Slider, sq: Square): int
  {
    SquareBounds(sq);
    match kind
    case Bishop => kBishopBits[sq as int]
    case Rook => kRookBits[sq as int]
  }

  /** The shift the engine uses for a slider, as the search takes it:
      64 - 9 for bishops and 64 - 12 for rooks. */
  function EngineShift(kind: Slider): (shift: int)
    ensures 0 <= shift < 64
  {
    match kind
    case Bishop => 55
    case Rook => 52
  }

  lemma SquareBounds(sq: Square)
    ensures 0 <= sq as int < 64
  {
  }

  // ---------------------------------------------------------------------------
  // The bit-count tables

  /** Every rook count is 10, 11 or 12; 12 = 64 - 52 is the largest and sits
      on the four corners only. */
  lemma RookBitsRange(i: int)
    requires 0 <= i < 64
    ensures 10 <= kRookBits[i] <= 12 == 64 - EngineShift(Rook)
    ensures kRookBits[i] == 12 <==> i in {0, 7, 56, 63}
  {
  }

  /** Every bishop count lies in 5..9; 9 = 64 - 55 is the largest and is
      reached only on d4, e4, d5 and e5. */
  lemma BishopBitsRange(i: int)
    requires 0 <= i < 64
    ensures 5 <= kBishopBits[i] <= 9 == 64 - EngineShift(Bishop)
    ensures kBishopBits[i] == 9 <==> i in {27, 28, 35, 36}
  {
  }

  /** The rook table as a formula: five or six squares along the rank, and
      as many along the file. */
  lemma RookTable(i: int, r: int, f: int)
    requires 0 <= r < 8 && 0 <= f < 8 && i == 8 * r + f
    ensures kRookBits[i] == (if 1 <= f <= 6 then 5 else 6) + (if 1 <= r <= 6 then 5 else 6)
  {
    if r == 0 {
    } else if r == 1 {
    } else if r == 2 {
    } else if r == 3 {
    } else if r == 4 {
    } else if r == 5 {
    } else if r == 6 {
    } else {
    }
  }

  /** The steps the four diagonal rays from (r, f) have left. */
  function DiagonalCount(r: int, f: int): int
  {
    RayCount(r + 1, f + 1, 1, 1) + RayCount(r + 1, f - 1, 1, -1)
    + RayCount(r - 1, f + 1, -1, 1) + RayCount(r - 1, f - 1, -1, -1)
  }

  /** The bishop table as a formula: the steps each diagonal ray has left. */
  lemma BishopTable(r: int, f: int)
    requires 0 <= r < 8 && 0 <= f < 8
    ensures kBishopBits[8 * r + f] == DiagonalCount(r, f)
  {
    match r
    case 0 => BishopRank1(f);
    case 1 => BishopRank2(f);
    case 2 => BishopRank3(f);
    case 3 => BishopRank4(f);
    case 4 => BishopRank5(f);
    case 5 => BishopRank6(f);
    case 6 => BishopRank7(f);
    case 7 => BishopRank8(f);
  }

  lemma BishopRank1(f: int)
    requires 0 <= f < 8
    ensures kBishopBits[0 + f] == DiagonalCount(0, f)
  {
  }

  lemma BishopRank2(f: int)
    requires 0 <= f < 8
    ensures kBishopBits[8 + f] == DiagonalCount(1, f)
  {
  }

  lemma BishopRank3(f: int)
    requires 0 <= f < 8
    ensures kBishopBits[16 + f] == DiagonalCount(2, f)
  {
  }

  lemma BishopRank4(f: int)
    requires 0 <= f < 8
    ensures kBishopBits[24 + f] == DiagonalCount(3, f)
  {
  }

  lemma BishopRank5(f: int)
    requires 0 <= f < 8
    ensures kBishopBits[32 + f] == DiagonalCount(4, f)
  {
  }

  lemma BishopRank6(f: int)
    requires 0 <= f < 8
    ensures kBishopBits[40 + f] == DiagonalCount(5, f)
  {
  }

  lemma BishopRank7(f: int)
    requires 0 <= f < 8
    ensures kBishopBits[48 + f] == DiagonalCount(6, f)
  {
  }

  lemma BishopRank8(f: int)
    requires 0 <= f < 8
    ensures kBishopBits[56 + f] == DiagonalCount(7, f)
  {
  }

  /** `kRookBits[s]` is the number of squares of the rook mask of `s`: the
      number of blocker configurations of a rook on `s` is 2 to that power. */
  lemma RookBitsCount(s: Square)
    ensures kRookBits[s as int] == PopCount(RookMask(s))
  {
    RankFileDecode(s);
    RookMaskCount(s);
    RookTable(s as int, Rank(s), File(s));
  }

  /** `kBishopBits[s]` is the number of squares of the bishop mask of `s`. */
  lemma BishopBitsCount(s: Square)
    ensures kBishopBits[s as int] == PopCount(BishopMask(s))
  {
    RankFileDecode(s);
    BishopMaskCount(s);
    BishopTable(Rank(s), File(s));
  }

  /** The count the search compares with the shift is the size of the
      relevant mask. */
  lemma BitsCount(kind: Slider, sq: Square)
    ensures Bits(kind, sq) == PopCount(RelevantMask(kind, sq))
  {
    if kind == Bishop {
      BishopBitsCount(sq);
    } else {
      RookBitsCount(sq);
    }
  }

  /** At the engine's shift the guard of the search never fires. */
  lemma EngineShiftFits(kind: Slider, sq: Square)
    ensures 1 <= Bits(kind, sq) <= 64 - EngineShift(kind)
  {
    SquareBounds(sq);
    if kind == Bishop {
      BishopBitsRange(sq as int);
    } else {
      RookBitsRange(sq as int);
    }
  }

  // ---------------------------------------------------------------------------
  // The occupancy hash

  /** The low 32 bits of a word: the conversion of the 64-bit product to the
      `int` the hash function returns. */
  function Low32(x: Bitboard): bv32
  {
    (x & 0xFFFF_FFFF) as bv32
  }

  /** A 32-bit `int` widened to a 64-bit unsigned word: its sign bit is
      copied into the upper half. */
  function SignExtend(v: bv32): Bitboard
  {
    if v & 0x8000_0000 != 0 then (v as bv64) | 0xFFFF_FFFF_0000_0000 else v as bv64
  }

  /** The occupancy hash as a 32-bit `int`: the product, wrapped to 64 bits,
      shifted right by `shift`, then narrowed. */
  function GetOccupancyHash(occupancy: Bitboard, magic: Bitboard, shift: int): bv32
    requires 0 <= shift < 64
  {
    Low32((occupancy * magic) >> shift)
  }

  /** The hash as the search stores it, back in a 64-bit unsigned word. */
  function StoredHash(occupancy: Bitboard, magic: Bitboard, shift: int): Bitboard
    requires 0 <= shift < 64
  {
    SignExtend(GetOccupancyHash(occupancy, magic, shift))
  }

  /** The stored hash of a candidate, as a function of the board. */
  function HashOf(magic: Bitboard, shift: int): Bitboard -> Bitboard
    requires 0 <= shift < 64
  {
    b => StoredHash(b, magic, shift)
  }

  /** When the shift leaves at most 31 bits, narrowing to `int` and widening
      back lose nothing. */
  lemma NarrowWiden(x: Bitboard, shift: int)
    requires 33 <= shift < 64
    ensures SignExtend(Low32(x >> shift)) == x >> shift
  {
  }

  lemma BishopShiftSame(x: Bitboard)
    ensures x >> 55 == x >> kBishopMagicShift
  {
  }

  lemma RookShiftSame(x: Bitboard)
    ensures x >> 52 == x >> kRookMagicShift
  {
  }

  /** At the engine's shift the stored hash is the table's square hash. */
  lemma StoredHashIsMagicHash(kind: Slider, occupancy: Bitboard, magic: Bitboard)
    ensures StoredHash(occupancy, magic, EngineShift(kind))
         == MagicHash(occupancy, magic, MagicShift(kind))
  {
    var x := occupancy * magic;
    NarrowWiden(x, EngineShift(kind));
    if kind == Bishop {
      BishopShiftSame(x);
    } else {
      RookShiftSame(x);
    }
  }

  // ---------------------------------------------------------------------------
  // The collision test of one candidate

  /** No two boards of the list share a hash. */
  predicate HashesDistinct(boards: seq<Bitboard>, hash: Bitboard -> Bitboard)
  {
    DistinctUpTo(boards, hash, |boards|)
  }

  /** No two of the first `n` boards share a hash. */
  predicate DistinctUpTo(boards: seq<Bitboard>, hash: Bitboard -> Bitboard, n: int)
    requires 0 <= n <= |boards|
  {
    forall i, k :: 0 <= i < k < n ==> hash(boards[i]) != hash(boards[k])
  }

  /** The hashes of the first `n` boards. */
  function HashSet(boards: seq<Bitboard>, hash: Bitboard -> Bitboard, n: int): set<Bitboard>
    requires 0 <= n <= |boards|
  {
    if n == 0 then {} else HashSet(boards, hash, n - 1) + {hash(boards[n - 1])}
  }

  lemma {:induction false} HashSetHas(boards: seq<Bitboard>, hash: Bitboard -> Bitboard, n: int, i: int)
    requires 0 <= i < n <= |boards|
    ensures hash(boards[i]) in HashSet(boards, hash, n)
  {
    if i < n - 1 {
      HashSetHas(boards, hash, n - 1, i);
    }
  }

  lemma {:induction false} HashSetFrom(boards: seq<Bitboard>, hash: Bitboard -> Bitboard, n: int, h: Bitboard)
    returns (i: int)
    requires 0 <= n <= |boards|
    requires h in HashSet(boards, hash, n)
    ensures 0 <= i < n && hash(boards[i]) == h
  {
    if h == hash(boards[n - 1]) {
      i := n - 1;
    } else {
      i := HashSetFrom(boards, hash, n - 1, h);
    }
  }

  /** A fresh hash extends the collision-free prefix by one board. */
  lemma DistinctStep(boards: seq<Bitboard>, hash: Bitboard -> Bitboard, n: int)
    requires 0 <= n < |boards|
    requires DistinctUpTo(boards, hash, n)
    requires hash(boards[n]) !in HashSet(boards, hash, n)
    ensures DistinctUpTo(boards, hash, n + 1)
  {
    forall i | 0 <= i < n
      ensures hash(boards[i]) != hash(boards[n])
    {
      HashSetHas(boards, hash, n, i);
    }
  }

  /** A hash seen before is a collision in the whole list. */
  lemma Collision(boards: seq<Bitboard>, hash: Bitboard -> Bitboard, n: int)
    requires 0 <= n < |boards|
    requires hash(boards[n]) in HashSet(boards, hash, n)
    ensures !HashesDistinct(boards, hash)
  {
    var i := HashSetFrom(boards, hash, n, hash(boards[n]));
    assert hash(boards[i]) == hash(boards[n]);
  }

  /** Hashes the boards in order into a set, stopping at the first hash seen
      before; the set ends up with one hash per board exactly when no two
      boards collide. */
  method CandidateHashes(boards: seq<Bitboard>, candidate: Bitboard, shift: int) returns (hashes: set<Bitboard>)
    requires 0 <= shift < 64
    ensures |hashes| == |boards| <==> HashesDistinct(boards, HashOf(candidate, shift))
  {
    ghost var hash := HashOf(candidate, shift);
    hashes := {};
    var j := 0;
    while j < |boards|
      invariant 0 <= j <= |boards|
      invariant hashes == HashSet(boards, hash, j)
      invariant |hashes| == j
      invariant DistinctUpTo(boards, hash, j)
    {
      var newHash := StoredHash(boards[j], candidate, shift);
      assert newHash == hash(boards[j]);
      if newHash in hashes {
        Collision(boards, hash, j);
        break;
      }
      DistinctStep(boards, hash, j);
      hashes := hashes + {newHash};
      j := j + 1;
    }
  }

  // ---------------------------------------------------------------------------
  // The search for one square

  /** A candidate: three consecutive draws ANDed together, so that it has few
      bits set. */
  function Candidate(rng: nat -> Bitboard, p: nat): Bitboard
  {
    rng(p) & rng(p + 1) & rng(p + 2)
  }

  /** The collision test a search applies to each candidate: every board
      gets its own hash. */
  predicate Accepts(boards: seq<Bitboard>, shift: int, magic: Bitboard)
    requires 0 <= shift < 64
  {
    HashesDistinct(boards, HashOf(magic, shift))
  }

  /** `accepts` is the collision test of the boards at the shift. */
  ghost predicate IsTest(accepts: Bitboard -> bool, boards: seq<Bitboard>, shift: int)
    requires 0 <= shift < 64
  {
    forall m {:trigger Accepts(boards, shift, m)} :: accepts(m) == Accepts(boards, shift, m)
  }

  /** `candidates` lists the candidates drawn from `start` on. */
  ghost predicate AreCandidates(candidates: nat -> Bitboard, rng: nat -> Bitboard, start: nat)
  {
    forall a: nat :: candidates(a) == Candidate(rng, start + 3 * a)
  }

  /** The test as a function of the candidate. */
  function Test(boards: seq<Bitboard>, shift: int): (accepts: Bitboard -> bool)
    requires 0 <= shift < 64
    ensures IsTest(accepts, boards, shift)
  {
    m => Accepts(boards, shift, m)
  }

  /** The candidates of a search that starts at draw `start`: attempt `a`
      uses draws start + 3a, start + 3a + 1 and start + 3a + 2. */
  function Candidates(rng: nat -> Bitboard, start: nat): (candidates: nat -> Bitboard)
    ensures AreCandidates(candidates, rng, start)
  {
    (a: nat) => Candidate(rng, start + 3 * a)
  }

  /** The outcome of the attempts `a`, `a + 1`, ..., `a + n - 1`: the first
      candidate that passes `accepts`, with the number of the attempt after
      it, or 0 once every attempt failed. */
  function Search(accepts: Bitboard -> bool, candidates: nat -> Bitboard, a: nat, n: int): (r: (Bitboard, nat))
    ensures a <= r.1 <= a + Max(n, 0)
    decreases n
  {
    if n <= 0 then (0, a)
    else if accepts(candidates(a)) then (candidates(a), a + 1)
    else Search(accepts, candidates, a + 1, n - 1)
  }

  /** A nonzero outcome passed the test. */
  lemma {:induction false} SearchSound(accepts: Bitboard -> bool, candidates: nat -> Bitboard, a: nat, n: int)
    ensures Search(accepts, candidates, a, n).0 != 0 ==> accepts(Search(accepts, candidates, a, n).0)
    decreases n
  {
    if n > 0 && !accepts(candidates(a)) {
      SearchSound(accepts, candidates, a + 1, n - 1);
    }
  }

  /** A nonzero outcome is the candidate of some attempt `k`, every earlier
      attempt failed, and the search stopped right after it. */
  lemma {:induction false} SearchAttempt(accepts: Bitboard -> bool, candidates: nat -> Bitboard, a: nat, n: int)
    returns (k: nat)
    requires Search(accepts, candidates, a, n).0 != 0
    ensures a <= k < a + n && Search(accepts, candidates, a, n) == (candidates(k), k + 1)
    ensures accepts(candidates(k))
    ensures forall b :: a <= b < k ==> !accepts(candidates(b))
    decreases n
  {
    if accepts(candidates(a)) {
      k := a;
    } else {
      k := SearchAttempt(accepts, candidates, a + 1, n - 1);
    }
  }

  /** When every one of the `n` attempts fails, the search gives up with 0
      after all of them. */
  lemma {:induction false} SearchGivesUp(accepts: Bitboard -> bool, candidates: nat -> Bitboard, a: nat, n: nat)
    requires forall b :: a <= b < a + n ==> !accepts(candidates(b))
    ensures Search(accepts, candidates, a, n) == (0, a + n)
    decreases n
  {
    if n > 0 {
      SearchGivesUp(accepts, candidates, a + 1, n - 1);
    }
  }

  /** The blocker boards of a mask, in the order they are enumerated. */
  ghost function MaskBoards(mask: Bitboard): seq<Bitboard>
  {
    seq(Pow2(PopCount(mask)), k requires 0 <= k => Configuration(k, SetSquares(mask)))
  }

  /** The enumeration of a mask's boards is unique. */
  lemma BoardsAreMaskBoards(mask: Bitboard, boards: seq<Bitboard>)
    requires BoardsOf(mask, boards)
    ensures boards == MaskBoards(mask)
  {
  }

  /** What the search for one square returns, with the draw after it: 0 at
      once when the square's bit count does not fit the hash width, else the
      outcome of the attempts. */
  ghost function FindResult(kind: Slider, sq: Square, shift: int, n: int, rng: nat -> Bitboard, p: nat): (Bitboard, nat)
    requires 0 <= shift
  {
    if Bits(kind, sq) > 64 - shift then (0, p)
    else
      EngineShiftFits(kind, sq);
      Outcome(Search(Test(MaskBoards(RelevantMask(kind, sq)), shift), Candidates(rng, p), 0, n), p)
  }

  /** The search gives up at once when the square's bit count exceeds the
      hash width, and a nonzero magic it returns gives every blocker board of
      the square its own hash. */
  lemma FindSound(kind: Slider, sq: Square, shift: int, n: int, rng: nat -> Bitboard, p: nat)
    requires 0 <= shift
    ensures Bits(kind, sq) > 64 - shift ==> FindResult(kind, sq, shift, n, rng, p) == (0, p)
    ensures FindResult(kind, sq, shift, n, rng, p).0 != 0 ==>
              shift < 64 && HashesDistinct(MaskBoards(RelevantMask(kind, sq)), HashOf(FindResult(kind, sq, shift, n, rng, p).0, shift))
  {
    if Bits(kind, sq) <= 64 - shift {
      EngineShiftFits(kind, sq);
      var boards := MaskBoards(RelevantMask(kind, sq));
      var accepts := Test(boards, shift);
      var r := Search(accepts, Candidates(rng, p), 0, n);
      SearchSound(accepts, Candidates(rng, p), 0, n);
      assert FindResult(kind, sq, shift, n, rng, p) == Outcome(r, p);
      if r.0 != 0 {
        assert accepts(r.0) == Accepts(boards, shift, r.0);
      }
    }
  }

  /** Searches up to `nAttempts` candidates for a magic of `square`. */
  method FindMagic(kind: Slider, square: Square, shift: int, nAttempts: int, rng: nat -> Bitboard, start: nat)
    returns (magic: Bitboard, next: nat)
    requires 0 <= shift
    ensures (magic, next) == FindResult(kind, square, shift, nAttempts, rng, start)
  {
    if Bits(kind, square) > 64 - shift {
      return 0, start;
    }
    EngineShiftFits(kind, square);
    var boards := SquareBoards(kind, square);
    BoardsAreMaskBoards(RelevantMask(kind, square), boards);
    ghost var r := Search(Test(boards, shift), Candidates(rng, start), 0, nAttempts);
    assert FindResult(kind, square, shift, nAttempts, rng, start) == Outcome(r, start);
    magic, next := Attempts(Test(boards, shift), Candidates(rng, start), boards, shift, nAttempts, rng, start);
    assert magic == r.0 && next == start + 3 * r.1;
    assert magic == Outcome(r, start).0;
    assert next == Outcome(r, start).1;
    assert (magic, next) == Outcome(r, start);
  }

  /** The attempt loop of the search: draws a candidate, hashes every board
      with it, and returns it as soon as no two boards collide. */
  method Attempts(ghost accepts: Bitboard -> bool, ghost candidates: nat -> Bitboard,
                  boards: seq<Bitboard>, shift: int, nAttempts: int, rng: nat -> Bitboard, start: nat)
    returns (magic: Bitboard, next: nat)
    requires 0 <= shift < 64
    requires IsTest(accepts, boards, shift) && AreCandidates(candidates, rng, start)
    ensures var r := Search(accepts, candidates, 0, nAttempts); magic == r.0 && next == start + 3 * r.1
  {
    ghost var r := Search(accepts, candidates, 0, nAttempts);
    next := start;
    var i := 0;
    while i < nAttempts
      invariant 0 <= i && next == start + 3 * i
      invariant r == Search(accepts, candidates, i, nAttempts - i)
    {
      var candidateMagic, found := TryCandidate(accepts, candidates, boards, shift, rng, start, next, i);
      if found {
        assert r == (candidateMagic, i + 1);
        return candidateMagic, next + 3;
      }
      next := next + 3;
      i := i + 1;
    }
    assert r == (0, i);
    magic := 0;
  }

  /** One attempt: draws the candidate and tests it. */
  method TryCandidate(ghost accepts: Bitboard -> bool, ghost candidates: nat -> Bitboard,
                      boards: seq<Bitboard>, shift: int, rng: nat -> Bitboard, start: nat, next: nat, i: nat)
    returns (candidateMagic: Bitboard, found: bool)
    requires 0 <= shift < 64 && next == start + 3 * i
    requires IsTest(accepts, boards, shift) && AreCandidates(candidates, rng, start)
    ensures candidateMagic == candidates(i)
    ensures found == accepts(candidateMagic)
  {
    candidateMagic := rng(next) & rng(next + 1) & rng(next + 2);
    var hashes := CandidateHashes(boards, candidateMagic, shift);
    found := |hashes| == |boards|;
    assert found == Accepts(boards, shift, candidateMagic);
  }

  /** The magic and the next draw, from a search outcome and the first draw. */
  function Outcome(r: (Bitboard, nat), start: nat): (Bitboard, nat)
  {
    (r.0, start + 3 * r.1)
  }

  method FindRookMagic(square: Square, shift: int, nAttempts: int, rng: nat -> Bitboard, start: nat)
    returns (magic: Bitboard, next: nat)
    requires 0 <= shift
    ensures (magic, next) == FindResult(Rook, square, shift, nAttempts, rng, start)
  {
    magic, next := FindMagic(Rook, square, shift, nAttempts, rng, start);
  }

  method FindBishopMagic(square: Square, shift: int, nAttempts: int, rng: nat -> Bitboard, start: nat)
    returns (magic: Bitboard, next: nat)
    requires 0 <= shift
    ensures (magic, next) == FindResult(Bishop, square, shift, nAttempts, rng, start)
  {
    magic, next := FindMagic(Bishop, square, shift, nAttempts, rng, start);
  }

  // ---------------------------------------------------------------------------
  // The drivers

  function Zeros(k: nat): (z: seq<Bitboard>)
    ensures |z| == k && forall j :: 0 <= j < k ==> z[j] == 0
  {
    seq(k, _ => 0)
  }

  /** A search for one square: from a square index and a first draw to the
      magic and the next draw. */
  type Finder = (int, nat) -> (Bitboard, nat)

  /** `find` is the search of `kind` at the given shift and attempt count. */
  ghost predicate IsFinder(find: Finder, kind: Slider, shift: int, n: int, rng: nat -> Bitboard)
    requires 0 <= shift
  {
    forall i, p {:trigger FindResult(kind, SquareAt(i), shift, n, rng, p)} ::
      0 <= i < 64 ==> find(i, p) == FindResult(kind, SquareAt(i), shift, n, rng, p)
  }

  ghost function FinderOf(kind: Slider, shift: int, n: int, rng: nat -> Bitboard): (find: Finder)
    requires 0 <= shift
    ensures IsFinder(find, kind, shift, n, rng)
  {
    (i, p) => if 0 <= i < 64 then FindResult(kind, SquareAt(i), shift, n, rng, p) else (0, p)
  }

  /** The magics the driver stores for squares i, i + 1, ..., 63 when the
      search of square i starts at draw p: each square's search result, up to
      and including the first 0, then zeros. */
  ghost function Generated(find: Finder, p: nat, i: int): (g: seq<Bitboard>)
    requires 0 <= i <= 64
    ensures |g| == 64 - i
    decreases 64 - i
  {
    if i == 64 then []
    else
      var r := find(i, p);
      if r.0 == 0 then Zeros(64 - i) else [r.0] + Generated(find, r.1, i + 1)
  }

  /** Searches a magic for every square in turn, giving up at the first
      square without one; reports whether all 64 were found. */
  method GenerateFixedShiftMagics(kind: Slider, shift: int, nAttempts: int, rng: nat -> Bitboard, start: nat)
    returns (found: bool, magics: array<Bitboard>)
    requires 0 <= shift
    ensures fresh(magics) && magics.Length == 64
    ensures magics[..] == Generated(FinderOf(kind, shift, nAttempts, rng), start, 0)
    ensures found <==> forall k :: 0 <= k < 64 ==> magics[k] != 0
  {
    found, magics := SquareLoop(FinderOf(kind, shift, nAttempts, rng), kind, shift, nAttempts, rng, start);
  }

  /** The loop over the squares of the driver, for a `find` that is the
      search of one square. */
  method SquareLoop(ghost find: Finder, kind: Slider, shift: int, nAttempts: int, rng: nat -> Bitboard, start: nat)
    returns (found: bool, magics: array<Bitboard>)
    requires 0 <= shift && IsFinder(find, kind, shift, nAttempts, rng)
    ensures fresh(magics) && magics.Length == 64
    ensures magics[..] == Generated(find, start, 0)
    ensures found <==> forall k :: 0 <= k < 64 ==> magics[k] != 0
  {
    magics := new Bitboard[64](_ => 0);
    var p := start;
    var i := 0;
    while i < 64
      invariant 0 <= i <= 64
      invariant Generated(find, start, 0) == magics[..i] + Generated(find, p, i)
      invariant forall k :: i <= k < 64 ==> magics[k] == 0
      invariant forall k :: 0 <= k < i ==> magics[k] != 0
    {
      var magic, next := FindAt(find, kind, shift, nAttempts, rng, i, p);
      magics[i] := magic;
      if magic == 0 {
        ZeroTail(magics[..], i);
        return false, magics;
      }
      GeneratedStep(magics[..], magics[..i], find, start, p, next, i);
      p := next;
      i := i + 1;
    }
    found := true;
  }

  /** The search of square `i`, as `find` gives it. */
  method FindAt(ghost find: Finder, kind: Slider, shift: int, nAttempts: int, rng: nat -> Bitboard, i: int, p: nat)
    returns (magic: Bitboard, next: nat)
    requires 0 <= shift && IsFinder(find, kind, shift, nAttempts, rng) && 0 <= i < 64
    ensures (magic, next) == find(i, p)
  {
    magic, next := FindMagic(kind, SquareAt(i), shift, nAttempts, rng, p);
  }

  lemma ZeroTail(s: seq<Bitboard>, i: int)
    requires |s| == 64 && 0 <= i < 64
    requires forall k :: i <= k < 64 ==> s[k] == 0
    ensures s == s[..i] + Zeros(64 - i)
  {
  }

  lemma GeneratedStep(s: seq<Bitboard>, prefix: seq<Bitboard>, find: Finder, start: nat, p: nat, next: nat, i: int)
    requires 0 <= i < 64 && |s| == 64 && prefix == s[..i]
    requires find(i, p) == (s[i], next) && s[i] != 0
    requires Generated(find, start, 0) == prefix + Generated(find, p, i)
    ensures Generated(find, start, 0) == s[..i + 1] + Generated(find, next, i + 1)
  {
    var rest := Generated(find, next, i + 1);
    assert Generated(find, p, i) == [s[i]] + rest;
    assert s[..i + 1] == prefix + [s[i]];
    assert prefix + ([s[i]] + rest) == (prefix + [s[i]]) + rest;
  }

  method GenerateRookFixedShiftMagics(shift: int, nAttempts: int, rng: nat -> Bitboard, start: nat)
    returns (found: bool, magics: array<Bitboard>)
    requires 0 <= shift
    ensures fresh(magics) && magics.Length == 64
    ensures magics[..] == Generated(FinderOf(Rook, shift, nAttempts, rng), start, 0)
    ensures found <==> forall k :: 0 <= k < 64 ==> magics[k] != 0
  {
    found, magics := GenerateFixedShiftMagics(Rook, shift, nAttempts, rng, start);
  }

  method GenerateBishopFixedShiftMagics(shift: int, nAttempts: int, rng: nat -> Bitboard, start: nat)
    returns (found: bool, magics: array<Bitboard>)
    requires 0 <= shift
    ensures fresh(magics) && magics.Length == 64
    ensures magics[..] == Generated(FinderOf(Bishop, shift, nAttempts, rng), start, 0)
    ensures found <==> forall k :: 0 <= k < 64 ==> magics[k] != 0
  {
    found, magics := GenerateFixedShiftMagics(Bishop, shift, nAttempts, rng, start);
  }

  /** Entry k of the generated magics, when nonzero, is what the search of
      square i + k returned from some draw on. */
  lemma {:induction false} GeneratedEntry(find: Finder, p: nat, i: int, k: int) returns (q: nat)
    requires 0 <= i <= 64 && 0 <= k < 64 - i
    requires Generated(find, p, i)[k] != 0
    ensures Generated(find, p, i)[k] == find(i + k, q).0
    decreases 64 - i
  {
    var r := find(i, p);
    if k == 0 {
      q := p;
    } else {
      q := GeneratedEntry(find, r.1, i + 1, k - 1);
    }
  }

  /** Once a square has no magic, neither has any later square: the driver
      stopped there. */
  lemma {:induction false} GeneratedStops(find: Finder, p: nat, i: int, k1: int, k2: int)
    requires 0 <= i <= 64 && 0 <= k1 < k2 < 64 - i
    requires Generated(find, p, i)[k1] == 0
    ensures Generated(find, p, i)[k2] == 0
    decreases 64 - i
  {
    var r := find(i, p);
    if r.0 != 0 {
      GeneratedStops(find, r.1, i + 1, k1 - 1, k2 - 1);
    }
  }

  /** When the driver finds all 64 magics at the engine's shift, every one
      is collision-free over its square's blocker boards, so the attack
      tables can be built from them. */
  lemma GeneratedMagicsFit(kind: Slider, n: int, rng: nat -> Bitboard, start: nat)
    requires forall k :: 0 <= k < 64 ==> Generated(FinderOf(kind, EngineShift(kind), n, rng), start, 0)[k] != 0
    ensures forall s: Square :: MagicInjective(kind, s, Generated(FinderOf(kind, EngineShift(kind), n, rng), start, 0)[s])
  {
    var find := FinderOf(kind, EngineShift(kind), n, rng);
    forall s: Square
      ensures MagicInjective(kind, s, Generated(find, start, 0)[s])
    {
      SquareBounds(s);
      SquareAtNumber(s);
      var q := GeneratedEntry(find, start, 0, s as int);
      assert find(s as int, q) == FindResult(kind, SquareAt(s as int), EngineShift(kind), n, rng, q);
      FoundMagicInjective(kind, s, n, rng, q);
    }
  }

  /** A magic found at the engine's shift is collision-free over every
      blocker board of its square: it is fit for the attack table. */
  lemma FoundMagicInjective(kind: Slider, sq: Square, n: int, rng: nat -> Bitboard, p: nat)
    requires FindResult(kind, sq, EngineShift(kind), n, rng, p).0 != 0
    ensures MagicInjective(kind, sq, FindResult(kind, sq, EngineShift(kind), n, rng, p).0)
  {
    var magic := FindResult(kind, sq, EngineShift(kind), n, rng, p).0;
    FindSound(kind, sq, EngineShift(kind), n, rng, p);
    DistinctInjective(kind, sq, magic);
  }

  lemma DistinctInjective(kind: Slider, sq: Square, magic: Bitboard)
    requires HashesDistinct(MaskBoards(RelevantMask(kind, sq)), HashOf(magic, EngineShift(kind)))
    ensures MagicInjective(kind, sq, magic)
  {
    var mask := RelevantMask(kind, sq);
    var boards := MaskBoards(mask);
    var hash := HashOf(magic, EngineShift(kind));
    MaskBoardsEnumerate(mask);
    forall b1: Bitboard, b2: Bitboard |
      SubsetOf(b1, mask) && SubsetOf(b2, mask)
      && MagicHash(b1, magic, MagicShift(kind)) == MagicHash(b2, magic, MagicShift(kind))
      ensures b1 == b2
    {
      var k1 := EnumeratedCovers(boards, mask, b1);
      var k2 := EnumeratedCovers(boards, mask, b2);
      SameStored(kind, b1, b2, magic);
      if k1 != k2 {
        DistinctAt(boards, hash, k1, k2);
      }
    }
  }

  lemma MaskBoardsEnumerate(mask: Bitboard)
    ensures |MaskBoards(mask)| == Pow2(PopCount(mask))
    ensures Enumerated(MaskBoards(mask), SetSquares(mask))
  {
  }

  lemma SameStored(kind: Slider, b1: Bitboard, b2: Bitboard, magic: Bitboard)
    requires MagicHash(b1, magic, MagicShift(kind)) == MagicHash(b2, magic, MagicShift(kind))
    ensures HashOf(magic, EngineShift(kind))(b1) == HashOf(magic, EngineShift(kind))(b2)
  {
    StoredHashIsMagicHash(kind, b1, magic);
    StoredHashIsMagicHash(kind, b2, magic);
  }

  lemma DistinctAt(boards: seq<Bitboard>, hash: Bitboard -> Bitboard, k1: int, k2: int)
    requires HashesDistinct(boards, hash)
    requires 0 <= k1 < |boards| && 0 <= k2 < |boards| && k1 != k2
    ensures hash(boards[k1]) != hash(boards[k2])
  {
    if k1 < k2 {
      assert DistinctUpTo(boards, hash, |boards|);
    } else {
      assert DistinctUpTo(boards, hash, |boards|);
    }
  }
}
