/**
 * Magic bitboards: the multiply-shift hash of a blocker board, the slot it
 * selects in a slider's attack table, the table precompute, and the lookups
 * that answer a sliding-attack query with one table read.
 *
 * The 64 magic numbers per slider are inputs here; that each is collision-free
 * over its square's blocker boards is taken as a precondition (MagicInjective).
 */
module Magic {
  import opened Types
  import opened Rays
  import opened Blockers
  import Occupancy

  const kBishopMagicShift: bv64 := 64 - 9
  const kRookMagicShift: bv64 := 64 - 12

  /** The table slots reserved for one square, `1 << (64 - shift)`. */
  const kBishopSlotsPerSquare: nat := 512
  const kRookSlotsPerSquare: nat := 4096

  const kBishopAttacksArraySize: nat := 64 * kBishopSlotsPerSquare
  const kRookAttacksArraySize: nat := 64 * kRookSlotsPerSquare

  function MagicShift(kind: Slider): bv64
  {
    match kind
    case Bishop => kBishopMagicShift
    case Rook => kRookMagicShift
  }

  function SlotsPerSquare(kind: Slider): nat
  {
    match kind
    case Bishop => kBishopSlotsPerSquare
    case Rook => kRookSlotsPerSquare
  }

  function AttacksArraySize(kind: Slider): nat
  {
    64 * SlotsPerSquare(kind)
  }

  /** The square hash: the blocker board times the magic, wrapped to 64 bits,
      shifted right by `shift`. */
  function MagicHash(blockers: Bitboard, magic: Bitboard, shift: bv64): Bitboard
    requires shift < 64
  {
    (blockers * magic) >> shift
  }

  lemma BishopHashBits(x: Bitboard)
    ensures x >> kBishopMagicShift < 512
  {
  }

  lemma RookHashBits(x: Bitboard)
    ensures x >> kRookMagicShift < 4096
  {
  }

  lemma BishopHashBelow(h: Bitboard)
    requires h < 512
    ensures h as int < 512
  {
  }

  lemma RookHashBelow(h: Bitboard)
    requires h < 4096
    ensures h as int < 4096
  {
  }

  /** A square hash fits in the slots of one square. */
  lemma HashBound(kind: Slider, blockers: Bitboard, magic: Bitboard)
    ensures MagicHash(blockers, magic, MagicShift(kind)) as int < SlotsPerSquare(kind)
  {
    if kind == Bishop {
      BishopHashBits(blockers * magic);
      BishopHashBelow(MagicHash(blockers, magic, MagicShift(kind)));
    } else {
      RookHashBits(blockers * magic);
      RookHashBelow(MagicHash(blockers, magic, MagicShift(kind)));
    }
  }

  /** Where the attacks of `blockers` from `sq` live in the table:
      `sq * (1 << (64 - shift)) + hash`. */
  function Slot(kind: Slider, sq: Square, blockers: Bitboard, magic: Bitboard): int
  {
    Base(kind, sq as int) + MagicHash(blockers, magic, MagicShift(kind)) as int
  }

  /** A slot lies in its square's own block of the table, so within the
      array. */
  lemma SlotInBlock(kind: Slider, sq: Square, blockers: Bitboard, magic: Bitboard)
    ensures InBlock(kind, sq as int, Slot(kind, sq, blockers, magic))
    ensures 0 <= Slot(kind, sq, blockers, magic) < AttacksArraySize(kind)
  {
    HashBound(kind, blockers, magic);
  }

  /** The first slot of the square with index `i`. */
  function Base(kind: Slider, i: int): int
  {
    match kind
    case Bishop => i * kBishopSlotsPerSquare
    case Rook => i * kRookSlotsPerSquare
  }

  /** The slots of the square with index `i`. */
  predicate InBlock(kind: Slider, i: int, k: int)
  {
    Base(kind, i) <= k < Base(kind, i) + SlotsPerSquare(kind)
  }

  /** Distinct squares own disjoint blocks. */
  lemma BlocksDisjoint(kind: Slider, i1: int, i2: int, k: int)
    requires InBlock(kind, i1, k) && InBlock(kind, i2, k)
    ensures i1 == i2
  {
  }

  lemma SquareIndexBound(s: Square)
    ensures s as int < 64
  {
  }

  lemma SquareIndexInjective(s1: Square, s2: Square)
    requires s1 as int == s2 as int
    ensures s1 == s2
  {
  }

  lemma OffsetInjective(base: int, h1: Bitboard, h2: Bitboard)
    requires base + h1 as int == base + h2 as int
    ensures h1 == h2
  {
    assert (h1 as int) as bv64 == h1;
    assert (h2 as int) as bv64 == h2;
  }

  /** Two boards of one square that share a slot share a hash. */
  lemma SlotSameHash(kind: Slider, sq: Square, b1: Bitboard, b2: Bitboard, magic: Bitboard)
    requires Slot(kind, sq, b1, magic) == Slot(kind, sq, b2, magic)
    ensures MagicHash(b1, magic, MagicShift(kind)) == MagicHash(b2, magic, MagicShift(kind))
  {
    OffsetInjective(Base(kind, sq as int), MagicHash(b1, magic, MagicShift(kind)), MagicHash(b2, magic, MagicShift(kind)));
  }

  // ---------------------------------------------------------------------------
  // What the table holds

  /** The assumption on a magic: no two blocker boards of the square's
      relevant mask share a hash. */
  ghost predicate MagicInjective(kind: Slider, sq: Square, magic: Bitboard)
  {
    forall b1: Bitboard, b2: Bitboard ::
      SubsetOf(b1, RelevantMask(kind, sq)) && SubsetOf(b2, RelevantMask(kind, sq))
      && MagicHash(b1, magic, MagicShift(kind)) == MagicHash(b2, magic, MagicShift(kind))
      ==> b1 == b2
  }

  /** The slot `slot(b)` of the table holds `entry(b)`. */
  ghost predicate Holds(table: seq<Bitboard>, slot: Bitboard -> int, entry: Bitboard -> Bitboard, b: Bitboard)
  {
    0 <= slot(b) < |table| && table[slot(b)] == entry(b)
  }

  /** The first `i` boards hold their entries. */
  ghost predicate HoldsUpTo(table: seq<Bitboard>, slot: Bitboard -> int, entry: Bitboard -> Bitboard,
                            boards: seq<Bitboard>, i: int)
    requires 0 <= i <= |boards|
  {
    forall j :: 0 <= j < i ==> Holds(table, slot, entry, boards[j])
  }

  /** No two subsets of `mask` share a slot. */
  ghost predicate SlotsInjective(slot: Bitboard -> int, mask: Bitboard)
  {
    forall b1: Bitboard, b2: Bitboard ::
      SubsetOf(b1, mask) && SubsetOf(b2, mask) && slot(b1) == slot(b2) ==> b1 == b2
  }

  /** `boards` enumerates the subsets of `mask`. */
  ghost predicate BoardsOf(mask: Bitboard, boards: seq<Bitboard>)
  {
    |boards| == Pow2(PopCount(mask)) && Enumerated(boards, SetSquares(mask))
  }

  /** Writing board i's entry at its slot keeps boards 0..i-1: a board that
      shares the slot is board i itself. */
  lemma HoldsStep(before: seq<Bitboard>, after: seq<Bitboard>, slot: Bitboard -> int, entry: Bitboard -> Bitboard,
                  mask: Bitboard, boards: seq<Bitboard>, i: int)
    requires 0 <= i < |boards| && BoardsOf(mask, boards) && SlotsInjective(slot, mask)
    requires 0 <= slot(boards[i]) < |before| && after == before[slot(boards[i]) := entry(boards[i])]
    requires HoldsUpTo(before, slot, entry, boards, i)
    ensures HoldsUpTo(after, slot, entry, boards, i + 1)
  {
    forall j | 0 <= j < i + 1
      ensures Holds(after, slot, entry, boards[j])
    {
      if j < i {
        EnumeratedWithin(boards, mask, j);
        EnumeratedWithin(boards, mask, i);
      }
    }
  }

  /** Once every enumerated board holds its entry, every subset does. */
  lemma HoldsAll(table: seq<Bitboard>, slot: Bitboard -> int, entry: Bitboard -> Bitboard,
                 mask: Bitboard, boards: seq<Bitboard>)
    requires BoardsOf(mask, boards) && HoldsUpTo(table, slot, entry, boards, |boards|)
    ensures forall b: Bitboard :: SubsetOf(b, mask) ==> Holds(table, slot, entry, b)
  {
    forall b: Bitboard | SubsetOf(b, mask)
      ensures Holds(table, slot, entry, b)
    {
      var k := EnumeratedCovers(boards, mask, b);
    }
  }

  /** The slot of each blocker board of `sq`. */
  function SlotOf(kind: Slider, sq: Square, magic: Bitboard): Bitboard -> int
  {
    b => Slot(kind, sq, b, magic)
  }

  /** The ray-walk attacks of each blocker board of `sq`. */
  function EntryOf(kind: Slider, sq: Square): Bitboard -> Bitboard
  {
    b => SlidingAttacks(kind, sq, b)
  }

  /** Every blocker board of `sq` finds its ray-walk attacks at its slot. */
  ghost predicate SquareFilled(kind: Slider, table: seq<Bitboard>, sq: Square, magic: Bitboard)
  {
    forall b: Bitboard :: SubsetOf(b, RelevantMask(kind, sq)) ==> Holds(table, SlotOf(kind, sq, magic), EntryOf(kind, sq), b)
  }

  /** The table agrees with `prev` outside the block of `sq`. */
  ghost predicate SameOutside(kind: Slider, table: seq<Bitboard>, prev: seq<Bitboard>, sq: Square)
    requires |table| == |prev|
  {
    forall k :: 0 <= k < |table| && !InBlock(kind, sq as int, k) ==> table[k] == prev[k]
  }

  /** A write inside the block of `sq` keeps the table equal to `prev` outside it. */
  lemma OutsideStep(kind: Slider, before: seq<Bitboard>, after: seq<Bitboard>, prev: seq<Bitboard>, sq: Square,
                    k: int, v: Bitboard)
    requires |before| == |prev| && 0 <= k < |before| && InBlock(kind, sq as int, k)
    requires SameOutside(kind, before, prev, sq) && after == before[k := v]
    ensures SameOutside(kind, after, prev, sq)
  {
  }

  /** Some blocker board of `sq` hashes to slot `k`. */
  ghost predicate Reached(kind: Slider, sq: Square, magic: Bitboard, k: int)
  {
    exists b: Bitboard :: SubsetOf(b, RelevantMask(kind, sq)) && Slot(kind, sq, b, magic) == k
  }

  /** Every slot that no blocker board of `sq` reaches still holds its value
      from `prev`. */
  ghost predicate UnreachedKept(kind: Slider, table: seq<Bitboard>, prev: seq<Bitboard>, sq: Square, magic: Bitboard)
    requires |table| == |prev|
  {
    forall k :: 0 <= k < |table| && !Reached(kind, sq, magic, k) ==> table[k] == prev[k]
  }

  /** A write at a board's slot keeps every unreached slot. */
  lemma UnreachedStep(kind: Slider, before: seq<Bitboard>, after: seq<Bitboard>, prev: seq<Bitboard>, sq: Square,
                      magic: Bitboard, b: Bitboard, k: int, v: Bitboard)
    requires |before| == |prev| && 0 <= k < |before| && after == before[k := v]
    requires SubsetOf(b, RelevantMask(kind, sq)) && k == Slot(kind, sq, b, magic)
    requires UnreachedKept(kind, before, prev, sq, magic)
    ensures UnreachedKept(kind, after, prev, sq, magic)
  {
    assert Reached(kind, sq, magic, k);
  }

  /** Under an injective magic, two blocker boards that share a slot are the
      same board. */
  lemma SlotSameBoard(kind: Slider, sq: Square, magic: Bitboard, b1: Bitboard, b2: Bitboard)
    requires SubsetOf(b1, RelevantMask(kind, sq)) && SubsetOf(b2, RelevantMask(kind, sq))
    requires MagicInjective(kind, sq, magic)
    ensures Slot(kind, sq, b1, magic) == Slot(kind, sq, b2, magic) ==> b1 == b2
  {
    if Slot(kind, sq, b1, magic) == Slot(kind, sq, b2, magic) {
      SlotSameHash(kind, sq, b1, b2, magic);
      InjectiveAt(kind, sq, magic, b1, b2);
    }
  }

  lemma InjectiveAt(kind: Slider, sq: Square, magic: Bitboard, b1: Bitboard, b2: Bitboard)
    requires SubsetOf(b1, RelevantMask(kind, sq)) && SubsetOf(b2, RelevantMask(kind, sq))
    requires MagicInjective(kind, sq, magic)
    requires MagicHash(b1, magic, MagicShift(kind)) == MagicHash(b2, magic, MagicShift(kind))
    ensures b1 == b2
  {
  }

  /** An injective magic gives each blocker board of `sq` its own slot. */
  lemma InjectiveSlots(kind: Slider, sq: Square, magic: Bitboard)
    requires MagicInjective(kind, sq, magic)
    ensures SlotsInjective(SlotOf(kind, sq, magic), RelevantMask(kind, sq))
  {
    forall b1: Bitboard, b2: Bitboard | SubsetOf(b1, RelevantMask(kind, sq)) && SubsetOf(b2, RelevantMask(kind, sq))
      ensures Slot(kind, sq, b1, magic) == Slot(kind, sq, b2, magic) ==> b1 == b2
    {
      SlotSameBoard(kind, sq, magic, b1, b2);
    }
  }

  /** A square's entries survive writes to other squares' blocks. */
  lemma FilledFrame(kind: Slider, before: seq<Bitboard>, after: seq<Bitboard>, s: Square, sq: Square,
                    magic: Bitboard)
    requires |before| == |after|
    requires s != sq && SameOutside(kind, after, before, sq)
    requires SquareFilled(kind, before, s, magic)
    ensures SquareFilled(kind, after, s, magic)
  {
    forall b: Bitboard | SubsetOf(b, RelevantMask(kind, s))
      ensures Holds(after, SlotOf(kind, s, magic), EntryOf(kind, s), b)
    {
      var k := Slot(kind, s, b, magic);
      SlotInBlock(kind, s, b, magic);
      if InBlock(kind, sq as int, k) {
        BlocksDisjoint(kind, s as int, sq as int, k);
        SquareIndexInjective(s, sq);
      }
    }
  }

  /** The ray-walk attacks of one blocker board, by slider. */
  method AttackWalks(kind: Slider, sq: Square, blockers: Bitboard) returns (attacks: Bitboard)
    ensures attacks == SlidingAttacks(kind, sq, blockers)
  {
    RankFileDecode(sq);
    if kind == Bishop {
      attacks := Occupancy.DiagonalAttackWalks(Rank(sq), File(sq), blockers);
    } else {
      attacks := Occupancy.StraightAttackWalks(Rank(sq), File(sq), blockers);
    }
  }

  /** Loop invariant of the inner precompute loop: boards 0..i-1 are stored
      and nothing outside the block of `sq` has changed since `prev`. */
  ghost predicate StoreInv(kind: Slider, table: seq<Bitboard>, prev: seq<Bitboard>, sq: Square, magic: Bitboard,
                           boards: seq<Bitboard>, i: int)
  {
    0 <= i <= |boards| && |table| == |prev|
    && HoldsUpTo(table, SlotOf(kind, sq, magic), EntryOf(kind, sq), boards, i)
    && SameOutside(kind, table, prev, sq) && UnreachedKept(kind, table, prev, sq, magic)
  }

  /** One iteration of the inner precompute loop keeps its invariant. */
  lemma StoreInvStep(kind: Slider, before: seq<Bitboard>, after: seq<Bitboard>, prev: seq<Bitboard>, sq: Square,
                     magic: Bitboard, boards: seq<Bitboard>, i: int, k: int, v: Bitboard)
    requires i < |boards| && StoreInv(kind, before, prev, sq, magic, boards, i)
    requires BoardsOf(RelevantMask(kind, sq), boards) && MagicInjective(kind, sq, magic)
    requires k == Slot(kind, sq, boards[i], magic) && v == SlidingAttacks(kind, sq, boards[i])
    requires 0 <= k < |before| && InBlock(kind, sq as int, k) && after == before[k := v]
    ensures StoreInv(kind, after, prev, sq, magic, boards, i + 1)
  {
    assert k == SlotOf(kind, sq, magic)(boards[i]) && v == EntryOf(kind, sq)(boards[i]);
    StoreHoldsStep(kind, before, after, sq, magic, boards, i, k, v);
    OutsideStep(kind, before, after, prev, sq, k, v);
    EnumeratedWithin(boards, RelevantMask(kind, sq), i);
    UnreachedStep(kind, before, after, prev, sq, magic, boards[i], k, v);
  }

  /** Storing board i keeps boards 0..i-1 and adds board i. */
  lemma StoreHoldsStep(kind: Slider, before: seq<Bitboard>, after: seq<Bitboard>, sq: Square,
                       magic: Bitboard, boards: seq<Bitboard>, i: int, k: int, v: Bitboard)
    requires 0 <= i < |boards| && HoldsUpTo(before, SlotOf(kind, sq, magic), EntryOf(kind, sq), boards, i)
    requires BoardsOf(RelevantMask(kind, sq), boards) && MagicInjective(kind, sq, magic)
    requires k == SlotOf(kind, sq, magic)(boards[i]) && v == EntryOf(kind, sq)(boards[i])
    requires 0 <= k < |before| && after == before[k := v]
    ensures HoldsUpTo(after, SlotOf(kind, sq, magic), EntryOf(kind, sq), boards, i + 1)
  {
    InjectiveSlots(kind, sq, magic);
    HoldsStep(before, after, SlotOf(kind, sq, magic), EntryOf(kind, sq), RelevantMask(kind, sq), boards, i);
  }

  /** At the end of the inner precompute loop the square is filled. */
  lemma StoreInvDone(kind: Slider, table: seq<Bitboard>, prev: seq<Bitboard>, sq: Square, magic: Bitboard,
                     boards: seq<Bitboard>)
    requires BoardsOf(RelevantMask(kind, sq), boards) && StoreInv(kind, table, prev, sq, magic, boards, |boards|)
    ensures SquareFilled(kind, table, sq, magic) && SameOutside(kind, table, prev, sq)
    ensures UnreachedKept(kind, table, prev, sq, magic)
  {
    HoldsAll(table, SlotOf(kind, sq, magic), EntryOf(kind, sq), RelevantMask(kind, sq), boards);
  }

  /** Writes one table entry. */
  method Put(table: array<Bitboard>, k: int, v: Bitboard)
    requires 0 <= k < table.Length
    modifies table
    ensures table[..] == old(table[..])[k := v]
  {
    table[k] := v;
  }

  /** One iteration of the inner precompute loop: walk the rays of board i
      and store the attacks at its slot. */
  method StoreOne(kind: Slider, table: array<Bitboard>, ghost prev: seq<Bitboard>, sq: Square, magic: Bitboard,
                  boards: seq<Bitboard>, i: int)
    requires i < |boards| && StoreInv(kind, table[..], prev, sq, magic, boards, i)
    requires table.Length == AttacksArraySize(kind)
    requires BoardsOf(RelevantMask(kind, sq), boards) && MagicInjective(kind, sq, magic)
    modifies table
    ensures StoreInv(kind, table[..], prev, sq, magic, boards, i + 1)
  {
    var attacks := AttackWalks(kind, sq, boards[i]);
    var slot := Slot(kind, sq, boards[i], magic);
    SlotInBlock(kind, sq, boards[i], magic);
    ghost var before := table[..];
    Put(table, slot, attacks);
    StoreInvStep(kind, before, table[..], prev, sq, magic, boards, i, slot, attacks);
  }

  /** The inner loop of the attack precompute: for each blocker board of
      `sq`, walk the rays and store the attacks at the board's slot. */
  method StoreAttacks(kind: Slider, table: array<Bitboard>, sq: Square, magic: Bitboard, boards: seq<Bitboard>)
    requires table.Length == AttacksArraySize(kind)
    requires BoardsOf(RelevantMask(kind, sq), boards) && MagicInjective(kind, sq, magic)
    modifies table
    ensures SquareFilled(kind, table[..], sq, magic)
    ensures SameOutside(kind, table[..], old(table[..]), sq)
    ensures UnreachedKept(kind, table[..], old(table[..]), sq, magic)
  {
    var i := 0;
    while i < |boards|
      invariant StoreInv(kind, table[..], old(table[..]), sq, magic, boards, i)
    {
      StoreOne(kind, table, old(table[..]), sq, magic, boards, i);
      i := i + 1;
    }
    StoreInvDone(kind, table[..], old(table[..]), sq, magic, boards);
  }

  /** The blocker boards of `sq` for a slider: the mask never holds `sq`, so
      it has fewer than 64 squares. */
  method SquareBoards(kind: Slider, sq: Square) returns (boards: seq<Bitboard>)
    ensures BoardsOf(RelevantMask(kind, sq), boards)
  {
    var mask := RelevantMask(kind, sq);
    if kind == Bishop {
      BishopMaskHas(sq, sq);
    } else {
      RookMaskHas(sq, sq);
    }
    PopCountMissing(mask, sq);
    boards := BlockerBoards(mask);
  }

  /** Squares 0..i-1 are filled. */
  ghost predicate FilledUpTo(kind: Slider, table: seq<Bitboard>, magics: seq<Bitboard>, i: int)
    requires |magics| == 64
  {
    forall s: Square :: s as int < i ==> SquareFilled(kind, table, s, magics[s])
  }

  /** Filling square i, without touching other blocks, extends the filled prefix. */
  lemma FilledStep(kind: Slider, before: seq<Bitboard>, after: seq<Bitboard>, magics: seq<Bitboard>,
                   sq: Square, i: int)
    requires |magics| == 64 && |before| == |after| && sq as int == i
    requires FilledUpTo(kind, before, magics, i)
    requires SquareFilled(kind, after, sq, magics[sq]) && SameOutside(kind, after, before, sq)
    ensures FilledUpTo(kind, after, magics, i + 1)
  {
    forall s: Square | s as int < i + 1
      ensures SquareFilled(kind, after, s, magics[s])
    {
      if s as int == i {
        SquareIndexInjective(s, sq);
      } else {
        FilledFrame(kind, before, after, s, sq, magics[s]);
      }
    }
  }

  /** A filled prefix of all 64 squares covers every square. */
  lemma FilledAll(kind: Slider, table: seq<Bitboard>, magics: seq<Bitboard>)
    requires |magics| == 64 && FilledUpTo(kind, table, magics, 64)
    ensures forall s: Square :: SquareFilled(kind, table, s, magics[s])
  {
    forall s: Square
      ensures SquareFilled(kind, table, s, magics[s])
    {
      SquareIndexBound(s);
    }
  }

  /** Some blocker board of some square hashes to slot `k`. */
  ghost predicate Reachable(kind: Slider, magics: seq<Bitboard>, k: int)
    requires |magics| == 64
  {
    exists s: Square :: Reached(kind, s, magics[s], k)
  }

  /** Every nonzero entry is the slot of a blocker board of one of squares
      0..i-1. */
  ghost predicate ZeroUnlessReached(kind: Slider, table: seq<Bitboard>, magics: seq<Bitboard>, i: int)
    requires |magics| == 64
  {
    forall k :: 0 <= k < |table| && table[k] != 0 ==> exists s: Square :: s as int < i && Reached(kind, s, magics[s], k)
  }

  /** Filling square i writes only slots that square i reaches. */
  lemma ZeroStep(kind: Slider, before: seq<Bitboard>, after: seq<Bitboard>, magics: seq<Bitboard>,
                 sq: Square, i: int)
    requires |magics| == 64 && |before| == |after| && sq as int == i
    requires ZeroUnlessReached(kind, before, magics, i)
    requires UnreachedKept(kind, after, before, sq, magics[sq])
    ensures ZeroUnlessReached(kind, after, magics, i + 1)
  {
    forall k | 0 <= k < |after| && after[k] != 0
      ensures exists s: Square :: s as int < i + 1 && Reached(kind, s, magics[s], k)
    {
      if !Reached(kind, sq, magics[sq], k) {
        assert before[k] != 0;
      }
    }
  }

  /** Once all 64 squares are filled, an entry no board reaches is still 0. */
  lemma ZeroAll(kind: Slider, table: seq<Bitboard>, magics: seq<Bitboard>)
    requires |magics| == 64 && ZeroUnlessReached(kind, table, magics, 64)
    ensures forall k :: 0 <= k < |table| && !Reachable(kind, magics, k) ==> table[k] == 0
  {
  }

  /** Fills a slider's attack table, square by square. */
  method PrecomputeAttacks(kind: Slider, magics: seq<Bitboard>) returns (table: array<Bitboard>)
    requires |magics| == 64
    requires forall s: Square :: MagicInjective(kind, s, magics[s])
    ensures fresh(table) && table.Length == AttacksArraySize(kind)
    ensures forall s: Square :: SquareFilled(kind, table[..], s, magics[s])
    ensures forall k :: 0 <= k < table.Length && !Reachable(kind, magics, k) ==> table[k] == 0
  {
    table := new Bitboard[AttacksArraySize(kind)](_ => 0);
    var i := 0;
    while i < 64
      invariant 0 <= i <= 64
      invariant FilledUpTo(kind, table[..], magics, i)
      invariant ZeroUnlessReached(kind, table[..], magics, i)
    {
      var sq := SquareAt(i);
      SquareAtValue(i);
      var boards := SquareBoards(kind, sq);
      ghost var before := table[..];
      StoreAttacks(kind, table, sq, magics[sq], boards);
      FilledStep(kind, before, table[..], magics, sq, i);
      ZeroStep(kind, before, table[..], magics, sq, i);
      i := i + 1;
    }
    FilledAll(kind, table[..], magics);
    ZeroAll(kind, table[..], magics);
  }

  /** The bishop attack table (`kBishopAttacks`). */
  method PrecomputeBishopAttacks(magics: seq<Bitboard>) returns (table: array<Bitboard>)
    requires |magics| == 64
    requires forall s: Square :: MagicInjective(Bishop, s, magics[s])
    ensures fresh(table) && table.Length == kBishopAttacksArraySize
    ensures forall s: Square :: SquareFilled(Bishop, table[..], s, magics[s])
    ensures forall k :: 0 <= k < table.Length && !Reachable(Bishop, magics, k) ==> table[k] == 0
  {
    table := PrecomputeAttacks(Bishop, magics);
  }

  /** The rook attack table (`kRookAttacks`). */
  method PrecomputeRookAttacks(magics: seq<Bitboard>) returns (table: array<Bitboard>)
    requires |magics| == 64
    requires forall s: Square :: MagicInjective(Rook, s, magics[s])
    ensures fresh(table) && table.Length == kRookAttacksArraySize
    ensures forall s: Square :: SquareFilled(Rook, table[..], s, magics[s])
    ensures forall k :: 0 <= k < table.Length && !Reachable(Rook, magics, k) ==> table[k] == 0
  {
    table := PrecomputeAttacks(Rook, magics);
  }
}
