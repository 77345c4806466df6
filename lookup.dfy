/** The magic-bitboard attack lookups: keep the blockers inside the slider's
    relevant-occupancy mask, hash them with the square's magic, and read the
    attack table at the resulting slot. */
module Lookup {
  import opened Types
  import opened Rays
  import opened Blockers
  import opened Magic

  /** The lookup shared by bishops and rooks: the table entry at the slot of
      the blockers inside the square's relevant-occupancy mask. The slot is
      always inside the table (LookupInRange); the guard only spares every
      use of the lookup from re-proving that. */
  function AttackLookup(kind: Slider, masks: seq<Bitboard>, table: seq<Bitboard>, magics: seq<Bitboard>,
                        sq: Square, blockers: Bitboard): Bitboard
    requires |masks| == 64 && |table| == AttacksArraySize(kind) && |magics| == 64
  {
    var slot := Slot(kind, sq, blockers & masks[sq], magics[sq]);
    if 0 <= slot < |table| then table[slot] else 0
  }

  /** The slot a lookup reads lies in the square's block of the table, so the
      guard above always holds. */
  lemma LookupInRange(kind: Slider, masks: seq<Bitboard>, table: seq<Bitboard>, magics: seq<Bitboard>,
                      sq: Square, blockers: Bitboard)
    requires |masks| == 64 && |table| == AttacksArraySize(kind) && |magics| == 64
    ensures InBlock(kind, sq as int, Slot(kind, sq, blockers & masks[sq], magics[sq]))
    ensures 0 <= Slot(kind, sq, blockers & masks[sq], magics[sq]) < |table|
  {
    SlotInBlock(kind, sq, blockers & masks[sq], magics[sq]);
  }

  /** `BishopAttackBitboard`, reading the bishop masks, table and magics. */
  function BishopAttackBitboard(masks: seq<Bitboard>, table: seq<Bitboard>, magics: seq<Bitboard>,
                                sq: Square, blockers: Bitboard): Bitboard
    requires |masks| == 64 && |table| == kBishopAttacksArraySize && |magics| == 64
  {
    AttackLookup(Bishop, masks, table, magics, sq, blockers)
  }

  /** `RookAttackBitboard`, reading the rook masks, table and magics. */
  function RookAttackBitboard(masks: seq<Bitboard>, table: seq<Bitboard>, magics: seq<Bitboard>,
                              sq: Square, blockers: Bitboard): Bitboard
    requires |masks| == 64 && |table| == kRookAttacksArraySize && |magics| == 64
  {
    AttackLookup(Rook, masks, table, magics, sq, blockers)
  }

  /** The bishop or rook tables of the engine: relevant-occupancy masks,
      magics and the attack table. */
  datatype Tables = Tables(masks: seq<Bitboard>, table: seq<Bitboard>, magics: seq<Bitboard>)

  predicate Shaped(kind: Slider, t: Tables)
  {
    |t.masks| == 64 && |t.table| == AttacksArraySize(kind) && |t.magics| == 64
  }

  /** `QueenAttackBitboard`: the union of the bishop and rook lookups. */
  function QueenAttackBitboard(bishop: Tables, rook: Tables, sq: Square, blockers: Bitboard): Bitboard
    requires Shaped(Bishop, bishop) && Shaped(Rook, rook)
  {
    BishopAttackBitboard(bishop.masks, bishop.table, bishop.magics, sq, blockers)
    | RookAttackBitboard(rook.masks, rook.table, rook.magics, sq, blockers)
  }

  lemma MaskTwice(occ: Bitboard, m: Bitboard)
    ensures (occ & m) & m == occ & m
  {
  }

  /** Blockers outside the square's mask never change a lookup. */
  lemma LookupIgnoresOutside(kind: Slider, masks: seq<Bitboard>, table: seq<Bitboard>, magics: seq<Bitboard>,
                             sq: Square, occ: Bitboard)
    requires |masks| == 64 && |table| == AttacksArraySize(kind) && |magics| == 64
    ensures AttackLookup(kind, masks, table, magics, sq, occ & masks[sq])
         == AttackLookup(kind, masks, table, magics, sq, occ)
  {
    MaskTwice(occ, masks[sq]);
  }

  /** A table is ready for `sq` when its mask is the relevant-occupancy mask
      and every blocker board of `sq` finds its attacks at its slot. */
  ghost predicate Ready(kind: Slider, masks: seq<Bitboard>, table: seq<Bitboard>, magics: seq<Bitboard>, sq: Square)
    requires |masks| == 64 && |magics| == 64
  {
    masks[sq] == RelevantMask(kind, sq) && SquareFilled(kind, table, sq, magics[sq])
  }

  /** A blocker board of `sq` finds its ray-walk attacks at its slot of a
      filled table. */
  lemma ReadFilled(kind: Slider, table: seq<Bitboard>, sq: Square, magic: Bitboard, b: Bitboard)
    requires SquareFilled(kind, table, sq, magic) && SubsetOf(b, RelevantMask(kind, sq))
    ensures 0 <= Slot(kind, sq, b, magic) < |table|
    ensures table[Slot(kind, sq, b, magic)] == SlidingAttacks(kind, sq, b)
  {
    assert Holds(table, SlotOf(kind, sq, magic), EntryOf(kind, sq), b);
  }

  /** In a ready table a lookup returns the ray-walk attacks of the blockers
      inside the mask. */
  lemma LookupFilled(kind: Slider, masks: seq<Bitboard>, table: seq<Bitboard>, magics: seq<Bitboard>,
                     sq: Square, occ: Bitboard)
    requires |masks| == 64 && |table| == AttacksArraySize(kind) && |magics| == 64
    requires Ready(kind, masks, table, magics, sq)
    ensures AttackLookup(kind, masks, table, magics, sq, occ) == SlidingAttacks(kind, sq, occ & masks[sq])
  {
    MaskTwice(occ, masks[sq]);
    ReadFilled(kind, table, sq, magics[sq], occ & masks[sq]);
  }


  /** Only blockers inside the relevant mask change the ray walk. */
  lemma SlidingIgnoresOutside(kind: Slider, sq: Square, occ: Bitboard)
    ensures SlidingAttacks(kind, sq, occ & RelevantMask(kind, sq)) == SlidingAttacks(kind, sq, occ)
  {
    if kind == Bishop {
      BishopSliding(kind, sq, occ);
    } else {
      RookSliding(kind, sq, occ);
    }
  }

  lemma BishopSliding(kind: Slider, sq: Square, occ: Bitboard)
    requires kind == Bishop
    ensures SlidingAttacks(kind, sq, occ & RelevantMask(kind, sq)) == SlidingAttacks(kind, sq, occ)
  {
    BishopIgnoresOutside(sq, occ);
  }

  lemma RookSliding(kind: Slider, sq: Square, occ: Bitboard)
    requires kind == Rook
    ensures SlidingAttacks(kind, sq, occ & RelevantMask(kind, sq)) == SlidingAttacks(kind, sq, occ)
  {
    RookIgnoresOutside(sq, occ);
  }

  /** In a ready table a lookup equals the ray walk over the whole occupancy. */
  lemma LookupCorrect(kind: Slider, masks: seq<Bitboard>, table: seq<Bitboard>, magics: seq<Bitboard>,
                      sq: Square, occ: Bitboard)
    requires |masks| == 64 && |table| == AttacksArraySize(kind) && |magics| == 64
    requires Ready(kind, masks, table, magics, sq)
    ensures AttackLookup(kind, masks, table, magics, sq, occ) == SlidingAttacks(kind, sq, occ)
  {
    LookupFilled(kind, masks, table, magics, sq, occ);
    SlidingIgnoresOutside(kind, sq, occ);
    SlidingMasked(kind, sq, occ, masks[sq]);
  }

  lemma SlidingMasked(kind: Slider, sq: Square, occ: Bitboard, m: Bitboard)
    requires m == RelevantMask(kind, sq)
    ensures SlidingAttacks(kind, sq, occ & m) == SlidingAttacks(kind, sq, occ & RelevantMask(kind, sq))
  {
  }

  /** With tables built for an injective magic, the bishop lookup equals the
      ray-walk bishop attacks for the whole occupancy. */
  lemma BishopLookupCorrect(masks: seq<Bitboard>, table: seq<Bitboard>, magics: seq<Bitboard>, sq: Square, occ: Bitboard)
    requires |masks| == 64 && |table| == kBishopAttacksArraySize && |magics| == 64
    requires Ready(Bishop, masks, table, magics, sq)
    ensures BishopAttackBitboard(masks, table, magics, sq, occ) == BishopAttacks(sq, occ)
  {
    LookupCorrect(Bishop, masks, table, magics, sq, occ);
  }

  /** With tables built for an injective magic, the rook lookup equals the
      ray-walk rook attacks for the whole occupancy. */
  lemma RookLookupCorrect(masks: seq<Bitboard>, table: seq<Bitboard>, magics: seq<Bitboard>, sq: Square, occ: Bitboard)
    requires |masks| == 64 && |table| == kRookAttacksArraySize && |magics| == 64
    requires Ready(Rook, masks, table, magics, sq)
    ensures RookAttackBitboard(masks, table, magics, sq, occ) == RookAttacks(sq, occ)
  {
    LookupCorrect(Rook, masks, table, magics, sq, occ);
  }

  lemma HasUnion(q: Bitboard, a: Bitboard, b: Bitboard, t: Square)
    requires q == a | b
    ensures Has(q, t) <==> Has(a, t) || Has(b, t)
  {
    HasOr(a, b, t);
  }

  /** The queen lookup holds a square exactly when the bishop or the rook
      lookup holds it. */
  lemma QueenHasEither(bishop: Tables, rook: Tables, sq: Square, occ: Bitboard, t: Square)
    requires Shaped(Bishop, bishop) && Shaped(Rook, rook)
    ensures Has(QueenAttackBitboard(bishop, rook, sq, occ), t)
        <==> Has(BishopAttackBitboard(bishop.masks, bishop.table, bishop.magics, sq, occ), t)
             || Has(RookAttackBitboard(rook.masks, rook.table, rook.magics, sq, occ), t)
  {
    HasUnion(QueenAttackBitboard(bishop, rook, sq, occ),
             BishopAttackBitboard(bishop.masks, bishop.table, bishop.magics, sq, occ),
             RookAttackBitboard(rook.masks, rook.table, rook.magics, sq, occ), t);
  }

  // ---------------------------------------------------------------------------
  // What the lookups contain

  /** A ready bishop lookup holds exactly the diagonal squares other than
      `sq` with nothing in between; in particular never `sq` itself. */
  lemma BishopLookupHas(masks: seq<Bitboard>, table: seq<Bitboard>, magics: seq<Bitboard>, sq: Square,
                        occ: Bitboard, t: Square)
    requires |masks| == 64 && |table| == kBishopAttacksArraySize && |magics| == 64
    requires Ready(Bishop, masks, table, magics, sq)
    ensures Has(BishopAttackBitboard(masks, table, magics, sq, occ), t)
        <==> t != sq && Abs(Rank(t) - Rank(sq)) == Abs(File(t) - File(sq))
             && Open(occ, Rank(sq), File(sq), Rank(t), File(t))
  {
    BishopLookupCorrect(masks, table, magics, sq, occ);
    BishopAttacksHas(sq, occ, t);
  }

  /** A ready rook lookup holds exactly the squares of the rank or file of
      `sq` other than `sq` with nothing in between. */
  lemma RookLookupHas(masks: seq<Bitboard>, table: seq<Bitboard>, magics: seq<Bitboard>, sq: Square,
                      occ: Bitboard, t: Square)
    requires |masks| == 64 && |table| == kRookAttacksArraySize && |magics| == 64
    requires Ready(Rook, masks, table, magics, sq)
    ensures Has(RookAttackBitboard(masks, table, magics, sq, occ), t)
        <==> t != sq && (Rank(t) == Rank(sq) || File(t) == File(sq))
             && Open(occ, Rank(sq), File(sq), Rank(t), File(t))
  {
    RookLookupCorrect(masks, table, magics, sq, occ);
    RookAttacksHas(sq, occ, t);
  }

  /** A ready queen lookup holds exactly the squares on a line through `sq`,
      other than `sq`, with nothing in between. */
  lemma QueenLookupHas(bishop: Tables, rook: Tables, sq: Square, occ: Bitboard, t: Square)
    requires Shaped(Bishop, bishop) && Shaped(Rook, rook)
    requires Ready(Bishop, bishop.masks, bishop.table, bishop.magics, sq)
    requires Ready(Rook, rook.masks, rook.table, rook.magics, sq)
    ensures Has(QueenAttackBitboard(bishop, rook, sq, occ), t)
        <==> t != sq && (Abs(Rank(t) - Rank(sq)) == Abs(File(t) - File(sq)) || Rank(t) == Rank(sq) || File(t) == File(sq))
             && Open(occ, Rank(sq), File(sq), Rank(t), File(t))
  {
    QueenHasEither(bishop, rook, sq, occ, t);
    BishopLookupHas(bishop.masks, bishop.table, bishop.magics, sq, occ, t);
    RookLookupHas(rook.masks, rook.table, rook.magics, sq, occ, t);
  }

  /** Nothing blocks a line on an empty board. */
  lemma {:induction false} ClearEmpty(r: int, f: int, dr: int, df: int, n: int)
    ensures Clear(0, r, f, dr, df, n)
    decreases n
  {
    if n > 0 {
      HasAtZero(r, f);
      ClearEmpty(r + dr, f + df, dr, df, n - 1);
    }
  }

  /** On an empty board a rook attacks its whole rank and file except its own
      square. */
  lemma RookEmptyBoard(s: Square, t: Square)
    ensures Has(RookAttacks(s, 0), t) <==> t != s && (Rank(t) == Rank(s) || File(t) == File(s))
  {
    var r, f, tr, tf := Rank(s), File(s), Rank(t), File(t);
    var dr, df := Sign(tr - r), Sign(tf - f);
    ClearEmpty(r + dr, f + df, dr, df, Max(Abs(tr - r), Abs(tf - f)) - 1);
    assert Open(0, r, f, tr, tf);
    RookAttacksHas(s, 0, t);
  }

  /** A square next to the slider along one of its lines is attacked whatever
      the blockers, so an adjacent blocker is itself attacked. */
  lemma AdjacentOpen(occ: Bitboard, r: int, f: int, tr: int, tf: int)
    requires Max(Abs(tr - r), Abs(tf - f)) == 1
    ensures Open(occ, r, f, tr, tf)
  {
  }

  lemma RookAdjacent(s: Square, occ: Bitboard, t: Square)
    requires (Rank(t) == Rank(s) && Abs(File(t) - File(s)) == 1) || (File(t) == File(s) && Abs(Rank(t) - Rank(s)) == 1)
    ensures Has(RookAttacks(s, occ), t)
  {
    var r, f, tr, tf := Rank(s), File(s), Rank(t), File(t);
    assert t != s by {
      assert tr != r || tf != f;
    }
    assert Max(Abs(tr - r), Abs(tf - f)) == 1;
    AdjacentOpen(occ, r, f, tr, tf);
    RookAttacksHas(s, occ, t);
  }

  lemma BishopAdjacent(s: Square, occ: Bitboard, t: Square)
    requires Abs(Rank(t) - Rank(s)) == 1 && Abs(File(t) - File(s)) == 1
    ensures Has(BishopAttacks(s, occ), t)
  {
    var r, f, tr, tf := Rank(s), File(s), Rank(t), File(t);
    assert t != s by {
      assert tr != r;
    }
    assert Max(Abs(tr - r), Abs(tf - f)) == 1;
    AdjacentOpen(occ, r, f, tr, tf);
    BishopAttacksHas(s, occ, t);
  }
}
