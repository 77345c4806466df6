/**
 * The relevant-occupancy precompute: for each square, the squares along the
 * four diagonals (bishop) or the rank and file (rook) that can block a slider,
 * without the last square of each direction, built by walking each direction
 * with the source's edge guards.
 */
module Occupancy {
  import opened Types
  import opened Rays

  /** Where a walk from a square's neighbour may stand: a coordinate that does
      not move stays on the board, and a moving one has not yet passed the edge
      it came from. Every walk starts this way and keeps it. */
  predicate Inside(r: int, f: int, dr: int, df: int)
  {
    (if dr == 0 then 0 <= r < 8 else if dr > 0 then 0 <= r else r < 8) &&
    (if df == 0 then 0 <= f < 8 else if df > 0 then 0 <= f else f < 8)
  }

  /** The guard of a mask walk: stop before the edge rank or file in each
      moving direction (`r <= 6`, `f >= 1`, and so on). */
  predicate MaskGuard(r: int, f: int, dr: int, df: int)
  {
    (dr > 0 ==> r <= 6) && (dr < 0 ==> r >= 1) && (df > 0 ==> f <= 6) && (df < 0 ==> f >= 1)
  }

  /** The guard of an attack walk: stay on the board in each moving direction
      (`r <= 7`, `f >= 0`, and so on). */
  predicate AttackGuard(r: int, f: int, dr: int, df: int)
  {
    (dr > 0 ==> r <= 7) && (dr < 0 ==> r >= 0) && (df > 0 ==> f <= 7) && (df < 0 ==> f >= 0)
  }

  /** A walk that starts inside stays inside after one step. */
  lemma InsideStep(r: int, f: int, dr: int, df: int)
    requires Direction(dr, df) && Inside(r, f, dr, df)
    ensures Inside(r + dr, f + df, dr, df)
  {
  }

  /** From inside, the mask guard says exactly that the square and its
      successor on the ray are both on the board: the condition under which
      `RayMask` keeps a square. */
  lemma MaskGuardIff(r: int, f: int, dr: int, df: int)
    requires Direction(dr, df) && Inside(r, f, dr, df)
    ensures MaskGuard(r, f, dr, df) <==> OnBoard(r, f) && OnBoard(r + dr, f + df)
  {
  }

  /** From inside, the attack guard says exactly that the square is on the
      board: the condition under which `RayAttack` looks at it. */
  lemma AttackGuardIff(r: int, f: int, dr: int, df: int)
    requires Direction(dr, df) && Inside(r, f, dr, df)
    ensures AttackGuard(r, f, dr, df) <==> OnBoard(r, f)
  {
  }

  // ---------------------------------------------------------------------------
  // Bitwise facts on abstract bitboards

  /** The union of two bitboards, named so that proofs about walks can
      regroup unions without unfolding the bitwise or. */
  function Union(a: Bitboard, b: Bitboard): Bitboard
  {
    a | b
  }

  lemma OrRegroup(m: Bitboard, a: Bitboard, b: Bitboard)
    ensures Union(Union(m, a), b) == Union(m, Union(a, b))
  {
  }

  lemma OrZero(m: Bitboard)
    ensures Union(m, 0) == m
  {
  }

  /** The four diagonal mask rays ORed into an empty board make the bishop mask. */
  lemma DiagonalMaskUnion(r: int, f: int)
    ensures Union(Union(Union(Union(0, RayMask(r + 1, f + 1, 1, 1)), RayMask(r + 1, f - 1, 1, -1)),
                        RayMask(r - 1, f + 1, -1, 1)), RayMask(r - 1, f - 1, -1, -1))
         == DiagonalMask(r, f)
  {
  }

  /** The four straight mask rays ORed into an empty board make the rook mask. */
  lemma StraightMaskUnion(r: int, f: int)
    ensures Union(Union(Union(Union(0, RayMask(r, f + 1, 0, 1)), RayMask(r, f - 1, 0, -1)),
                        RayMask(r + 1, f, 1, 0)), RayMask(r - 1, f, -1, 0))
         == StraightMask(r, f)
  {
  }

  /** The four diagonal attack rays ORed into an empty board make the bishop attacks. */
  lemma DiagonalAttackUnion(r: int, f: int, blockers: Bitboard)
    ensures Union(Union(Union(Union(0, RayAttack(r + 1, f + 1, 1, 1, blockers)), RayAttack(r + 1, f - 1, 1, -1, blockers)),
                        RayAttack(r - 1, f + 1, -1, 1, blockers)), RayAttack(r - 1, f - 1, -1, -1, blockers))
         == DiagonalAttack(r, f, blockers)
  {
  }

  /** The four straight attack rays ORed into an empty board make the rook attacks. */
  lemma StraightAttackUnion(r: int, f: int, blockers: Bitboard)
    ensures Union(Union(Union(Union(0, RayAttack(r, f + 1, 0, 1, blockers)), RayAttack(r, f - 1, 0, -1, blockers)),
                        RayAttack(r + 1, f, 1, 0, blockers)), RayAttack(r - 1, f, -1, 0, blockers))
         == StraightAttack(r, f, blockers)
  {
  }

  // ---------------------------------------------------------------------------
  // One ray, one square at a time

  /** Before the edge, the mask ray is its first square and the rest of it. */
  lemma MaskRayFirst(r: int, f: int, dr: int, df: int)
    requires Direction(dr, df) && OnBoard(r, f) && OnBoard(r + dr, f + df)
    ensures RayMask(r, f, dr, df) == Union(At(r, f), RayMask(r + dr, f + df, dr, df))
  {
  }

  /** Where the mask guard fails, nothing of the mask ray is left. */
  lemma MaskRayEnd(r: int, f: int, dr: int, df: int)
    requires Direction(dr, df) && Inside(r, f, dr, df) && !MaskGuard(r, f, dr, df)
    ensures RayMask(r, f, dr, df) == 0
  {
    MaskGuardIff(r, f, dr, df);
  }

  /** A free square: the attack ray is the square and the rest of it. */
  lemma AttackRayFree(r: int, f: int, dr: int, df: int, blockers: Bitboard)
    requires Direction(dr, df) && OnBoard(r, f) && blockers & At(r, f) == 0
    ensures RayAttack(r, f, dr, df, blockers) == Union(At(r, f), RayAttack(r + dr, f + df, dr, df, blockers))
  {
  }

  /** A blocker: the attack ray ends with it. */
  lemma AttackRayHit(r: int, f: int, dr: int, df: int, blockers: Bitboard)
    requires Direction(dr, df) && OnBoard(r, f) && blockers & At(r, f) != 0
    ensures RayAttack(r, f, dr, df, blockers) == At(r, f)
  {
    OrZero(At(r, f));
  }

  /** Where the attack guard fails, nothing of the attack ray is left. */
  lemma AttackRayEnd(r: int, f: int, dr: int, df: int, blockers: Bitboard)
    requires Direction(dr, df) && Inside(r, f, dr, df) && !AttackGuard(r, f, dr, df)
    ensures RayAttack(r, f, dr, df, blockers) == 0
  {
    AttackGuardIff(r, f, dr, df);
  }

  // ---------------------------------------------------------------------------
  // The mask walks

  /** The state of a mask walk towards `target`: what is still to be walked
      from (r, f) is exactly what `mask` lacks. */
  predicate MaskWalking(target: Bitboard, mask: Bitboard, r: int, f: int, dr: int, df: int)
    requires Direction(dr, df)
  {
    Inside(r, f, dr, df) && Union(mask, RayMask(r, f, dr, df)) == target
  }

  /** One square of a mask walk, once ORed in: the walk moves on with less reach. */
  lemma MaskSquareStep(target: Bitboard, mask: Bitboard, bb: Bitboard, r: int, f: int, dr: int, df: int)
    requires Direction(dr, df) && MaskWalking(target, mask, r, f, dr, df) && MaskGuard(r, f, dr, df)
    requires OnBoard(r, f) && bb == At(r, f)
    ensures MaskWalking(target, Union(mask, bb), r + dr, f + df, dr, df)
    ensures Reach(r + dr, f + df, dr, df) < Reach(r, f, dr, df)
  {
    MaskGuardIff(r, f, dr, df);
    MaskRayFirst(r, f, dr, df);
    OrRegroup(mask, bb, RayMask(r + dr, f + df, dr, df));
    InsideStep(r, f, dr, df);
    ReachStep(r, f, dr, df);
  }

  /** One iteration of a mask walk: OR in the square (the walk then steps
      along the ray). */
  method MaskOne(ghost target: Bitboard, mask: Bitboard, r: int, f: int, dr: int, df: int)
    returns (mask': Bitboard)
    requires Direction(dr, df) && MaskWalking(target, mask, r, f, dr, df) && MaskGuard(r, f, dr, df)
    ensures MaskWalking(target, mask', r + dr, f + df, dr, df)
    ensures Reach(r + dr, f + df, dr, df) < Reach(r, f, dr, df)
  {
    MaskGuardIff(r, f, dr, df);
    var bb := SquareToBitboard(GetSquare(r, f));
    MaskSquareStep(target, mask, bb, r, f, dr, df);
    mask' := Union(mask, bb);
  }

  /** One inner loop of the mask precompute: ORs into `acc` the squares of the
      ray from (r0, f0) up to but excluding its edge square. */
  method AddRayMask(acc: Bitboard, r0: int, f0: int, dr: int, df: int) returns (mask: Bitboard)
    requires Direction(dr, df) && Inside(r0, f0, dr, df)
    ensures mask == Union(acc, RayMask(r0, f0, dr, df))
  {
    mask := acc;
    var r, f := r0, f0;
    while MaskGuard(r, f, dr, df)
      invariant MaskWalking(Union(acc, RayMask(r0, f0, dr, df)), mask, r, f, dr, df)
      decreases Reach(r, f, dr, df)
    {
      mask := MaskOne(Union(acc, RayMask(r0, f0, dr, df)), mask, r, f, dr, df);
      r, f := r + dr, f + df;
    }
    MaskRayEnd(r, f, dr, df);
    OrZero(mask);
  }

  /** The four diagonal walks from (r, f), in the source's order NE, NW, SE, SW. */
  method DiagonalWalks(r: int, f: int) returns (mask: Bitboard)
    requires OnBoard(r, f)
    ensures mask == DiagonalMask(r, f)
  {
    mask := 0;
    mask := AddRayMask(mask, r + 1, f + 1, 1, 1);
    mask := AddRayMask(mask, r + 1, f - 1, 1, -1);
    mask := AddRayMask(mask, r - 1, f + 1, -1, 1);
    mask := AddRayMask(mask, r - 1, f - 1, -1, -1);
    DiagonalMaskUnion(r, f);
  }

  /** The four straight walks from (r, f): east and west along the rank, then
      north and south along the file. */
  method StraightWalks(r: int, f: int) returns (mask: Bitboard)
    requires OnBoard(r, f)
    ensures mask == StraightMask(r, f)
  {
    mask := 0;
    mask := AddRayMask(mask, r, f + 1, 0, 1);
    mask := AddRayMask(mask, r, f - 1, 0, -1);
    mask := AddRayMask(mask, r + 1, f, 1, 0);
    mask := AddRayMask(mask, r - 1, f, -1, 0);
    StraightMaskUnion(r, f);
  }

  /** Fills the bishop relevant-occupancy table, one entry per square. */
  method PrecomputeBishopRelevantOccupancy() returns (bishopMasks: array<Bitboard>)
    ensures fresh(bishopMasks) && bishopMasks.Length == kNumSquares
    ensures Tabulates(bishopMasks[..], 0, kNumSquares, BishopMask)
  {
    bishopMasks := new Bitboard[kNumSquares](_ => 0);
    var i := 0;
    while i < kNumSquares
      invariant i <= kNumSquares
      invariant Tabulates(bishopMasks[..], 0, i, BishopMask)
    {
      var s := SquareAt(i);
      var mask := DiagonalWalks(Rank(s), File(s));
      ghost var before := bishopMasks[..];
      bishopMasks[i] := mask;
      TabulatesStep(before, bishopMasks[..], 0, i, BishopMask);
      i := i + 1;
    }
  }

  /** Fills the rook relevant-occupancy table, one entry per square. */
  method PrecomputeRookRelevantOccupancy() returns (rookMasks: array<Bitboard>)
    ensures fresh(rookMasks) && rookMasks.Length == kNumSquares
    ensures Tabulates(rookMasks[..], 0, kNumSquares, RookMask)
  {
    rookMasks := new Bitboard[kNumSquares](_ => 0);
    var i := 0;
    while i < kNumSquares
      invariant i <= kNumSquares
      invariant Tabulates(rookMasks[..], 0, i, RookMask)
    {
      var s := SquareAt(i);
      var mask := StraightWalks(Rank(s), File(s));
      ghost var before := rookMasks[..];
      rookMasks[i] := mask;
      TabulatesStep(before, rookMasks[..], 0, i, RookMask);
      i := i + 1;
    }
  }

  // ---------------------------------------------------------------------------
  // The attack walks

  /** The state of an attack walk towards `target`: what is still to be walked
      from (r, f) is exactly what `attacks` lacks. */
  predicate AttackWalking(target: Bitboard, attacks: Bitboard, r: int, f: int, dr: int, df: int,
                          blockers: Bitboard)
    requires Direction(dr, df)
  {
    Inside(r, f, dr, df) && Union(attacks, RayAttack(r, f, dr, df, blockers)) == target
  }

  /** One free square of an attack walk: it has been ORed in; step along the ray. */
  lemma AttackFreeStep(target: Bitboard, attacks: Bitboard, bb: Bitboard, r: int, f: int, dr: int, df: int,
                       blockers: Bitboard)
    requires Direction(dr, df) && AttackWalking(target, attacks, r, f, dr, df, blockers)
    requires OnBoard(r, f) && bb == At(r, f) && blockers & bb == 0
    ensures AttackWalking(target, Union(attacks, bb), r + dr, f + df, dr, df, blockers)
    ensures Reach(r + dr, f + df, dr, df) < Reach(r, f, dr, df)
  {
    AttackRayFree(r, f, dr, df, blockers);
    OrRegroup(attacks, bb, RayAttack(r + dr, f + df, dr, df, blockers));
    InsideStep(r, f, dr, df);
    ReachStep(r, f, dr, df);
  }

  /** A blocker, once ORed in, completes the walk. */
  lemma AttackHitStep(target: Bitboard, attacks: Bitboard, bb: Bitboard, r: int, f: int, dr: int, df: int,
                      blockers: Bitboard)
    requires Direction(dr, df) && AttackWalking(target, attacks, r, f, dr, df, blockers)
    requires OnBoard(r, f) && bb == At(r, f) && blockers & bb != 0
    ensures Union(attacks, bb) == target
  {
    AttackRayHit(r, f, dr, df, blockers);
  }

  /** One attack walk of the slider precompute: ORs into `acc` every square of
      the ray from (r0, f0) up to and including the first blocker (the loop's
      `break`) or up to the edge. */
  method AddRayAttack(acc: Bitboard, r0: int, f0: int, dr: int, df: int, blockers: Bitboard)
    returns (attacks: Bitboard)
    requires Direction(dr, df) && Inside(r0, f0, dr, df)
    ensures attacks == Union(acc, RayAttack(r0, f0, dr, df, blockers))
  {
    attacks := WalkAttack(Union(acc, RayAttack(r0, f0, dr, df, blockers)), acc, r0, f0, dr, df, blockers);
  }

  /** The attack walk proper, from a state that is already walking towards `target`. */
  method WalkAttack(ghost target: Bitboard, acc: Bitboard, r0: int, f0: int, dr: int, df: int, blockers: Bitboard)
    returns (attacks: Bitboard)
    requires Direction(dr, df) && AttackWalking(target, acc, r0, f0, dr, df, blockers)
    ensures attacks == target
  {
    attacks := acc;
    var r, f := r0, f0;
    while AttackGuard(r, f, dr, df)
      invariant AttackWalking(target, attacks, r, f, dr, df, blockers)
      decreases Reach(r, f, dr, df)
    {
      var hit;
      attacks, hit := AttackOne(target, attacks, r, f, dr, df, blockers);
      if hit {
        return;
      }
      r, f := r + dr, f + df;
    }
    AttackRayEnd(r, f, dr, df, blockers);
    OrZero(attacks);
  }

  /** One iteration of an attack walk: OR in the square and report whether it
      holds a blocker (the walk then stops, or else steps along the ray). */
  method AttackOne(ghost target: Bitboard, attacks: Bitboard, r: int, f: int, dr: int, df: int, blockers: Bitboard)
    returns (attacks': Bitboard, hit: bool)
    requires Direction(dr, df) && AttackWalking(target, attacks, r, f, dr, df, blockers)
    requires AttackGuard(r, f, dr, df)
    ensures hit ==> attacks' == target
    ensures !hit ==> AttackWalking(target, attacks', r + dr, f + df, dr, df, blockers)
    ensures !hit ==> Reach(r + dr, f + df, dr, df) < Reach(r, f, dr, df)
  {
    AttackGuardIff(r, f, dr, df);
    var bb := SquareToBitboard(GetSquare(r, f));
    attacks' := Union(attacks, bb);
    hit := blockers & bb != 0;
    if hit {
      AttackHitStep(target, attacks, bb, r, f, dr, df, blockers);
    } else {
      AttackFreeStep(target, attacks, bb, r, f, dr, df, blockers);
    }
  }

  /** The bishop attack walks of the slider precompute, in the source's order
      NE, NW, SE, SW: the ray-walk bishop attacks from (r, f). */
  method DiagonalAttackWalks(r: int, f: int, blockers: Bitboard) returns (attacks: Bitboard)
    requires OnBoard(r, f)
    ensures attacks == DiagonalAttack(r, f, blockers)
  {
    attacks := 0;
    attacks := AddRayAttack(attacks, r + 1, f + 1, 1, 1, blockers);
    attacks := AddRayAttack(attacks, r + 1, f - 1, 1, -1, blockers);
    attacks := AddRayAttack(attacks, r - 1, f + 1, -1, 1, blockers);
    attacks := AddRayAttack(attacks, r - 1, f - 1, -1, -1, blockers);
    DiagonalAttackUnion(r, f, blockers);
  }

  /** The rook attack walks of the slider precompute: east and west along the
      rank, then north and south along the file. */
  method StraightAttackWalks(r: int, f: int, blockers: Bitboard) returns (attacks: Bitboard)
    requires OnBoard(r, f)
    ensures attacks == StraightAttack(r, f, blockers)
  {
    attacks := 0;
    attacks := AddRayAttack(attacks, r, f + 1, 0, 1, blockers);
    attacks := AddRayAttack(attacks, r, f - 1, 0, -1, blockers);
    attacks := AddRayAttack(attacks, r + 1, f, 1, 0, blockers);
    attacks := AddRayAttack(attacks, r - 1, f, -1, 0, blockers);
    StraightAttackUnion(r, f, blockers);
  }
}
