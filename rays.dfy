/**
 * Sliding-piece geometry: the rays a bishop or rook looks along, the
 * "relevant occupancy" masks built from them, and the ray-walk attack sets.
 *
 * A ray is given by its first square (r, f) and a unit step (dr, df).
 * Coordinates are plain integers so that a ray may step off the board.
 */
module Rays {
  import opened Types

  /** A unit step: each component is -1, 0 or 1, and not both are 0. */
  predicate Direction(dr: int, df: int)
  {
    -1 <= dr <= 1 && -1 <= df <= 1 && (dr != 0 || df != 0)
  }

  /** How many squares a ray from (r, f) can still visit; a termination
      measure for the ray recursions. */
  function Reach(r: int, f: int, dr: int, df: int): nat
  {
    if !OnBoard(r, f) then 0
    else
      (if dr > 0 then 8 - r else if dr < 0 then r + 1 else 0) +
      (if df > 0 then 8 - f else if df < 0 then f + 1 else 0)
  }

  /** A step along a ray from an on-board square brings it nearer the edge. */
  lemma ReachStep(r: int, f: int, dr: int, df: int)
    requires Direction(dr, df) && OnBoard(r, f)
    ensures Reach(r + dr, f + df, dr, df) < Reach(r, f, dr, df)
  {
  }

  /** The bitboard of the on-board square (r, f). */
  function At(r: int, f: int): Bitboard
    requires OnBoard(r, f)
  {
    SquareToBitboard(GetSquare(r, f))
  }

  /** The squares of the ray from (r, f) whose successor on the ray is still
      on the board: the ray without its last (edge) square. */
  function RayMask(r: int, f: int, dr: int, df: int): Bitboard
    requires Direction(dr, df)
    decreases Reach(r, f, dr, df)
  {
    if OnBoard(r, f) && OnBoard(r + dr, f + df)
    then At(r, f) | RayMask(r + dr, f + df, dr, df)
    else 0
  }

  /** The squares a slider sees along the ray from (r, f): every square up to
      and including the first blocker, or up to the edge. */
  function RayAttack(r: int, f: int, dr: int, df: int, blockers: Bitboard): Bitboard
    requires Direction(dr, df)
    decreases Reach(r, f, dr, df)
  {
    if !OnBoard(r, f) then 0
    else At(r, f) | (if blockers & At(r, f) != 0 then 0 else RayAttack(r + dr, f + df, dr, df, blockers))
  }

  // ---------------------------------------------------------------------------
  // Position along a ray

  /** `x` scaled by a unit step component. */
  function Scale(x: int, d: int): int
  {
    if d > 0 then x else if d < 0 then -x else 0
  }

  /** How many steps from (r, f) the point (tr, tf) lies along the ray
      (negative when behind the start); meaningful when `OnLine` holds. */
  function Dist(r: int, f: int, dr: int, df: int, tr: int, tf: int): int
  {
    if dr != 0 then Scale(tr - r, dr) else Scale(tf - f, df)
  }

  /** The point (tr, tf) is (r, f) plus a nonnegative multiple of the step. */
  predicate OnLine(r: int, f: int, dr: int, df: int, tr: int, tf: int)
  {
    var k := Dist(r, f, dr, df, tr, tf);
    k >= 0 && tr == r + Scale(k, dr) && tf == f + Scale(k, df)
  }

  /** The bitboard `b` holds the on-board square (tr, tf). */
  predicate HasAt(b: Bitboard, tr: int, tf: int)
  {
    OnBoard(tr, tf) && Has(b, GetSquare(tr, tf))
  }

  /** None of the first `n` squares of the ray is a blocker. */
  predicate Clear(blockers: Bitboard, r: int, f: int, dr: int, df: int, n: int)
    decreases n
  {
    n <= 0 || (!HasAt(blockers, r, f) && Clear(blockers, r + dr, f + df, dr, df, n - 1))
  }

  lemma OnLineStep(r: int, f: int, dr: int, df: int, tr: int, tf: int)
    requires Direction(dr, df)
    ensures OnLine(r, f, dr, df, tr, tf) <==> (tr == r && tf == f) || OnLine(r + dr, f + df, dr, df, tr, tf)
    ensures Dist(r + dr, f + df, dr, df, tr, tf) == Dist(r, f, dr, df, tr, tf) - 1
    ensures OnLine(r, f, dr, df, tr, tf) ==> (Dist(r, f, dr, df, tr, tf) == 0 <==> tr == r && tf == f)
  {
  }

  /** A ray that starts next to an on-board point and reaches an on-board
      point is on the board at its start: the board is convex. */
  lemma LineStart(r: int, f: int, dr: int, df: int, tr: int, tf: int)
    requires Direction(dr, df) && OnBoard(r - dr, f - df) && OnBoard(tr, tf)
    requires OnLine(r, f, dr, df, tr, tf)
    ensures OnBoard(r, f)
  {
  }

  /** Adding the square (r, f) to a set adds exactly that square. */
  lemma HasAtAdd(r: int, f: int, x: Bitboard, tr: int, tf: int)
    requires OnBoard(r, f)
    ensures HasAt(At(r, f) | x, tr, tf) <==> (tr == r && tf == f) || HasAt(x, tr, tf)
  {
    if OnBoard(tr, tf) {
      HasAtOrOnBoard(r, f, x, tr, tf);
      GetSquareInjective(r, f, tr, tf);
    }
  }

  lemma HasAtOrOnBoard(r: int, f: int, x: Bitboard, tr: int, tf: int)
    requires OnBoard(r, f) && OnBoard(tr, tf)
    ensures Has(At(r, f) | x, GetSquare(tr, tf)) <==> GetSquare(tr, tf) == GetSquare(r, f) || Has(x, GetSquare(tr, tf))
  {
    HasSquareOr(GetSquare(r, f), x, GetSquare(tr, tf));
  }

  lemma GetSquareInjective(r: int, f: int, tr: int, tf: int)
    requires OnBoard(r, f) && OnBoard(tr, tf)
    ensures GetSquare(r, f) == GetSquare(tr, tf) <==> r == tr && f == tf
  {
    GetSquareDecode(r, f);
    GetSquareDecode(tr, tf);
  }

  lemma HasAtZero(tr: int, tf: int)
    ensures !HasAt(0, tr, tf)
  {
  }

  /** The square (r, f) is a blocker exactly when `blockers` holds it. */
  lemma BlockedAt(r: int, f: int, blockers: Bitboard)
    requires OnBoard(r, f)
    ensures blockers & At(r, f) != 0 <==> HasAt(blockers, r, f)
  {
    AndSquare(blockers, GetSquare(r, f));
  }

  /** The square `t` seen through its coordinates. */
  lemma HasAtSquare(b: Bitboard, t: Square)
    ensures HasAt(b, Rank(t), File(t)) <==> Has(b, t)
  {
    RankFileDecode(t);
  }

  // ---------------------------------------------------------------------------
  // What the mask and the attack set of one ray contain

  lemma MaskOffStart(r: int, f: int, dr: int, df: int, tr: int, tf: int)
    requires Direction(dr, df) && OnBoard(r - dr, f - df) && !OnBoard(r, f) && OnBoard(tr, tf)
    ensures HasAt(RayMask(r, f, dr, df), tr, tf) <==> OnLine(r, f, dr, df, tr, tf) && OnBoard(tr + dr, tf + df)
  {
    HasAtZero(tr, tf);
    if OnLine(r, f, dr, df, tr, tf) {
      LineStart(r, f, dr, df, tr, tf);
    }
  }

  lemma MaskAtEdge(r: int, f: int, dr: int, df: int, tr: int, tf: int)
    requires Direction(dr, df) && OnBoard(r, f) && !OnBoard(r + dr, f + df) && OnBoard(tr, tf)
    ensures HasAt(RayMask(r, f, dr, df), tr, tf) <==> OnLine(r, f, dr, df, tr, tf) && OnBoard(tr + dr, tf + df)
  {
    HasAtZero(tr, tf);
    OnLineStep(r, f, dr, df, tr, tf);
    if OnLine(r + dr, f + df, dr, df, tr, tf) {
      LineStart(r + dr, f + df, dr, df, tr, tf);
    }
  }

  lemma MaskStep(r: int, f: int, dr: int, df: int, tr: int, tf: int)
    requires Direction(dr, df) && OnBoard(r, f) && OnBoard(r + dr, f + df)
    requires HasAt(RayMask(r + dr, f + df, dr, df), tr, tf)
         <==> OnLine(r + dr, f + df, dr, df, tr, tf) && OnBoard(tr + dr, tf + df)
    ensures HasAt(RayMask(r, f, dr, df), tr, tf) <==> OnLine(r, f, dr, df, tr, tf) && OnBoard(tr + dr, tf + df)
  {
    OnLineStep(r, f, dr, df, tr, tf);
    HasAtAdd(r, f, RayMask(r + dr, f + df, dr, df), tr, tf);
  }

  /** A square is in the ray's mask exactly when it is on the ray and the
      next square along the ray is on the board. */
  lemma {:induction false} RayMaskHas(r: int, f: int, dr: int, df: int, tr: int, tf: int)
    requires Direction(dr, df) && OnBoard(r - dr, f - df) && OnBoard(tr, tf)
    ensures HasAt(RayMask(r, f, dr, df), tr, tf) <==> OnLine(r, f, dr, df, tr, tf) && OnBoard(tr + dr, tf + df)
    decreases Reach(r, f, dr, df)
  {
    if !OnBoard(r, f) {
      MaskOffStart(r, f, dr, df, tr, tf);
    } else if !OnBoard(r + dr, f + df) {
      MaskAtEdge(r, f, dr, df, tr, tf);
    } else {
      RayMaskHas(r + dr, f + df, dr, df, tr, tf);
      MaskStep(r, f, dr, df, tr, tf);
    }
  }

  lemma AttackOffStart(r: int, f: int, dr: int, df: int, blockers: Bitboard, tr: int, tf: int)
    requires Direction(dr, df) && OnBoard(r - dr, f - df) && !OnBoard(r, f) && OnBoard(tr, tf)
    ensures HasAt(RayAttack(r, f, dr, df, blockers), tr, tf)
        <==> OnLine(r, f, dr, df, tr, tf) && Clear(blockers, r, f, dr, df, Dist(r, f, dr, df, tr, tf))
  {
    HasAtZero(tr, tf);
    if OnLine(r, f, dr, df, tr, tf) {
      LineStart(r, f, dr, df, tr, tf);
    }
  }

  /** Unfolds `Clear` once: the first square must be free. */
  lemma ClearStep(blockers: Bitboard, r: int, f: int, dr: int, df: int, n: int)
    requires n > 0
    ensures Clear(blockers, r, f, dr, df, n)
       <==> !HasAt(blockers, r, f) && Clear(blockers, r + dr, f + df, dr, df, n - 1)
  {
  }

  lemma BlockedClear(r: int, f: int, dr: int, df: int, blockers: Bitboard, tr: int, tf: int)
    requires Direction(dr, df) && OnBoard(r, f) && HasAt(blockers, r, f)
    ensures OnLine(r, f, dr, df, tr, tf) && Clear(blockers, r, f, dr, df, Dist(r, f, dr, df, tr, tf))
        <==> tr == r && tf == f
  {
    OnLineStep(r, f, dr, df, tr, tf);
  }

  lemma FreeClear(r: int, f: int, dr: int, df: int, blockers: Bitboard, tr: int, tf: int)
    requires Direction(dr, df) && OnBoard(r, f) && !HasAt(blockers, r, f)
    ensures OnLine(r, f, dr, df, tr, tf) && Clear(blockers, r, f, dr, df, Dist(r, f, dr, df, tr, tf))
        <==> (tr == r && tf == f)
             || (OnLine(r + dr, f + df, dr, df, tr, tf)
                 && Clear(blockers, r + dr, f + df, dr, df, Dist(r + dr, f + df, dr, df, tr, tf)))
  {
    OnLineStep(r, f, dr, df, tr, tf);
    var n := Dist(r, f, dr, df, tr, tf);
    if n > 0 {
      ClearStep(blockers, r, f, dr, df, n);
    }
  }

  lemma RayAttackBlocked(r: int, f: int, dr: int, df: int, blockers: Bitboard)
    requires Direction(dr, df) && OnBoard(r, f) && HasAt(blockers, r, f)
    ensures RayAttack(r, f, dr, df, blockers) == At(r, f) | 0
  {
    BlockedAt(r, f, blockers);
  }

  lemma RayAttackFree(r: int, f: int, dr: int, df: int, blockers: Bitboard)
    requires Direction(dr, df) && OnBoard(r, f) && !HasAt(blockers, r, f)
    ensures RayAttack(r, f, dr, df, blockers) == At(r, f) | RayAttack(r + dr, f + df, dr, df, blockers)
  {
    BlockedAt(r, f, blockers);
  }

  lemma HasAtSingle(r: int, f: int, tr: int, tf: int)
    requires OnBoard(r, f)
    ensures HasAt(At(r, f) | 0, tr, tf) <==> tr == r && tf == f
  {
    HasAtZero(tr, tf);
    HasAtAdd(r, f, 0, tr, tf);
  }

  /** A blocker on the first square stops the ray right there. */
  lemma AttackStepBlocked(r: int, f: int, dr: int, df: int, blockers: Bitboard, tr: int, tf: int)
    requires Direction(dr, df) && OnBoard(r, f) && HasAt(blockers, r, f)
    ensures HasAt(RayAttack(r, f, dr, df, blockers), tr, tf)
        <==> OnLine(r, f, dr, df, tr, tf) && Clear(blockers, r, f, dr, df, Dist(r, f, dr, df, tr, tf))
  {
    BlockedClear(r, f, dr, df, blockers, tr, tf);
    RayAttackBlocked(r, f, dr, df, blockers);
    HasAtSingle(r, f, tr, tf);
  }

  /** A free first square lets the ray continue from the next one. */
  lemma AttackStepFree(r: int, f: int, dr: int, df: int, blockers: Bitboard, tr: int, tf: int)
    requires Direction(dr, df) && OnBoard(r, f) && !HasAt(blockers, r, f)
    requires HasAt(RayAttack(r + dr, f + df, dr, df, blockers), tr, tf)
        <==> OnLine(r + dr, f + df, dr, df, tr, tf)
             && Clear(blockers, r + dr, f + df, dr, df, Dist(r + dr, f + df, dr, df, tr, tf))
    ensures HasAt(RayAttack(r, f, dr, df, blockers), tr, tf)
        <==> OnLine(r, f, dr, df, tr, tf) && Clear(blockers, r, f, dr, df, Dist(r, f, dr, df, tr, tf))
  {
    FreeClear(r, f, dr, df, blockers, tr, tf);
    RayAttackFree(r, f, dr, df, blockers);
    HasAtAdd(r, f, RayAttack(r + dr, f + df, dr, df, blockers), tr, tf);
  }

  /** A square is attacked along the ray exactly when it is on the ray and
      no square before it on the ray is a blocker. */
  lemma {:induction false} RayAttackHas(r: int, f: int, dr: int, df: int, blockers: Bitboard, tr: int, tf: int)
    requires Direction(dr, df) && OnBoard(r - dr, f - df) && OnBoard(tr, tf)
    ensures HasAt(RayAttack(r, f, dr, df, blockers), tr, tf)
        <==> OnLine(r, f, dr, df, tr, tf) && Clear(blockers, r, f, dr, df, Dist(r, f, dr, df, tr, tf))
    decreases Reach(r, f, dr, df)
  {
    if !OnBoard(r, f) {
      AttackOffStart(r, f, dr, df, blockers, tr, tf);
    } else {
      if HasAt(blockers, r, f) {
        AttackStepBlocked(r, f, dr, df, blockers, tr, tf);
      } else {
        ReachStep(r, f, dr, df);
        assert OnBoard((r + dr) - dr, (f + df) - df);
        RayAttackHas(r + dr, f + df, dr, df, blockers, tr, tf);
        AttackStepFree(r, f, dr, df, blockers, tr, tf);
      }
    }
  }

  // ---------------------------------------------------------------------------
  // Bishops and rooks

  /** The two sliding pieces whose attacks come from magic tables. */
  datatype Slider = Bishop | Rook

  /** The bishop's relevant-occupancy mask: its four diagonal rays without
      their edge squares. */
  function BishopMask(s: Square): Bitboard
  {
    DiagonalMask(Rank(s), File(s))
  }

  function DiagonalMask(r: int, f: int): Bitboard
  {
    RayMask(r + 1, f + 1, 1, 1) | RayMask(r + 1, f - 1, 1, -1)
    | RayMask(r - 1, f + 1, -1, 1) | RayMask(r - 1, f - 1, -1, -1)
  }

  /** The rook's relevant-occupancy mask: its rank and file rays without their
      edge squares. */
  function RookMask(s: Square): Bitboard
  {
    StraightMask(Rank(s), File(s))
  }

  function StraightMask(r: int, f: int): Bitboard
  {
    RayMask(r, f + 1, 0, 1) | RayMask(r, f - 1, 0, -1)
    | RayMask(r + 1, f, 1, 0) | RayMask(r - 1, f, -1, 0)
  }

  function RelevantMask(kind: Slider, s: Square): Bitboard
  {
    match kind
    case Bishop => BishopMask(s)
    case Rook => RookMask(s)
  }

  /** The ray-walk bishop attacks from `s` given the blockers. */
  function BishopAttacks(s: Square, blockers: Bitboard): Bitboard
  {
    DiagonalAttack(Rank(s), File(s), blockers)
  }

  function DiagonalAttack(r: int, f: int, blockers: Bitboard): Bitboard
  {
    RayAttack(r + 1, f + 1, 1, 1, blockers) | RayAttack(r + 1, f - 1, 1, -1, blockers)
    | RayAttack(r - 1, f + 1, -1, 1, blockers) | RayAttack(r - 1, f - 1, -1, -1, blockers)
  }

  /** The ray-walk rook attacks from `s` given the blockers. */
  function RookAttacks(s: Square, blockers: Bitboard): Bitboard
  {
    StraightAttack(Rank(s), File(s), blockers)
  }

  function StraightAttack(r: int, f: int, blockers: Bitboard): Bitboard
  {
    RayAttack(r, f + 1, 0, 1, blockers) | RayAttack(r, f - 1, 0, -1, blockers)
    | RayAttack(r + 1, f, 1, 0, blockers) | RayAttack(r - 1, f, -1, 0, blockers)
  }

  function SlidingAttacks(kind: Slider, s: Square, blockers: Bitboard): Bitboard
  {
    match kind
    case Bishop => BishopAttacks(s, blockers)
    case Rook => RookAttacks(s, blockers)
  }

  lemma HasAtOr(a: Bitboard, b: Bitboard, tr: int, tf: int)
    ensures HasAt(a | b, tr, tf) <==> HasAt(a, tr, tf) || HasAt(b, tr, tf)
  {
    if OnBoard(tr, tf) {
      HasAtOrOn(a, b, tr, tf);
    }
  }

  lemma HasAtOrOn(a: Bitboard, b: Bitboard, tr: int, tf: int)
    requires OnBoard(tr, tf)
    ensures Has(a | b, GetSquare(tr, tf)) <==> Has(a, GetSquare(tr, tf)) || Has(b, GetSquare(tr, tf))
  {
    HasOr(a, b, GetSquare(tr, tf));
  }

  lemma HasAtOr4(a: Bitboard, b: Bitboard, c: Bitboard, d: Bitboard, tr: int, tf: int)
    ensures HasAt(a | b | c | d, tr, tf) <==> HasAt(a, tr, tf) || HasAt(b, tr, tf) || HasAt(c, tr, tf) || HasAt(d, tr, tf)
  {
    if OnBoard(tr, tf) {
      HasOr4(a, b, c, d, GetSquare(tr, tf));
    }
  }

  lemma HasAtUnion(x: Bitboard, a: Bitboard, b: Bitboard, c: Bitboard, d: Bitboard, tr: int, tf: int)
    requires x == a | b | c | d
    ensures HasAt(x, tr, tf) <==> HasAt(a, tr, tf) || HasAt(b, tr, tf) || HasAt(c, tr, tf) || HasAt(d, tr, tf)
  {
    HasAtOr4(a, b, c, d, tr, tf);
  }

  /** Point (tr, tf) differs from (r, f). */
  predicate Elsewhere(r: int, f: int, tr: int, tf: int)
  {
    tr != r || tf != f
  }

  // Each of the eight rays, as a condition on the target's coordinates.

  lemma NorthEastLine(r: int, f: int, tr: int, tf: int)
    requires OnBoard(r, f) && OnBoard(tr, tf)
    ensures OnLine(r + 1, f + 1, 1, 1, tr, tf) && OnBoard(tr + 1, tf + 1) <==> tr - r == tf - f && r < tr <= 6 && tf <= 6
  {
  }
  lemma NorthEastMask(r: int, f: int, tr: int, tf: int)
    requires OnBoard(r, f) && OnBoard(tr, tf)
    ensures HasAt(RayMask(r + 1, f + 1, 1, 1), tr, tf) <==> tr - r == tf - f && r < tr <= 6 && tf <= 6
  {
    RayMaskHas(r + 1, f + 1, 1, 1, tr, tf);
    NorthEastLine(r, f, tr, tf);
  }
  lemma NorthWestLine(r: int, f: int, tr: int, tf: int)
    requires OnBoard(r, f) && OnBoard(tr, tf)
    ensures OnLine(r + 1, f - 1, 1, -1, tr, tf) && OnBoard(tr + 1, tf - 1) <==> tr - r == f - tf && r < tr <= 6 && 1 <= tf
  {
  }
  lemma NorthWestMask(r: int, f: int, tr: int, tf: int)
    requires OnBoard(r, f) && OnBoard(tr, tf)
    ensures HasAt(RayMask(r + 1, f - 1, 1, -1), tr, tf) <==> tr - r == f - tf && r < tr <= 6 && 1 <= tf
  {
    RayMaskHas(r + 1, f - 1, 1, -1, tr, tf);
    NorthWestLine(r, f, tr, tf);
  }
  lemma SouthEastLine(r: int, f: int, tr: int, tf: int)
    requires OnBoard(r, f) && OnBoard(tr, tf)
    ensures OnLine(r - 1, f + 1, -1, 1, tr, tf) && OnBoard(tr - 1, tf + 1) <==> r - tr == tf - f && 1 <= tr < r && tf <= 6
  {
  }
  lemma SouthEastMask(r: int, f: int, tr: int, tf: int)
    requires OnBoard(r, f) && OnBoard(tr, tf)
    ensures HasAt(RayMask(r - 1, f + 1, -1, 1), tr, tf) <==> r - tr == tf - f && 1 <= tr < r && tf <= 6
  {
    RayMaskHas(r - 1, f + 1, -1, 1, tr, tf);
    SouthEastLine(r, f, tr, tf);
  }
  lemma SouthWestLine(r: int, f: int, tr: int, tf: int)
    requires OnBoard(r, f) && OnBoard(tr, tf)
    ensures OnLine(r - 1, f - 1, -1, -1, tr, tf) && OnBoard(tr - 1, tf - 1) <==> r - tr == f - tf && 1 <= tr < r && 1 <= tf
  {
  }
  lemma SouthWestMask(r: int, f: int, tr: int, tf: int)
    requires OnBoard(r, f) && OnBoard(tr, tf)
    ensures HasAt(RayMask(r - 1, f - 1, -1, -1), tr, tf) <==> r - tr == f - tf && 1 <= tr < r && 1 <= tf
  {
    RayMaskHas(r - 1, f - 1, -1, -1, tr, tf);
    SouthWestLine(r, f, tr, tf);
  }
  lemma EastLine(r: int, f: int, tr: int, tf: int)
    requires OnBoard(r, f) && OnBoard(tr, tf)
    ensures OnLine(r, f + 1, 0, 1, tr, tf) && OnBoard(tr, tf + 1) <==> tr == r && f < tf <= 6
  {
  }
  lemma EastMask(r: int, f: int, tr: int, tf: int)
    requires OnBoard(r, f) && OnBoard(tr, tf)
    ensures HasAt(RayMask(r, f + 1, 0, 1), tr, tf) <==> tr == r && f < tf <= 6
  {
    RayMaskHas(r, f + 1, 0, 1, tr, tf);
    EastLine(r, f, tr, tf);
  }
  lemma WestLine(r: int, f: int, tr: int, tf: int)
    requires OnBoard(r, f) && OnBoard(tr, tf)
    ensures OnLine(r, f - 1, 0, -1, tr, tf) && OnBoard(tr, tf - 1) <==> tr == r && 1 <= tf < f
  {
  }
  lemma WestMask(r: int, f: int, tr: int, tf: int)
    requires OnBoard(r, f) && OnBoard(tr, tf)
    ensures HasAt(RayMask(r, f - 1, 0, -1), tr, tf) <==> tr == r && 1 <= tf < f
  {
    RayMaskHas(r, f - 1, 0, -1, tr, tf);
    WestLine(r, f, tr, tf);
  }
  lemma NorthLine(r: int, f: int, tr: int, tf: int)
    requires OnBoard(r, f) && OnBoard(tr, tf)
    ensures OnLine(r + 1, f, 1, 0, tr, tf) && OnBoard(tr + 1, tf) <==> tf == f && r < tr <= 6
  {
  }
  lemma NorthMask(r: int, f: int, tr: int, tf: int)
    requires OnBoard(r, f) && OnBoard(tr, tf)
    ensures HasAt(RayMask(r + 1, f, 1, 0), tr, tf) <==> tf == f && r < tr <= 6
  {
    RayMaskHas(r + 1, f, 1, 0, tr, tf);
    NorthLine(r, f, tr, tf);
  }
  lemma SouthLine(r: int, f: int, tr: int, tf: int)
    requires OnBoard(r, f) && OnBoard(tr, tf)
    ensures OnLine(r - 1, f, -1, 0, tr, tf) && OnBoard(tr - 1, tf) <==> tf == f && 1 <= tr < r
  {
  }
  lemma SouthMask(r: int, f: int, tr: int, tf: int)
    requires OnBoard(r, f) && OnBoard(tr, tf)
    ensures HasAt(RayMask(r - 1, f, -1, 0), tr, tf) <==> tf == f && 1 <= tr < r
  {
    RayMaskHas(r - 1, f, -1, 0, tr, tf);
    SouthLine(r, f, tr, tf);
  }

  lemma DiagonalMaskHasAt(r: int, f: int, tr: int, tf: int)
    requires OnBoard(r, f) && OnBoard(tr, tf)
    ensures HasAt(DiagonalMask(r, f), tr, tf)
        <==> Elsewhere(r, f, tr, tf) && Abs(tr - r) == Abs(tf - f) && 1 <= tr <= 6 && 1 <= tf <= 6
  {
    NorthEastMask(r, f, tr, tf);
    NorthWestMask(r, f, tr, tf);
    SouthEastMask(r, f, tr, tf);
    SouthWestMask(r, f, tr, tf);
    HasAtOr4(RayMask(r + 1, f + 1, 1, 1), RayMask(r + 1, f - 1, 1, -1),
             RayMask(r - 1, f + 1, -1, 1), RayMask(r - 1, f - 1, -1, -1), tr, tf);
  }

  lemma StraightMaskHasAt(r: int, f: int, tr: int, tf: int)
    requires OnBoard(r, f) && OnBoard(tr, tf)
    ensures HasAt(StraightMask(r, f), tr, tf)
        <==> Elsewhere(r, f, tr, tf) && ((tr == r && 1 <= tf <= 6) || (tf == f && 1 <= tr <= 6))
  {
    EastMask(r, f, tr, tf);
    WestMask(r, f, tr, tf);
    NorthMask(r, f, tr, tf);
    SouthMask(r, f, tr, tf);
    HasAtOr4(RayMask(r, f + 1, 0, 1), RayMask(r, f - 1, 0, -1),
             RayMask(r + 1, f, 1, 0), RayMask(r - 1, f, -1, 0), tr, tf);
  }

  /** Two squares are equal exactly when their ranks and files are. */
  lemma SquareCoordinates(s: Square, t: Square)
    ensures s == t <==> !Elsewhere(Rank(s), File(s), Rank(t), File(t))
    ensures OnBoard(Rank(s), File(s)) && OnBoard(Rank(t), File(t))
  {
    RankFileDecode(s);
    RankFileDecode(t);
  }

  /** The bishop mask holds exactly the squares diagonal to `s`, other than
      `s`, whose rank and file both lie in 1..6 (that is, off the edge). */
  lemma BishopMaskHas(s: Square, t: Square)
    ensures Has(BishopMask(s), t)
        <==> t != s && Abs(Rank(t) - Rank(s)) == Abs(File(t) - File(s))
             && 1 <= Rank(t) <= 6 && 1 <= File(t) <= 6
  {
    SquareCoordinates(s, t);
    HasAtSquare(BishopMask(s), t);
    DiagonalMaskHasAt(Rank(s), File(s), Rank(t), File(t));
  }

  /** The rook mask holds exactly the squares of the rank of `s` off files A
      and H, and of the file of `s` off ranks 1 and 8, other than `s`. */
  lemma RookMaskHas(s: Square, t: Square)
    ensures Has(RookMask(s), t)
        <==> t != s && ((Rank(t) == Rank(s) && 1 <= File(t) <= 6) || (File(t) == File(s) && 1 <= Rank(t) <= 6))
  {
    SquareCoordinates(s, t);
    HasAtSquare(RookMask(s), t);
    StraightMaskHasAt(Rank(s), File(s), Rank(t), File(t));
  }

  // ---------------------------------------------------------------------------
  // How many squares a mask holds

  /** How many steps of `d` the coordinate `x` can take on the board; a zero
      step never leaves it, so it sets no limit below 7. */
  function Room(x: int, d: int): int
  {
    if d > 0 then 7 - x else if d < 0 then x else 7
  }

  function Min(a: int, b: int): int
  {
    if a < b then a else b
  }

  /** The size of a ray's mask in closed form: from an on-board start, the
      number of steps the ray has left before the edge. */
  function RayCount(r: int, f: int, dr: int, df: int): int
  {
    if OnBoard(r, f) then Min(Room(r, dr), Room(f, df)) else 0
  }

  lemma RayCountStep(r: int, f: int, dr: int, df: int)
    requires Direction(dr, df) && OnBoard(r, f)
    ensures OnBoard(r + dr, f + df) ==> RayCount(r, f, dr, df) == 1 + RayCount(r + dr, f + df, dr, df)
    ensures !OnBoard(r + dr, f + df) ==> RayCount(r, f, dr, df) == 0
  {
  }

  /** The start of a ray is not in the mask of the ray that begins one step
      further on. */
  lemma MaskBehind(r: int, f: int, dr: int, df: int)
    requires Direction(dr, df) && OnBoard(r, f)
    ensures !Has(RayMask(r + dr, f + df, dr, df), GetSquare(r, f))
  {
    RayMaskHas(r + dr, f + df, dr, df, r, f);
  }

  /** Each on-board step of a ray whose successor is on the board adds one
      square to its mask. */
  lemma RayMaskGrows(r: int, f: int, dr: int, df: int)
    requires Direction(dr, df) && OnBoard(r, f) && OnBoard(r + dr, f + df)
    ensures PopCount(RayMask(r, f, dr, df)) == PopCount(RayMask(r + dr, f + df, dr, df)) + 1
  {
    MaskBehind(r, f, dr, df);
    PopCountAdd(RayMask(r + dr, f + df, dr, df), GetSquare(r, f));
  }

  /** A ray's mask holds one square per step the ray has left before the
      edge. */
  lemma {:induction false} RayMaskCount(r: int, f: int, dr: int, df: int)
    requires Direction(dr, df)
    ensures PopCount(RayMask(r, f, dr, df)) == RayCount(r, f, dr, df)
    decreases Reach(r, f, dr, df)
  {
    if OnBoard(r, f) && OnBoard(r + dr, f + df) {
      ReachStep(r, f, dr, df);
      RayMaskCount(r + dr, f + df, dr, df);
      RayMaskGrows(r, f, dr, df);
      RayCountStep(r, f, dr, df);
    } else {
      PopCountZero(0);
      if OnBoard(r, f) {
        RayCountStep(r, f, dr, df);
      }
    }
  }

  /** No two of a rook's four rays share a square. */
  lemma StraightExclusive(r: int, f: int, t: Square)
    requires OnBoard(r, f)
    ensures Exclusive(RayMask(r, f + 1, 0, 1), RayMask(r, f - 1, 0, -1), RayMask(r + 1, f, 1, 0), RayMask(r - 1, f, -1, 0), t)
  {
    RankFileDecode(t);
    HasAtSquare(RayMask(r, f + 1, 0, 1), t);
    HasAtSquare(RayMask(r, f - 1, 0, -1), t);
    HasAtSquare(RayMask(r + 1, f, 1, 0), t);
    HasAtSquare(RayMask(r - 1, f, -1, 0), t);
    EastMask(r, f, Rank(t), File(t));
    WestMask(r, f, Rank(t), File(t));
    NorthMask(r, f, Rank(t), File(t));
    SouthMask(r, f, Rank(t), File(t));
  }

  lemma StraightRaysExclusive(r: int, f: int, east: Bitboard, west: Bitboard, north: Bitboard, south: Bitboard)
    requires OnBoard(r, f)
    requires east == RayMask(r, f + 1, 0, 1) && west == RayMask(r, f - 1, 0, -1)
    requires north == RayMask(r + 1, f, 1, 0) && south == RayMask(r - 1, f, -1, 0)
    ensures forall t: Square :: Exclusive(east, west, north, south, t)
  {
    forall t: Square ensures Exclusive(east, west, north, south, t) {
      StraightExclusive(r, f, t);
    }
  }

  /** No two of a bishop's four rays share a square. */
  lemma DiagonalExclusive(r: int, f: int, t: Square)
    requires OnBoard(r, f)
    ensures Exclusive(RayMask(r + 1, f + 1, 1, 1), RayMask(r + 1, f - 1, 1, -1), RayMask(r - 1, f + 1, -1, 1), RayMask(r - 1, f - 1, -1, -1), t)
  {
    RankFileDecode(t);
    HasAtSquare(RayMask(r + 1, f + 1, 1, 1), t);
    HasAtSquare(RayMask(r + 1, f - 1, 1, -1), t);
    HasAtSquare(RayMask(r - 1, f + 1, -1, 1), t);
    HasAtSquare(RayMask(r - 1, f - 1, -1, -1), t);
    NorthEastMask(r, f, Rank(t), File(t));
    NorthWestMask(r, f, Rank(t), File(t));
    SouthEastMask(r, f, Rank(t), File(t));
    SouthWestMask(r, f, Rank(t), File(t));
  }

  lemma DiagonalRaysExclusive(r: int, f: int, ne: Bitboard, nw: Bitboard, se: Bitboard, sw: Bitboard)
    requires OnBoard(r, f)
    requires ne == RayMask(r + 1, f + 1, 1, 1) && nw == RayMask(r + 1, f - 1, 1, -1)
    requires se == RayMask(r - 1, f + 1, -1, 1) && sw == RayMask(r - 1, f - 1, -1, -1)
    ensures forall t: Square :: Exclusive(ne, nw, se, sw, t)
  {
    forall t: Square ensures Exclusive(ne, nw, se, sw, t) {
      DiagonalExclusive(r, f, t);
    }
  }

  lemma StraightMaskIs(r: int, f: int, east: Bitboard, west: Bitboard, north: Bitboard, south: Bitboard)
    requires east == RayMask(r, f + 1, 0, 1) && west == RayMask(r, f - 1, 0, -1)
    requires north == RayMask(r + 1, f, 1, 0) && south == RayMask(r - 1, f, -1, 0)
    ensures StraightMask(r, f) == east | west | north | south
  {
  }

  lemma DiagonalMaskIs(r: int, f: int, ne: Bitboard, nw: Bitboard, se: Bitboard, sw: Bitboard)
    requires ne == RayMask(r + 1, f + 1, 1, 1) && nw == RayMask(r + 1, f - 1, 1, -1)
    requires se == RayMask(r - 1, f + 1, -1, 1) && sw == RayMask(r - 1, f - 1, -1, -1)
    ensures DiagonalMask(r, f) == ne | nw | se | sw
  {
  }

  lemma StraightUnionCount(r: int, f: int, east: Bitboard, west: Bitboard, north: Bitboard, south: Bitboard)
    requires OnBoard(r, f)
    requires east == RayMask(r, f + 1, 0, 1) && west == RayMask(r, f - 1, 0, -1)
    requires north == RayMask(r + 1, f, 1, 0) && south == RayMask(r - 1, f, -1, 0)
    ensures PopCount(StraightMask(r, f)) == PopCount(east) + PopCount(west) + PopCount(north) + PopCount(south)
  {
    StraightRaysExclusive(r, f, east, west, north, south);
    PopCountUnion(east, west, north, south);
    StraightMaskIs(r, f, east, west, north, south);
    PopCountEqual(StraightMask(r, f), east | west | north | south);
  }

  lemma DiagonalUnionCount(r: int, f: int, ne: Bitboard, nw: Bitboard, se: Bitboard, sw: Bitboard)
    requires OnBoard(r, f)
    requires ne == RayMask(r + 1, f + 1, 1, 1) && nw == RayMask(r + 1, f - 1, 1, -1)
    requires se == RayMask(r - 1, f + 1, -1, 1) && sw == RayMask(r - 1, f - 1, -1, -1)
    ensures PopCount(DiagonalMask(r, f)) == PopCount(ne) + PopCount(nw) + PopCount(se) + PopCount(sw)
  {
    DiagonalRaysExclusive(r, f, ne, nw, se, sw);
    PopCountUnion(ne, nw, se, sw);
    DiagonalMaskIs(r, f, ne, nw, se, sw);
    PopCountEqual(DiagonalMask(r, f), ne | nw | se | sw);
  }

  /** The rook mask of (r, f) holds as many squares as its four rays have
      steps left. */
  lemma StraightMaskCount(r: int, f: int)
    requires OnBoard(r, f)
    ensures PopCount(StraightMask(r, f))
         == RayCount(r, f + 1, 0, 1) + RayCount(r, f - 1, 0, -1) + RayCount(r + 1, f, 1, 0) + RayCount(r - 1, f, -1, 0)
  {
    var east, west := RayMask(r, f + 1, 0, 1), RayMask(r, f - 1, 0, -1);
    var north, south := RayMask(r + 1, f, 1, 0), RayMask(r - 1, f, -1, 0);
    StraightUnionCount(r, f, east, west, north, south);
    RayMaskCount(r, f + 1, 0, 1);
    RayMaskCount(r, f - 1, 0, -1);
    RayMaskCount(r + 1, f, 1, 0);
    RayMaskCount(r - 1, f, -1, 0);
  }

  /** The bishop mask of (r, f) holds as many squares as its four rays have
      steps left. */
  lemma DiagonalMaskCount(r: int, f: int)
    requires OnBoard(r, f)
    ensures PopCount(DiagonalMask(r, f))
         == RayCount(r + 1, f + 1, 1, 1) + RayCount(r + 1, f - 1, 1, -1) + RayCount(r - 1, f + 1, -1, 1) + RayCount(r - 1, f - 1, -1, -1)
  {
    var ne, nw := RayMask(r + 1, f + 1, 1, 1), RayMask(r + 1, f - 1, 1, -1);
    var se, sw := RayMask(r - 1, f + 1, -1, 1), RayMask(r - 1, f - 1, -1, -1);
    DiagonalUnionCount(r, f, ne, nw, se, sw);
    RayMaskCount(r + 1, f + 1, 1, 1);
    RayMaskCount(r + 1, f - 1, 1, -1);
    RayMaskCount(r - 1, f + 1, -1, 1);
    RayMaskCount(r - 1, f - 1, -1, -1);
  }

  /** A rook's mask holds, along its rank and along its file, the six inner
      squares less its own square when that one is inner: 10 squares in the
      middle, 11 on an edge and 12 in a corner. */
  lemma RookMaskCount(s: Square)
    ensures PopCount(RookMask(s)) == (if 1 <= File(s) <= 6 then 5 else 6) + (if 1 <= Rank(s) <= 6 then 5 else 6)
  {
    RankFileDecode(s);
    StraightMaskCount(Rank(s), File(s));
  }

  /** A bishop's mask holds, along each of its four diagonals, every square
      but the last one on the board. */
  lemma BishopMaskCount(s: Square)
    ensures PopCount(BishopMask(s))
         == RayCount(Rank(s) + 1, File(s) + 1, 1, 1) + RayCount(Rank(s) + 1, File(s) - 1, 1, -1)
          + RayCount(Rank(s) - 1, File(s) + 1, -1, 1) + RayCount(Rank(s) - 1, File(s) - 1, -1, -1)
  {
    RankFileDecode(s);
    DiagonalMaskCount(Rank(s), File(s));
  }

  // ---------------------------------------------------------------------------
  // What a bishop or rook attacks

  function Sign(x: int): int
  {
    if x > 0 then 1 else if x < 0 then -1 else 0
  }

  function Max(a: int, b: int): int
  {
    if a < b then b else a
  }

  /** No square strictly between (r, f) and (tr, tf), walking straight from
      one to the other, holds a blocker. */
  predicate Open(occ: Bitboard, r: int, f: int, tr: int, tf: int)
  {
    var dr, df := Sign(tr - r), Sign(tf - f);
    Clear(occ, r + dr, f + df, dr, df, Max(Abs(tr - r), Abs(tf - f)) - 1)
  }

  /** On the ray leaving (r, f) in direction (dr, df), that direction and the
      distance are read back from the target. */
  lemma LineSigns(r: int, f: int, dr: int, df: int, tr: int, tf: int)
    requires Direction(dr, df) && OnLine(r + dr, f + df, dr, df, tr, tf)
    ensures Sign(tr - r) == dr && Sign(tf - f) == df
    ensures Max(Abs(tr - r), Abs(tf - f)) - 1 == Dist(r + dr, f + df, dr, df, tr, tf)
  {
  }

  /** A square is attacked along the ray leaving (r, f) exactly when it is on
      that ray and the way to it is open. */
  lemma RaySees(r: int, f: int, dr: int, df: int, occ: Bitboard, tr: int, tf: int)
    requires Direction(dr, df) && OnBoard(r, f) && OnBoard(tr, tf)
    ensures HasAt(RayAttack(r + dr, f + df, dr, df, occ), tr, tf)
        <==> OnLine(r + dr, f + df, dr, df, tr, tf) && Open(occ, r, f, tr, tf)
  {
    RayAttackHas(r + dr, f + df, dr, df, occ, tr, tf);
    if OnLine(r + dr, f + df, dr, df, tr, tf) {
      OpenIsClear(r, f, dr, df, occ, tr, tf);
    }
  }

  lemma OpenIsClear(r: int, f: int, dr: int, df: int, occ: Bitboard, tr: int, tf: int)
    requires Direction(dr, df) && OnLine(r + dr, f + df, dr, df, tr, tf)
    ensures Open(occ, r, f, tr, tf) == Clear(occ, r + dr, f + df, dr, df, Dist(r + dr, f + df, dr, df, tr, tf))
  {
    LineSigns(r, f, dr, df, tr, tf);
  }

  // Each of the eight rays, by the direction of the target.

  lemma NorthEastRay(r: int, f: int, tr: int, tf: int)
    ensures OnLine(r + 1, f + 1, 1, 1, tr, tf) <==> tr - r == tf - f && r < tr
  {
  }
  lemma NorthEastSees(r: int, f: int, occ: Bitboard, tr: int, tf: int)
    requires OnBoard(r, f) && OnBoard(tr, tf)
    ensures HasAt(RayAttack(r + 1, f + 1, 1, 1, occ), tr, tf) <==> tr - r == tf - f && r < tr && Open(occ, r, f, tr, tf)
  {
    RaySees(r, f, 1, 1, occ, tr, tf);
    NorthEastRay(r, f, tr, tf);
  }
  lemma NorthWestRay(r: int, f: int, tr: int, tf: int)
    ensures OnLine(r + 1, f - 1, 1, -1, tr, tf) <==> tr - r == f - tf && r < tr
  {
  }
  lemma NorthWestSees(r: int, f: int, occ: Bitboard, tr: int, tf: int)
    requires OnBoard(r, f) && OnBoard(tr, tf)
    ensures HasAt(RayAttack(r + 1, f - 1, 1, -1, occ), tr, tf) <==> tr - r == f - tf && r < tr && Open(occ, r, f, tr, tf)
  {
    RaySees(r, f, 1, -1, occ, tr, tf);
    NorthWestRay(r, f, tr, tf);
  }
  lemma SouthEastRay(r: int, f: int, tr: int, tf: int)
    ensures OnLine(r - 1, f + 1, -1, 1, tr, tf) <==> r - tr == tf - f && tr < r
  {
  }
  lemma SouthEastSees(r: int, f: int, occ: Bitboard, tr: int, tf: int)
    requires OnBoard(r, f) && OnBoard(tr, tf)
    ensures HasAt(RayAttack(r - 1, f + 1, -1, 1, occ), tr, tf) <==> r - tr == tf - f && tr < r && Open(occ, r, f, tr, tf)
  {
    RaySees(r, f, -1, 1, occ, tr, tf);
    SouthEastRay(r, f, tr, tf);
  }
  lemma SouthWestRay(r: int, f: int, tr: int, tf: int)
    ensures OnLine(r - 1, f - 1, -1, -1, tr, tf) <==> r - tr == f - tf && tr < r
  {
  }
  lemma SouthWestSees(r: int, f: int, occ: Bitboard, tr: int, tf: int)
    requires OnBoard(r, f) && OnBoard(tr, tf)
    ensures HasAt(RayAttack(r - 1, f - 1, -1, -1, occ), tr, tf) <==> r - tr == f - tf && tr < r && Open(occ, r, f, tr, tf)
  {
    RaySees(r, f, -1, -1, occ, tr, tf);
    SouthWestRay(r, f, tr, tf);
  }
  lemma EastRay(r: int, f: int, tr: int, tf: int)
    ensures OnLine(r, f + 1, 0, 1, tr, tf) <==> tr == r && f < tf
  {
  }
  lemma EastSees(r: int, f: int, occ: Bitboard, tr: int, tf: int)
    requires OnBoard(r, f) && OnBoard(tr, tf)
    ensures HasAt(RayAttack(r, f + 1, 0, 1, occ), tr, tf) <==> tr == r && f < tf && Open(occ, r, f, tr, tf)
  {
    RaySees(r, f, 0, 1, occ, tr, tf);
    EastRay(r, f, tr, tf);
  }
  lemma WestRay(r: int, f: int, tr: int, tf: int)
    ensures OnLine(r, f - 1, 0, -1, tr, tf) <==> tr == r && tf < f
  {
  }
  lemma WestSees(r: int, f: int, occ: Bitboard, tr: int, tf: int)
    requires OnBoard(r, f) && OnBoard(tr, tf)
    ensures HasAt(RayAttack(r, f - 1, 0, -1, occ), tr, tf) <==> tr == r && tf < f && Open(occ, r, f, tr, tf)
  {
    RaySees(r, f, 0, -1, occ, tr, tf);
    WestRay(r, f, tr, tf);
  }
  lemma NorthRay(r: int, f: int, tr: int, tf: int)
    ensures OnLine(r + 1, f, 1, 0, tr, tf) <==> tf == f && r < tr
  {
  }
  lemma NorthSees(r: int, f: int, occ: Bitboard, tr: int, tf: int)
    requires OnBoard(r, f) && OnBoard(tr, tf)
    ensures HasAt(RayAttack(r + 1, f, 1, 0, occ), tr, tf) <==> tf == f && r < tr && Open(occ, r, f, tr, tf)
  {
    RaySees(r, f, 1, 0, occ, tr, tf);
    NorthRay(r, f, tr, tf);
  }
  lemma SouthRay(r: int, f: int, tr: int, tf: int)
    ensures OnLine(r - 1, f, -1, 0, tr, tf) <==> tf == f && tr < r
  {
  }
  lemma SouthSees(r: int, f: int, occ: Bitboard, tr: int, tf: int)
    requires OnBoard(r, f) && OnBoard(tr, tf)
    ensures HasAt(RayAttack(r - 1, f, -1, 0, occ), tr, tf) <==> tf == f && tr < r && Open(occ, r, f, tr, tf)
  {
    RaySees(r, f, -1, 0, occ, tr, tf);
    SouthRay(r, f, tr, tf);
  }

  lemma DiagonalQuadrants(r: int, f: int, tr: int, tf: int)
    ensures Elsewhere(r, f, tr, tf) && Abs(tr - r) == Abs(tf - f)
        <==> (tr - r == tf - f && r < tr) || (tr - r == f - tf && r < tr)
             || (r - tr == tf - f && tr < r) || (r - tr == f - tf && tr < r)
  {
  }

  lemma StraightQuadrants(r: int, f: int, tr: int, tf: int)
    ensures Elsewhere(r, f, tr, tf) && (tr == r || tf == f)
        <==> (tr == r && f < tf) || (tr == r && tf < f) || (tf == f && r < tr) || (tf == f && tr < r)
  {
  }

  lemma DiagonalAttackUnion(r: int, f: int, occ: Bitboard, tr: int, tf: int)
    ensures HasAt(DiagonalAttack(r, f, occ), tr, tf)
        <==> HasAt(RayAttack(r + 1, f + 1, 1, 1, occ), tr, tf) || HasAt(RayAttack(r + 1, f - 1, 1, -1, occ), tr, tf)
             || HasAt(RayAttack(r - 1, f + 1, -1, 1, occ), tr, tf) || HasAt(RayAttack(r - 1, f - 1, -1, -1, occ), tr, tf)
  {
    HasAtUnion(DiagonalAttack(r, f, occ), RayAttack(r + 1, f + 1, 1, 1, occ), RayAttack(r + 1, f - 1, 1, -1, occ),
               RayAttack(r - 1, f + 1, -1, 1, occ), RayAttack(r - 1, f - 1, -1, -1, occ), tr, tf);
  }

  lemma DiagonalRaysSee(r: int, f: int, occ: Bitboard, tr: int, tf: int)
    requires OnBoard(r, f) && OnBoard(tr, tf)
    ensures HasAt(RayAttack(r + 1, f + 1, 1, 1, occ), tr, tf) || HasAt(RayAttack(r + 1, f - 1, 1, -1, occ), tr, tf)
             || HasAt(RayAttack(r - 1, f + 1, -1, 1, occ), tr, tf) || HasAt(RayAttack(r - 1, f - 1, -1, -1, occ), tr, tf)
        <==> Elsewhere(r, f, tr, tf) && Abs(tr - r) == Abs(tf - f) && Open(occ, r, f, tr, tf)
  {
    NorthEastSees(r, f, occ, tr, tf);
    NorthWestSees(r, f, occ, tr, tf);
    SouthEastSees(r, f, occ, tr, tf);
    SouthWestSees(r, f, occ, tr, tf);
    DiagonalQuadrants(r, f, tr, tf);
  }

  lemma DiagonalAttackHasAt(r: int, f: int, occ: Bitboard, tr: int, tf: int)
    requires OnBoard(r, f) && OnBoard(tr, tf)
    ensures HasAt(DiagonalAttack(r, f, occ), tr, tf)
        <==> Elsewhere(r, f, tr, tf) && Abs(tr - r) == Abs(tf - f) && Open(occ, r, f, tr, tf)
  {
    DiagonalAttackUnion(r, f, occ, tr, tf);
    DiagonalRaysSee(r, f, occ, tr, tf);
  }

  lemma StraightAttackUnion(r: int, f: int, occ: Bitboard, tr: int, tf: int)
    ensures HasAt(StraightAttack(r, f, occ), tr, tf)
        <==> HasAt(RayAttack(r, f + 1, 0, 1, occ), tr, tf) || HasAt(RayAttack(r, f - 1, 0, -1, occ), tr, tf)
             || HasAt(RayAttack(r + 1, f, 1, 0, occ), tr, tf) || HasAt(RayAttack(r - 1, f, -1, 0, occ), tr, tf)
  {
    HasAtUnion(StraightAttack(r, f, occ), RayAttack(r, f + 1, 0, 1, occ), RayAttack(r, f - 1, 0, -1, occ),
               RayAttack(r + 1, f, 1, 0, occ), RayAttack(r - 1, f, -1, 0, occ), tr, tf);
  }

  lemma StraightRaysSee(r: int, f: int, occ: Bitboard, tr: int, tf: int)
    requires OnBoard(r, f) && OnBoard(tr, tf)
    ensures HasAt(RayAttack(r, f + 1, 0, 1, occ), tr, tf) || HasAt(RayAttack(r, f - 1, 0, -1, occ), tr, tf)
             || HasAt(RayAttack(r + 1, f, 1, 0, occ), tr, tf) || HasAt(RayAttack(r - 1, f, -1, 0, occ), tr, tf)
        <==> Elsewhere(r, f, tr, tf) && (tr == r || tf == f) && Open(occ, r, f, tr, tf)
  {
    EastSees(r, f, occ, tr, tf);
    WestSees(r, f, occ, tr, tf);
    NorthSees(r, f, occ, tr, tf);
    SouthSees(r, f, occ, tr, tf);
    StraightQuadrants(r, f, tr, tf);
  }

  lemma StraightAttackHasAt(r: int, f: int, occ: Bitboard, tr: int, tf: int)
    requires OnBoard(r, f) && OnBoard(tr, tf)
    ensures HasAt(StraightAttack(r, f, occ), tr, tf)
        <==> Elsewhere(r, f, tr, tf) && (tr == r || tf == f) && Open(occ, r, f, tr, tf)
  {
    StraightAttackUnion(r, f, occ, tr, tf);
    StraightRaysSee(r, f, occ, tr, tf);
  }

  /** The bishop attacks from `s` are exactly the squares diagonal to `s`,
      other than `s`, with no blocker strictly in between. */
  lemma BishopAttacksHas(s: Square, occ: Bitboard, t: Square)
    ensures Has(BishopAttacks(s, occ), t)
        <==> t != s && Abs(Rank(t) - Rank(s)) == Abs(File(t) - File(s))
             && Open(occ, Rank(s), File(s), Rank(t), File(t))
  {
    SquareCoordinates(s, t);
    HasAtSquare(BishopAttacks(s, occ), t);
    DiagonalAttackHasAt(Rank(s), File(s), occ, Rank(t), File(t));
  }

  /** The rook attacks from `s` are exactly the squares on the rank or file of
      `s`, other than `s`, with no blocker strictly in between. */
  lemma RookAttacksHas(s: Square, occ: Bitboard, t: Square)
    ensures Has(RookAttacks(s, occ), t)
        <==> t != s && (Rank(t) == Rank(s) || File(t) == File(s))
             && Open(occ, Rank(s), File(s), Rank(t), File(t))
  {
    SquareCoordinates(s, t);
    HasAtSquare(RookAttacks(s, occ), t);
    StraightAttackHasAt(Rank(s), File(s), occ, Rank(t), File(t));
  }

  // ---------------------------------------------------------------------------
  // Only blockers inside the relevant mask matter

  lemma ScaleStep(k: int, d: int)
    requires -1 <= d <= 1
    ensures Scale(k + 1, d) == d + Scale(k, d)
  {
  }

  /** Two blocker sets that agree on every square of a run see the run
      clear or blocked alike. */
  lemma {:induction false} ClearAgree(x: Bitboard, y: Bitboard, r: int, f: int, dr: int, df: int, n: int)
    requires -1 <= dr <= 1 && -1 <= df <= 1
    requires forall k :: 0 <= k < n ==> HasAt(x, r + Scale(k, dr), f + Scale(k, df)) == HasAt(y, r + Scale(k, dr), f + Scale(k, df))
    ensures Clear(x, r, f, dr, df, n) == Clear(y, r, f, dr, df, n)
    decreases n
  {
    if n > 0 {
      AgreeHead(x, y, r, f, dr, df, n);
      AgreeShift(x, y, r, f, dr, df, n);
      ClearAgree(x, y, r + dr, f + df, dr, df, n - 1);
    }
  }

  lemma AgreeHead(x: Bitboard, y: Bitboard, r: int, f: int, dr: int, df: int, n: int)
    requires 0 < n
    requires forall k :: 0 <= k < n ==> HasAt(x, r + Scale(k, dr), f + Scale(k, df)) == HasAt(y, r + Scale(k, dr), f + Scale(k, df))
    ensures HasAt(x, r, f) == HasAt(y, r, f)
  {
    assert HasAt(x, r + Scale(0, dr), f + Scale(0, df)) == HasAt(y, r + Scale(0, dr), f + Scale(0, df));
  }

  /** Blocker sets that agree strictly between two squares agree on whether
      the line between them is open. */
  lemma OpenAgree(x: Bitboard, y: Bitboard, r: int, f: int, tr: int, tf: int, dr: int, df: int)
    requires dr == Sign(tr - r) && df == Sign(tf - f)
    requires forall k :: 0 <= k < Max(Abs(tr - r), Abs(tf - f)) - 1 ==>
      HasAt(x, r + dr + Scale(k, dr), f + df + Scale(k, df)) == HasAt(y, r + dr + Scale(k, dr), f + df + Scale(k, df))
    ensures Open(x, r, f, tr, tf) == Open(y, r, f, tr, tf)
  {
    ClearAgree(x, y, r + dr, f + df, dr, df, Max(Abs(tr - r), Abs(tf - f)) - 1);
  }

  lemma AgreeShift(x: Bitboard, y: Bitboard, r: int, f: int, dr: int, df: int, n: int)
    requires -1 <= dr <= 1 && -1 <= df <= 1
    requires forall k :: 0 <= k < n ==> HasAt(x, r + Scale(k, dr), f + Scale(k, df)) == HasAt(y, r + Scale(k, dr), f + Scale(k, df))
    ensures forall k :: 0 <= k < n - 1 ==>
      HasAt(x, r + dr + Scale(k, dr), f + df + Scale(k, df)) == HasAt(y, r + dr + Scale(k, dr), f + df + Scale(k, df))
  {
    forall k | 0 <= k < n - 1
      ensures HasAt(x, r + dr + Scale(k, dr), f + df + Scale(k, df)) == HasAt(y, r + dr + Scale(k, dr), f + df + Scale(k, df))
    {
      ScaleStep(k, dr);
      ScaleStep(k, df);
      assert HasAt(x, r + Scale(k + 1, dr), f + Scale(k + 1, df)) == HasAt(y, r + Scale(k + 1, dr), f + Scale(k + 1, df));
    }
  }

  /** A square of the mask is a blocker after masking exactly when it was
      one before. */
  lemma MaskedBlocker(r: int, f: int, occ: Bitboard, m: Bitboard)
    requires HasAt(m, r, f)
    ensures HasAt(occ & m, r, f) == HasAt(occ, r, f)
  {
    HasAnd(occ, m, GetSquare(r, f));
  }

  /** The squares strictly between two squares of a diagonal lie off the
      board's edge and satisfy the bishop mask condition. */
  lemma DiagonalBetween(r: int, f: int, tr: int, tf: int, dr: int, df: int, k: int)
    requires OnBoard(r, f) && OnBoard(tr, tf)
    requires Elsewhere(r, f, tr, tf) && Abs(tr - r) == Abs(tf - f)
    requires dr == Sign(tr - r) && df == Sign(tf - f)
    requires 0 <= k < Max(Abs(tr - r), Abs(tf - f)) - 1
    ensures OnBoard(r + dr + Scale(k, dr), f + df + Scale(k, df))
    ensures DiagonalMaskCondition(r, f, r + dr + Scale(k, dr),
                                  f + df + Scale(k, df))
  {
  }

  lemma StraightBetween(r: int, f: int, tr: int, tf: int, dr: int, df: int, k: int)
    requires OnBoard(r, f) && OnBoard(tr, tf)
    requires Elsewhere(r, f, tr, tf) && (tr == r || tf == f)
    requires dr == Sign(tr - r) && df == Sign(tf - f)
    requires 0 <= k < Max(Abs(tr - r), Abs(tf - f)) - 1
    ensures OnBoard(r + dr + Scale(k, dr), f + df + Scale(k, df))
    ensures StraightMaskCondition(r, f, r + dr + Scale(k, dr),
                                  f + df + Scale(k, df))
  {
  }

  /** The bishop mask condition on coordinates: a diagonal square other than
      (r, f) off the board's edge. */
  predicate DiagonalMaskCondition(r: int, f: int, tr: int, tf: int)
  {
    Elsewhere(r, f, tr, tf) && Abs(tr - r) == Abs(tf - f) && 1 <= tr <= 6 && 1 <= tf <= 6
  }

  /** The rook mask condition on coordinates. */
  predicate StraightMaskCondition(r: int, f: int, tr: int, tf: int)
  {
    Elsewhere(r, f, tr, tf) && ((tr == r && 1 <= tf <= 6) || (tf == f && 1 <= tr <= 6))
  }

  /** Step k of the walk from (r, f) towards a diagonal target lies in the
      bishop mask, so masking leaves its blocker bit alone. */
  lemma DiagonalStepInMask(r: int, f: int, tr: int, tf: int, dr: int, df: int, k: int)
    requires OnBoard(r, f) && OnBoard(tr, tf)
    requires Elsewhere(r, f, tr, tf) && Abs(tr - r) == Abs(tf - f)
    requires dr == Sign(tr - r) && df == Sign(tf - f)
    requires 0 <= k < Max(Abs(tr - r), Abs(tf - f)) - 1
    ensures HasAt(DiagonalMask(r, f), r + dr + Scale(k, dr), f + df + Scale(k, df))
  {
    DiagonalBetween(r, f, tr, tf, dr, df, k);
    DiagonalMaskHasAt(r, f, r + dr + Scale(k, dr), f + df + Scale(k, df));
  }

  lemma StraightStepInMask(r: int, f: int, tr: int, tf: int, dr: int, df: int, k: int)
    requires OnBoard(r, f) && OnBoard(tr, tf)
    requires Elsewhere(r, f, tr, tf) && (tr == r || tf == f)
    requires dr == Sign(tr - r) && df == Sign(tf - f)
    requires 0 <= k < Max(Abs(tr - r), Abs(tf - f)) - 1
    ensures HasAt(StraightMask(r, f), r + dr + Scale(k, dr), f + df + Scale(k, df))
  {
    StraightBetween(r, f, tr, tf, dr, df, k);
    StraightMaskHasAt(r, f, r + dr + Scale(k, dr), f + df + Scale(k, df));
  }

  /** Masking keeps the blocker bit of every step of a run that lies in the
      mask. */
  lemma RunMasked(occ: Bitboard, m: Bitboard, r: int, f: int, dr: int, df: int, n: int)
    requires forall k :: 0 <= k < n ==> HasAt(m, r + dr + Scale(k, dr), f + df + Scale(k, df))
    ensures forall k :: 0 <= k < n ==>
      HasAt(occ & m, r + dr + Scale(k, dr), f + df + Scale(k, df)) == HasAt(occ, r + dr + Scale(k, dr), f + df + Scale(k, df))
  {
    forall k | 0 <= k < n
      ensures HasAt(occ & m, r + dr + Scale(k, dr), f + df + Scale(k, df)) == HasAt(occ, r + dr + Scale(k, dr), f + df + Scale(k, df))
    {
      MaskedBlocker(r + dr + Scale(k, dr), f + df + Scale(k, df), occ, m);
    }
  }

  /** Every square strictly between (r, f) and a target on its diagonals
      lies in the bishop's relevant mask. */
  lemma DiagonalRunInMask(r: int, f: int, tr: int, tf: int, dr: int, df: int)
    requires OnBoard(r, f) && OnBoard(tr, tf)
    requires Elsewhere(r, f, tr, tf) && Abs(tr - r) == Abs(tf - f)
    requires dr == Sign(tr - r) && df == Sign(tf - f)
    ensures forall k :: 0 <= k < Max(Abs(tr - r), Abs(tf - f)) - 1 ==> HasAt(DiagonalMask(r, f), r + dr + Scale(k, dr), f + df + Scale(k, df))
  {
    forall k | 0 <= k < Max(Abs(tr - r), Abs(tf - f)) - 1
      ensures HasAt(DiagonalMask(r, f), r + dr + Scale(k, dr), f + df + Scale(k, df))
    {
      DiagonalStepInMask(r, f, tr, tf, dr, df, k);
    }
  }

  /** Masking the blockers with the bishop's relevant mask leaves the line from
      (r, f) to a target open or blocked as before. */
  lemma DiagonalOpenMasked(r: int, f: int, occ: Bitboard, tr: int, tf: int, dr: int, df: int)
    requires OnBoard(r, f) && OnBoard(tr, tf)
    requires Elsewhere(r, f, tr, tf) && Abs(tr - r) == Abs(tf - f)
    requires dr == Sign(tr - r) && df == Sign(tf - f)
    ensures Open(occ & DiagonalMask(r, f), r, f, tr, tf) == Open(occ, r, f, tr, tf)
  {
    DiagonalRunInMask(r, f, tr, tf, dr, df);
    RunMasked(occ, DiagonalMask(r, f), r, f, dr, df, Max(Abs(tr - r), Abs(tf - f)) - 1);
    OpenAgree(occ & DiagonalMask(r, f), occ, r, f, tr, tf, dr, df);
  }

  /** Every square strictly between (r, f) and a target on its rank or file
      lies in the rook's relevant mask. */
  lemma StraightRunInMask(r: int, f: int, tr: int, tf: int, dr: int, df: int)
    requires OnBoard(r, f) && OnBoard(tr, tf)
    requires Elsewhere(r, f, tr, tf) && (tr == r || tf == f)
    requires dr == Sign(tr - r) && df == Sign(tf - f)
    ensures forall k :: 0 <= k < Max(Abs(tr - r), Abs(tf - f)) - 1 ==> HasAt(StraightMask(r, f), r + dr + Scale(k, dr), f + df + Scale(k, df))
  {
    forall k | 0 <= k < Max(Abs(tr - r), Abs(tf - f)) - 1
      ensures HasAt(StraightMask(r, f), r + dr + Scale(k, dr), f + df + Scale(k, df))
    {
      StraightStepInMask(r, f, tr, tf, dr, df, k);
    }
  }

  /** Masking the blockers with the rook's relevant mask leaves the line from
      (r, f) to a target open or blocked as before. */
  lemma StraightOpenMasked(r: int, f: int, occ: Bitboard, tr: int, tf: int, dr: int, df: int)
    requires OnBoard(r, f) && OnBoard(tr, tf)
    requires Elsewhere(r, f, tr, tf) && (tr == r || tf == f)
    requires dr == Sign(tr - r) && df == Sign(tf - f)
    ensures Open(occ & StraightMask(r, f), r, f, tr, tf) == Open(occ, r, f, tr, tf)
  {
    StraightRunInMask(r, f, tr, tf, dr, df);
    RunMasked(occ, StraightMask(r, f), r, f, dr, df, Max(Abs(tr - r), Abs(tf - f)) - 1);
    OpenAgree(occ & StraightMask(r, f), occ, r, f, tr, tf, dr, df);
  }

  lemma BishopOpenMasked(s: Square, occ: Bitboard, t: Square)
    requires t != s && Abs(Rank(t) - Rank(s)) == Abs(File(t) - File(s))
    ensures Open(occ & BishopMask(s), Rank(s), File(s), Rank(t), File(t)) == Open(occ, Rank(s), File(s), Rank(t), File(t))
  {
    SquareCoordinates(s, t);
    DiagonalOpenMasked(Rank(s), File(s), occ, Rank(t), File(t), Sign(Rank(t) - Rank(s)), Sign(File(t) - File(s)));
  }

  lemma RookOpenMasked(s: Square, occ: Bitboard, t: Square)
    requires t != s && (Rank(t) == Rank(s) || File(t) == File(s))
    ensures Open(occ & RookMask(s), Rank(s), File(s), Rank(t), File(t)) == Open(occ, Rank(s), File(s), Rank(t), File(t))
  {
    SquareCoordinates(s, t);
    StraightOpenMasked(Rank(s), File(s), occ, Rank(t), File(t), Sign(Rank(t) - Rank(s)), Sign(File(t) - File(s)));
  }

  /** Two memberships governed by the same condition and by openness facts
      that agree under it coincide. */
  lemma SameMembership(h1: bool, h2: bool, c: bool, o1: bool, o2: bool)
    requires h1 <==> c && o1
    requires h2 <==> c && o2
    requires c ==> o1 == o2
    ensures h1 == h2
  {
  }

  lemma BishopSquareMasked(s: Square, occ: Bitboard, t: Square)
    ensures Has(BishopAttacks(s, occ & BishopMask(s)), t) == Has(BishopAttacks(s, occ), t)
  {
    var c := t != s && Abs(Rank(t) - Rank(s)) == Abs(File(t) - File(s));
    BishopAttacksHas(s, occ, t);
    BishopAttacksHas(s, occ & BishopMask(s), t);
    if c {
      BishopOpenMasked(s, occ, t);
    }
    SameMembership(Has(BishopAttacks(s, occ & BishopMask(s)), t), Has(BishopAttacks(s, occ), t), c,
                   Open(occ & BishopMask(s), Rank(s), File(s), Rank(t), File(t)), Open(occ, Rank(s), File(s), Rank(t), File(t)));
  }

  lemma RookSquareMasked(s: Square, occ: Bitboard, t: Square)
    ensures Has(RookAttacks(s, occ & RookMask(s)), t) == Has(RookAttacks(s, occ), t)
  {
    var c := t != s && (Rank(t) == Rank(s) || File(t) == File(s));
    RookAttacksHas(s, occ, t);
    RookAttacksHas(s, occ & RookMask(s), t);
    if c {
      RookOpenMasked(s, occ, t);
    }
    SameMembership(Has(RookAttacks(s, occ & RookMask(s)), t), Has(RookAttacks(s, occ), t), c,
                   Open(occ & RookMask(s), Rank(s), File(s), Rank(t), File(t)), Open(occ, Rank(s), File(s), Rank(t), File(t)));
  }

  lemma BishopAgreesOutside(s: Square, occ: Bitboard)
    ensures forall t: Square :: Has(BishopAttacks(s, occ & BishopMask(s)), t) == Has(BishopAttacks(s, occ), t)
  {
    forall t: Square
      ensures Has(BishopAttacks(s, occ & BishopMask(s)), t) == Has(BishopAttacks(s, occ), t)
    {
      BishopSquareMasked(s, occ, t);
    }
  }

  /** The bishop attacks from `s` depend only on the blockers inside the
      bishop's relevant mask of `s`. */
  lemma BishopIgnoresOutside(s: Square, occ: Bitboard)
    ensures BishopAttacks(s, occ & BishopMask(s)) == BishopAttacks(s, occ)
  {
    BishopAgreesOutside(s, occ);
    BitboardExt(BishopAttacks(s, occ & BishopMask(s)), BishopAttacks(s, occ));
  }

  lemma RookAgreesOutside(s: Square, occ: Bitboard)
    ensures forall t: Square :: Has(RookAttacks(s, occ & RookMask(s)), t) == Has(RookAttacks(s, occ), t)
  {
    forall t: Square
      ensures Has(RookAttacks(s, occ & RookMask(s)), t) == Has(RookAttacks(s, occ), t)
    {
      RookSquareMasked(s, occ, t);
    }
  }

  /** The rook attacks from `s` depend only on the blockers inside the
      rook's relevant mask of `s`. */
  lemma RookIgnoresOutside(s: Square, occ: Bitboard)
    ensures RookAttacks(s, occ & RookMask(s)) == RookAttacks(s, occ)
  {
    RookAgreesOutside(s, occ);
    BitboardExt(RookAttacks(s, occ & RookMask(s)), RookAttacks(s, occ));
  }
}
