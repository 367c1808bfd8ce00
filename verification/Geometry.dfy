/** Facts about lines on the board: the arguments by which one blocking square, one pin ray or one
    check ray decides a move. */
module Geometry {
  import opened Squares

  lemma SquareIsItsCoordinates(a: Square, b: Square)
    ensures a == b <==> File(a) == File(b) && Rank(a) == Rank(b)
  {
  }

  lemma BetweenReversed(a: Square, u: Square, b: Square)
    requires Between(a, u, b)
    ensures Between(b, u, a)
  {
    SquareIsItsCoordinates(b, u);
  }

  lemma BetweenSymmetric(a: Square, u: Square, b: Square)
    ensures Between(a, u, b) <==> Between(b, u, a)
  {
    hide Between;
    if Between(a, u, b) { BetweenReversed(a, u, b); }
    if Between(b, u, a) { BetweenReversed(b, u, a); }
  }

  lemma StepsSymmetric(a: Square, b: Square)
    ensures KnightStep(a, b) <==> KnightStep(b, a)
    ensures KingStep(a, b) <==> KingStep(b, a)
    ensures OnRookLine(a, b) <==> OnRookLine(b, a)
    ensures OnBishopLine(a, b) <==> OnBishopLine(b, a)
    ensures PawnStep(White, a, b) <==> PawnStep(Black, b, a)
  {
  }

  lemma ClearSymmetric(a: Square, b: Square, occ: Bitboard)
    ensures Clear(a, b, occ) <==> Clear(b, a, occ)
  {
    forall u | u in occ ensures Between(a, u, b) <==> Between(b, u, a) {
      BetweenSymmetric(a, u, b);
    }
  }

  /** Two squares in the same direction at the same distance coincide. */
  lemma SameRay(k: Square, a: Square, b: Square)
    requires SameDirection(k, a, b)
    ensures a == b || Between(k, a, b) || Between(k, b, a)
  {
    SquareIsItsCoordinates(a, b);
  }

  /** If one square blocks two rays from k, the nearer of the two ends blocks the other ray. */
  lemma SharedBlocker(k: Square, x: Square, a: Square, b: Square)
    requires x == a || Between(k, x, a)
    requires x == b || Between(k, x, b)
    requires Aligned(k, a) && Aligned(k, b)
    ensures a == b || Between(k, a, b) || Between(k, b, a)
  {
    if x == a {
    } else if x == b {
    } else {
      SameRay(k, a, b);
    }
  }

  /** A square on the ray to a nearer square is on the ray to a farther one. */
  lemma BetweenTransitive(k: Square, x: Square, a: Square, b: Square)
    requires Between(k, x, a) && Between(k, a, b)
    ensures Between(k, x, b)
  {
  }

  lemma AcrossTheMiddle(k: Square, a: Square, b: Square)
    requires OppositeDirection(k, a, b)
    ensures Between(a, k, b)
  {
    SquareIsItsCoordinates(a, b);
    SquareIsItsCoordinates(a, k);
  }

  lemma BeyondTheEnd(k: Square, a: Square, e: Square, b: Square)
    requires Between(k, a, e) && Between(k, e, b)
    ensures Between(a, e, b)
  {
    hide File, Rank;
    SquareIsItsCoordinates(a, b);
    SquareIsItsCoordinates(a, e);
  }

  /** The pin argument: a man standing between k and e that stays on their line, and neither takes e nor
      stays between, would have to jump over k or over e. */
  lemma LeavingTheRayJumps(k: Square, e: Square, from: Square, to: Square)
    requires Between(k, from, e) && OnLine(k, from, to)
    requires to != k && to != e && !Between(k, to, e)
    ensures Between(from, k, to) || Between(from, e, to)
  {
    if OppositeDirection(k, from, to) {
      AcrossTheMiddle(k, from, to);
    } else {
      SameRay(k, e, to);
      BeyondTheEnd(k, from, e, to);
    }
  }

  lemma OnRayIsOnLine(k: Square, e: Square, from: Square, to: Square)
    requires Between(k, from, e)
    requires to == e || Between(k, to, e)
    ensures OnLine(k, from, to)
  {
  }

  /** Two squares on one line through k are aligned with each other. */
  lemma OnLineAligned(k: Square, a: Square, b: Square)
    requires OnLine(k, a, b) && a != b
    ensures Aligned(a, b)
  {
    SquareIsItsCoordinates(a, b);
    SquareIsItsCoordinates(k, a);
  }

  lemma KnightNeverAligned(a: Square, b: Square)
    requires KnightStep(a, b)
    ensures !Aligned(a, b)
  {
  }

  lemma AdjacentNothingBetween(a: Square, u: Square, b: Square)
    requires Dist(a, b) <= 1
    ensures !Between(a, u, b)
  {
    SquareIsItsCoordinates(a, u);
  }
}
