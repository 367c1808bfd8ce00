/** Why two masks suffice. The generator never plays a move to see whether the king survives: it asks
    whether the move answers the checks and stays on its pin ray. Here that is proved to be the same
    question as make-and-test, for every move that carries one man from one square to another. */
module MaskLegality {
  import opened Squares
  import opened Geometry
  import opened Rules

  /** Enemy men giving check to a king on k. */
  ghost function Checkers(b: Board, us: Color, k: Square): Bitboard { Attackers(b, k, us.Opposite(), b.Keys) }

  /** Enemy sliders that would attack k on an empty board. */
  function Snipers(b: Board, us: Color, k: Square): Bitboard {
    set e | e in b && b[e].color == us.Opposite() && SlidesAlong(b[e].kind, k, e)
  }

  /** The occupied squares between the king and a sniper, other snipers not counted. */
  function Shields(b: Board, us: Color, k: Square, e: Square): Bitboard {
    set x | x in b.Keys - Snipers(b, us, k) && Between(k, x, e)
  }

  /** x is the only shield in front of some sniper. */
  predicate Blocks(b: Board, us: Color, k: Square, x: Square) {
    exists e | e in Snipers(b, us, k) :: Shields(b, us, k, e) == {x}
  }

  /** The check-evasion mask as a condition on the destination. */
  ghost predicate AnswersChecks(b: Board, us: Color, k: Square, to: Square) {
    forall e | e in Checkers(b, us, k) :: to == e || Between(k, to, e)
  }

  /** The pin mask as a condition on the move. */
  predicate StaysOnPin(b: Board, us: Color, k: Square, from: Square, to: Square) {
    Blocks(b, us, k, from) ==> OnLine(k, from, to)
  }

  /** Two enemy men never give check from the same direction, so no square answers both. */
  lemma NoSquareAnswersTwoChecks(b: Board, us: Color, k: Square, to: Square, e1: Square, e2: Square)
    requires e1 in Checkers(b, us, k) && e2 in Checkers(b, us, k) && e1 != e2
    ensures !((to == e1 || Between(k, to, e1)) && (to == e2 || Between(k, to, e2)))
  {
    if (to == e1 || Between(k, to, e1)) && (to == e2 || Between(k, to, e2)) {
      CheckFacts(b, us, k, e1, to);
      CheckFacts(b, us, k, e2, to);
      CheckFacts(b, us, k, e1, e2);
      CheckFacts(b, us, k, e2, e1);
      SharedBlocker(k, to, e1, e2);
    }
  }

  /** No occupied square lies between a checker and the king; and if any square does, it is a slider. */
  lemma CheckFacts(b: Board, us: Color, k: Square, e: Square, x: Square)
    requires e in Checkers(b, us, k)
    ensures x in b ==> !Between(k, x, e)
    ensures Between(k, x, e) ==> e in Snipers(b, us, k)
  {
    if IsSlider(b[e].kind) {
      AttackAlongRay(b[e], e, k, b.Keys);
    } else {
      LeaperRayEmpty(b[e], e, k, b.Keys, x);
    }
  }

  lemma LeaperRayEmpty(pc: Piece, e: Square, k: Square, occ: Bitboard, x: Square)
    requires Attacks(pc, e, k, occ) && !IsSlider(pc.kind)
    ensures !Between(k, x, e)
  {
    match pc.kind
    case Knight => KnightNeverAligned(e, k);
    case Pawn => AdjacentNothingBetween(k, x, e);
    case King => AdjacentNothingBetween(k, x, e);
  }

  /** A slider's attack, seen from the attacked square. */
  lemma AttackAlongRay(pc: Piece, e: Square, k: Square, occ: Bitboard)
    requires IsSlider(pc.kind)
    ensures Attacks(pc, e, k, occ) <==> SlidesAlong(pc.kind, k, e) && Clear(k, e, occ)
  {
    ClearSymmetric(e, k, occ);
  }

  lemma LeaperIgnoresOccupancy(pc: Piece, e: Square, k: Square, occ: Bitboard, occ': Bitboard)
    requires !IsSlider(pc.kind)
    ensures Attacks(pc, e, k, occ) <==> Attacks(pc, e, k, occ')
  {
  }

  /** One man goes from `from` to `to`, possibly becoming another, possibly capturing. */
  function Carried(b: Board, from: Square, to: Square, pc: Piece): Board { (b - {from})[to := pc] }

  /** The shape of a non-king move: own man, not onto an own man, nothing jumped unless a knight. */
  ghost predicate Carries(b: Board, us: Color, k: Square, from: Square, to: Square, pc: Piece) {
    && IsKing(b, us, k)
    && from in b && b[from].color == us && from != k
    && !(to in b && b[to].color == us)
    && pc.color == us
    && (KnightStep(from, to) || Clear(from, to, b.Keys))
  }

  /** What can attack the king after the move: an enemy man not captured, and either a checker whose ray
      the move did not close, or a sniper whose only shield was the man that moved. */
  lemma AttackAfter(b: Board, us: Color, k: Square, from: Square, to: Square, pc: Piece, e: Square)
    requires Carries(b, us, k, from, to, pc)
    requires e in b && b[e].color == us.Opposite() && e != to
    ensures var after := Carried(b, from, to, pc);
      Attacks(b[e], e, k, after.Keys) <==>
        (e in Checkers(b, us, k) && !Between(k, to, e)) ||
        (e in Snipers(b, us, k) && Between(k, from, e) && !Between(k, to, e) &&
         forall x | x in b && Between(k, x, e) :: x == from)
  {
    var after := Carried(b, from, to, pc);
    assert after.Keys == b.Keys - {from} + {to};
    if IsSlider(b[e].kind) {
      AttackAlongRay(b[e], e, k, b.Keys);
      AttackAlongRay(b[e], e, k, after.Keys);
      if Clear(k, e, b.Keys) {
        assert !Between(k, from, e);
      }
    } else {
      LeaperIgnoresOccupancy(b[e], e, k, b.Keys, after.Keys);
      if Attacks(b[e], e, k, b.Keys) && Between(k, to, e) {
        LeaperRayEmpty(b[e], e, k, b.Keys, to);
      }
    }
  }

  /** The masks are sufficient: no enemy man attacks the king afterwards. */
  lemma MasksKeepKingSafe(b: Board, us: Color, k: Square, from: Square, to: Square, pc: Piece, e: Square)
    requires Carries(b, us, k, from, to, pc)
    requires AnswersChecks(b, us, k, to) && StaysOnPin(b, us, k, from, to)
    requires e in b && b[e].color == us.Opposite() && e != to
    ensures !Attacks(b[e], e, k, Carried(b, from, to, pc).Keys)
  {
    AttackAfter(b, us, k, from, to, pc, e);
    if e in Snipers(b, us, k) && Between(k, from, e) && !Between(k, to, e) &&
       forall x | x in b && Between(k, x, e) :: x == from {
      assert Shields(b, us, k, e) == {from};
      assert Blocks(b, us, k, from);
      if from != to {
        OnLineAligned(k, from, to);
        if KnightStep(from, to) { KnightNeverAligned(from, to); }
        LeavingTheRayJumps(k, e, from, to);
      }
    }
  }

  /** The masks are necessary: a pinned man that leaves its ray exposes the king, or fails to answer a check. */
  lemma SafeMoveStaysOnPin(b: Board, us: Color, k: Square, from: Square, to: Square, pc: Piece, e: Square)
    requires Carries(b, us, k, from, to, pc)
    requires AnswersChecks(b, us, k, to)
    requires forall d | d in b && b[d].color == us.Opposite() && d != to ::
      !Attacks(b[d], d, k, Carried(b, from, to, pc).Keys)
    requires e in Snipers(b, us, k) && Between(k, from, e)
    requires Shields(b, us, k, e) <= {from}
    ensures OnLine(k, from, to)
    decreases Dist(k, e)
  {
    if nearer :| nearer in Snipers(b, us, k) && Between(k, nearer, e) {
      assert Shields(b, us, k, nearer) <= {from} by {
        forall x | x in Shields(b, us, k, nearer) ensures x == from {
          BetweenTransitive(k, x, nearer, e);
          assert x in Shields(b, us, k, e);
        }
      }
      if Between(k, from, nearer) {
        SafeMoveStaysOnPin(b, us, k, from, to, pc, nearer);
      } else {
        SameRay(k, from, nearer);
        var c := NearestIsChecker(b, us, k, nearer);
        OnRayIsOnLineBeyond(k, c, from, to);
      }
    } else {
      forall x | x in b && Between(k, x, e) ensures x == from {
        assert x in Shields(b, us, k, e);
      }
      if e != to { AttackAfter(b, us, k, from, to, pc, e); }
      OnRayIsOnLine(k, e, from, to);
    }
  }

  /** When only snipers stand between the king and a sniper, the nearest of them gives check. */
  lemma NearestIsChecker(b: Board, us: Color, k: Square, e: Square) returns (c: Square)
    requires e in Snipers(b, us, k) && Shields(b, us, k, e) == {}
    ensures c in Checkers(b, us, k) && (c == e || Between(k, c, e))
    decreases Dist(k, e)
  {
    if nearer :| nearer in Snipers(b, us, k) && Between(k, nearer, e) {
      forall x ensures x !in Shields(b, us, k, nearer) {
        assert x !in Shields(b, us, k, e);
        if x in Shields(b, us, k, nearer) { BetweenTransitive(k, x, nearer, e); }
      }
      c := NearestIsChecker(b, us, k, nearer);
    } else {
      c := e;
      forall x | x in b ensures !Between(k, x, e) {
        assert x !in Shields(b, us, k, e);
      }
      AttackAlongRay(b[e], e, k, b.Keys);
    }
  }

  lemma OnRayIsOnLineBeyond(k: Square, c: Square, from: Square, to: Square)
    requires Between(k, c, from)
    requires to == c || Between(k, to, c)
    ensures OnLine(k, from, to)
  {
  }

  /** Masks against make-and-test: a move of one man other than the king leaves the king safe if and only
      if it answers every check and stays on its pin ray. */
  lemma MasksAreMakeAndTest(b: Board, us: Color, k: Square, from: Square, to: Square, pc: Piece)
    requires Carries(b, us, k, from, to, pc) && OneKing(b, us) && !pc.kind.King?
    ensures KingSafe(Carried(b, from, to, pc), us) <==> AnswersChecks(b, us, k, to) && StaysOnPin(b, us, k, from, to)
  {
    var after := Carried(b, from, to, pc);
    assert k == KingSquare(b, us);
    forall j | IsKing(after, us, j) ensures j == k {
      assert IsKing(b, us, j);
    }
    if AnswersChecks(b, us, k, to) && StaysOnPin(b, us, k, from, to) {
      forall e | e in after && after[e].color == us.Opposite() ensures !Attacks(after[e], e, k, after.Keys) {
        MasksKeepKingSafe(b, us, k, from, to, pc, e);
      }
    }
    if KingSafe(after, us) {
      assert !Attacked(after, k, us.Opposite());
      forall e | e in b && b[e].color == us.Opposite() && e != to ensures !Attacks(b[e], e, k, after.Keys) {
        assert e !in Attackers(after, k, us.Opposite(), after.Keys);
      }
      forall e | e in Checkers(b, us, k) ensures to == e || Between(k, to, e) {
        if e != to { AttackAfter(b, us, k, from, to, pc, e); }
      }
      if e :| e in Snipers(b, us, k) && Shields(b, us, k, e) == {from} {
        assert from in Shields(b, us, k, e);
        SafeMoveStaysOnPin(b, us, k, from, to, pc, e);
      }
    }
  }
}
