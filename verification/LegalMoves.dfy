/** The move generator's branches as a predicate, and the proof that they let through exactly the legal
    moves: make-and-test is never needed. */
module LegalMoves {
  import opened Squares
  import opened Geometry
  import opened Rules
  import opened MaskLegality

  // ---- king moves

  /** No enemy man attacks the destination once the king has left its square. */
  ghost predicate SafeStep(b: Board, us: Color, k: Square, to: Square) {
    Attackers(b, to, us.Opposite(), b.Keys - {k}) == {}
  }

  lemma NothingAttacksItsOwnSquare(pc: Piece, s: Square, occ: Bitboard)
    ensures !Attacks(pc, s, s, occ)
  {
  }

  lemma TargetDoesNotShield(pc: Piece, e: Square, t: Square, occ: Bitboard)
    ensures Attacks(pc, e, t, occ) <==> Attacks(pc, e, t, occ + {t})
  {
    assert !Between(e, t, t);
  }

  /** The king is lifted before its destination is tested, so it cannot hide behind itself. */
  lemma KingStepIsMakeAndTest(b: Board, us: Color, k: Square, to: Square)
    requires OneKing(b, us) && IsKing(b, us, k) && to != k
    requires !(to in b && b[to].color == us)
    ensures KingSafe(Carried(b, k, to, b[k]), us) <==> SafeStep(b, us, k, to)
  {
    var after := Carried(b, k, to, b[k]);
    var them := us.Opposite();
    assert after.Keys == b.Keys - {k} + {to};
    OnlyKing(b, us, k);
    forall j | IsKing(after, us, j) ensures j == to {
      if j != to { assert IsKing(b, us, j); }
    }
    forall e ensures e in Attackers(after, to, them, after.Keys) <==> e in Attackers(b, to, them, b.Keys - {k}) {
      if e in b {
        TargetDoesNotShield(b[e], e, to, b.Keys - {k});
        if e == to { NothingAttacksItsOwnSquare(b[e], to, b.Keys - {k}); }
      }
    }
    assert IsKing(after, us, to);
  }

  lemma OnlyKing(b: Board, us: Color, k: Square)
    requires OneKing(b, us) && IsKing(b, us, k)
    ensures k == KingSquare(b, us)
    ensures forall j | IsKing(b, us, j) :: j == k
  {
  }

  lemma InCheckIffCheckers(b: Board, us: Color, k: Square)
    requires OneKing(b, us) && IsKing(b, us, k)
    ensures KingSafe(b, us) <==> Checkers(b, us, k) == {}
  {
    OnlyKing(b, us, k);
  }

  // ---- en passant

  /** The occupancy an en passant capture produces. */
  function OccupiedAfterEp(b: Board, us: Color, from: Square, to: Square): Bitboard {
    b.Keys - {from} - {Before(us, to)} + {to}
  }

  /** One of the four tests of enPassantLegal fires on the man on e. The enemy king is not consulted, and
      the captured pawn is left out of the pawn test. */
  ghost predicate EpThreat(b: Board, us: Color, from: Square, to: Square, k: Square, e: Square)
    requires e in b
  {
    var occ := OccupiedAfterEp(b, us, from, to);
    || ((b[e].kind.Rook? || b[e].kind.Queen?) && RookSees(k, e, occ))
    || ((b[e].kind.Bishop? || b[e].kind.Queen?) && BishopSees(k, e, occ))
    || (b[e].kind.Knight? && KnightStep(k, e))
    || (b[e].kind.Pawn? && e != Before(us, to) && PawnStep(us, k, e))
  }

  ghost predicate EpLeavesKingSafe(b: Board, us: Color, from: Square, to: Square, k: Square) {
    forall e | e in b && b[e].color == us.Opposite() :: !EpThreat(b, us, from, to, k, e)
  }

  /** What the board must look like for an en passant capture on t to make sense. */
  ghost predicate EpShape(b: Board, us: Color, from: Square, t: Square) {
    && Has(b, from, Piece(us, Pawn)) && PawnStep(us, from, t)
    && t !in b && Has(b, Before(us, t), Piece(us.Opposite(), Pawn))
  }

  ghost predicate KingsApart(b: Board) {
    forall j, k | IsKing(b, White, j) && IsKing(b, Black, k) :: !KingStep(j, k)
  }

  lemma AttackReversed(pc: Piece, e: Square, k: Square, occ: Bitboard)
    ensures Attacks(pc, e, k, occ) <==>
      match pc.kind
      case Pawn => PawnStep(pc.color.Opposite(), k, e)
      case Knight => KnightStep(k, e)
      case Bishop => BishopSees(k, e, occ)
      case Rook => RookSees(k, e, occ)
      case Queen => RookSees(k, e, occ) || BishopSees(k, e, occ)
      case King => KingStep(k, e)
  {
    hide Clear, KnightStep, KingStep, OnRookLine, OnBishopLine, PawnStep;
    ClearSymmetric(e, k, occ);
    StepsSymmetric(e, k);
    StepsSymmetric(k, e);
  }

  lemma EpThreatIsAttack(b: Board, us: Color, from: Square, t: Square, k: Square, e: Square)
    requires IsKing(b, us, k) && KingsApart(b) && EpShape(b, us, from, t)
    requires e in b && b[e].color == us.Opposite()
    ensures EpThreat(b, us, from, t, k, e) <==>
      e != Before(us, t) && Attacks(b[e], e, k, OccupiedAfterEp(b, us, from, t))
  {
    AttackReversed(b[e], e, k, OccupiedAfterEp(b, us, from, t));
    if b[e].kind.King? { assert IsKing(b, us.Opposite(), e); }
  }

  /** Simulating the occupancy is make-and-test, once the kings are not adjacent. */
  lemma EpTestIsMakeAndTest(b: Board, us: Color, from: Square, t: Square, k: Square)
    requires OneKing(b, us) && IsKing(b, us, k) && KingsApart(b) && EpShape(b, us, from, t)
    ensures KingSafe(BoardAfter(b, us, EnPassant(from, t)), us) <==> EpLeavesKingSafe(b, us, from, t, k)
  {
    var after := BoardAfter(b, us, EnPassant(from, t));
    var them := us.Opposite();
    OnlyKing(b, us, k);
    assert after.Keys == OccupiedAfterEp(b, us, from, t);
    forall j | IsKing(after, us, j) ensures j == k { assert IsKing(b, us, j); }
    assert IsKing(after, us, k);
    forall e | e in b && b[e].color == them
      ensures EpThreat(b, us, from, t, k, e) <==> e in Attackers(after, k, them, after.Keys)
    {
      EpThreatIsAttack(b, us, from, t, k, e);
    }
    assert forall e | e in Attackers(after, k, them, after.Keys) :: e in b && b[e].color == them;
  }

  /** An en passant capture removes one enemy man and fills one square; no geometry lets that answer two
      checks at once, which is why returning early under double check loses no move. */
  lemma EpNeverAnswersDoubleCheck(b: Board, us: Color, from: Square, t: Square, k: Square, e1: Square, e2: Square)
    requires OneKing(b, us) && IsKing(b, us, k) && EpShape(b, us, from, t)
    requires KingSafe(BoardAfter(b, us, EnPassant(from, t)), us)
    requires e1 in Checkers(b, us, k) && e2 in Checkers(b, us, k)
    ensures e1 == e2
  {
    if e1 != e2 {
      EpAnswer(b, us, from, t, k, e1);
      EpAnswer(b, us, from, t, k, e2);
      NoSquareAnswersTwoChecks(b, us, k, t, e1, e2);
      var other := if e1 == Before(us, t) then e2 else e1;
      assert PawnStep(us, k, Before(us, t));
      assert Between(k, t, other);
      assert KnightStep(k, t);
      KnightNeverAligned(k, t);
    }
  }

  /** How an en passant capture can answer a check: by taking the checker or by standing in its way. */
  lemma EpAnswer(b: Board, us: Color, from: Square, t: Square, k: Square, e: Square)
    requires IsKing(b, us, k) && EpShape(b, us, from, t) && e in Checkers(b, us, k)
    requires KingSafe(BoardAfter(b, us, EnPassant(from, t)), us)
    ensures e == Before(us, t) || Between(k, t, e)
  {
    var after := BoardAfter(b, us, EnPassant(from, t));
    assert IsKing(after, us, k);
    if e != Before(us, t) {
      assert e in after && after[e] == b[e];
      assert e !in Attackers(after, k, us.Opposite(), after.Keys);
      if IsSlider(b[e].kind) {
        AttackAlongRay(b[e], e, k, b.Keys);
        AttackAlongRay(b[e], e, k, after.Keys);
      }
    }
  }

  // ---- castling

  /** genCastling's last test: with the rook gone, no rook or queen looks along the back rank at the
      king's destination. */
  ghost predicate RookWasNotShielding(b: Board, us: Color, r: Right, rookFrom: Square) {
    forall e | e in b && b[e].color == us.Opposite() && (b[e].kind.Rook? || b[e].kind.Queen?) ::
      !RookSees(KingTo(r), e, b.Keys - {rookFrom})
  }

  /** A castling move that passed the tests of the rules, about to be judged by its result. */
  ghost predicate CastlingReady(p: Pos, k: Square, r: Right) {
    && r.color == p.side && r in p.castling && IsKing(p.board, p.side, k) && OneKing(p.board, p.side)
    && CastlingValid(p) && MayCastle(p, k, r)
  }

  lemma BetweenOnRank(a: Square, u: Square, b: Square)
    requires Rank(a) == Rank(b)
    ensures Between(a, u, b) <==>
      Rank(u) == Rank(a) && (File(a) < File(u) < File(b) || File(b) < File(u) < File(a))
  {
  }

  lemma CastlingTurnsOnTheRook(p: Pos, k: Square, r: Right)
    requires CastlingReady(p, k, r)
    ensures RightOf(p.side, Castling(k, p.setup.rook[r])) == r
    ensures Rank(k) == BackRank(r.color) && Rank(p.setup.rook[r]) == BackRank(r.color)
    ensures r.kingSide <==> File(p.setup.rook[r]) > File(k)
    ensures k != p.setup.rook[r]
    ensures forall s | s in p.board && (s == KingTo(r) || s == RookTo(r) || Between(k, s, KingTo(r))) ::
      s == k || s == p.setup.rook[r]
  {
    assert RightAtHome(p, r);
  }

  lemma CastlingOccupancy(p: Pos, k: Square, r: Right)
    requires CastlingReady(p, k, r)
    ensures var rf := p.setup.rook[r];
      var after := BoardAfter(p.board, p.side, Castling(k, rf));
      && after.Keys == p.board.Keys - {k, rf} + {KingTo(r), RookTo(r)}
      && (forall e | e in p.board && p.board[e].color != p.side :: e in after && after[e] == p.board[e])
      && (forall e | e in after && after[e].color != p.side :: e in p.board && after[e] == p.board[e])
      && (forall j | IsKing(after, p.side, j) :: j == KingTo(r))
      && IsKing(after, p.side, KingTo(r))
  {
    CastlingTurnsOnTheRook(p, k, r);
    OnlyKing(p.board, p.side, k);
    var rf := p.setup.rook[r];
    var after := BoardAfter(p.board, p.side, Castling(k, rf));
    forall j | IsKing(after, p.side, j) ensures j == KingTo(r) {
      if j != KingTo(r) && j != RookTo(r) { assert IsKing(p.board, p.side, j); }
    }
  }

  lemma CastlingSquares(p: Pos, k: Square, r: Right)
    requires CastlingReady(p, k, r)
    ensures r in p.setup.rook && IsKing(p.board, p.side, k) && Has(p.board, p.setup.rook[r], Piece(p.side, Rook))
  {
  }

  lemma NotAttackedOnPath(p: Pos, k: Square, r: Right, s: Square, e: Square)
    requires CastlingReady(p, k, r) && (s == k || s == KingTo(r))
    requires e in p.board && p.board[e].color != p.side
    ensures !Attacks(p.board[e], e, s, p.board.Keys)
  {
    CastlingTurnsOnTheRook(p, k, r);
    assert OnKingPath(k, s, KingTo(r)) && !Attacked(p.board, s, p.side.Opposite());
    assert e !in Attackers(p.board, s, p.side.Opposite(), p.board.Keys);
  }

  /** Off the back rank castling changes nothing, so only rooks and queens on it can attack the king
      on arrival. */
  lemma CastlingAttackIsOnTheRank(p: Pos, k: Square, r: Right, e: Square)
    requires CastlingReady(p, k, r)
    requires e in p.board && p.board[e].color != p.side
    requires Attacks(p.board[e], e, KingTo(r), BoardAfter(p.board, p.side, Castling(k, p.setup.rook[r])).Keys)
    ensures (p.board[e].kind.Rook? || p.board[e].kind.Queen?) && Rank(e) == BackRank(r.color)
  {
    hide CastlingReady, BoardAfter;
    CastlingSquares(p, k, r);
    CastlingTurnsOnTheRook(p, k, r);
    CastlingOccupancy(p, k, r);
    var b := p.board;
    var kt := KingTo(r);
    var after := BoardAfter(b, p.side, Castling(k, p.setup.rook[r]));
    NotAttackedOnPath(p, k, r, kt, e);
    if IsSlider(b[e].kind) {
      AttackAlongRay(b[e], e, kt, b.Keys);
      AttackAlongRay(b[e], e, kt, after.Keys);
      var x :| x in b && Between(kt, x, e) && x !in after;
      assert Rank(x) == BackRank(r.color);
      assert OnRookLine(kt, e);
    }
  }

  /** The shielding test is make-and-test for castling. */
  lemma CastlingTestIsMakeAndTest(p: Pos, k: Square, r: Right)
    requires CastlingReady(p, k, r)
    ensures KingSafe(BoardAfter(p.board, p.side, Castling(k, p.setup.rook[r])), p.side) <==>
      RookWasNotShielding(p.board, p.side, r, p.setup.rook[r])
  {
    CastlingOccupancy(p, k, r);
    var rf := p.setup.rook[r];
    var after := BoardAfter(p.board, p.side, Castling(k, rf));
    var them := p.side.Opposite();
    forall e | e in p.board && p.board[e].color == them
      ensures Attacks(p.board[e], e, KingTo(r), after.Keys) <==>
        (p.board[e].kind.Rook? || p.board[e].kind.Queen?) && RookSees(KingTo(r), e, p.board.Keys - {rf})
    {
      CastlingAttack(p, k, r, e);
    }
    if KingSafe(after, p.side) {
      assert !Attacked(after, KingTo(r), them);
      forall e | e in p.board && p.board[e].color == them && (p.board[e].kind.Rook? || p.board[e].kind.Queen?)
        ensures !RookSees(KingTo(r), e, p.board.Keys - {rf})
      {
        assert e !in Attackers(after, KingTo(r), them, after.Keys);
      }
    }
  }

  lemma CastlingAttack(p: Pos, k: Square, r: Right, e: Square)
    requires CastlingReady(p, k, r)
    requires e in p.board && p.board[e].color != p.side
    ensures Attacks(p.board[e], e, KingTo(r), BoardAfter(p.board, p.side, Castling(k, p.setup.rook[r])).Keys) <==>
      (p.board[e].kind.Rook? || p.board[e].kind.Queen?) && RookSees(KingTo(r), e, p.board.Keys - {p.setup.rook[r]})
  {
    var b := p.board;
    var kt, rf := KingTo(r), p.setup.rook[r];
    var after := BoardAfter(b, p.side, Castling(k, rf));
    if Attacks(b[e], e, kt, after.Keys) {
      CastlingAttackIsOnTheRank(p, k, r, e);
      AttackAlongRay(b[e], e, kt, after.Keys);
      AttackUnshielded(p, k, r, e);
    }
    if (b[e].kind.Rook? || b[e].kind.Queen?) && RookSees(kt, e, b.Keys - {rf}) {
      AttackAlongRay(b[e], e, kt, after.Keys);
      UnshieldedAttack(p, k, r, e);
    }
  }

  /** A line open after castling was open once the rook had stepped away. */
  lemma AttackUnshielded(p: Pos, k: Square, r: Right, e: Square)
    requires CastlingReady(p, k, r)
    requires e in p.board && p.board[e].color != p.side && Rank(e) == BackRank(r.color)
    requires p.board[e].kind.Rook? || p.board[e].kind.Queen?
    requires Clear(KingTo(r), e, BoardAfter(p.board, p.side, Castling(k, p.setup.rook[r])).Keys)
    ensures Clear(KingTo(r), e, p.board.Keys - {p.setup.rook[r]})
  {
    CastlingTurnsOnTheRook(p, k, r);
    CastlingOccupancy(p, k, r);
    var b := p.board;
    var kt, rf := KingTo(r), p.setup.rook[r];
    NotAttackedOnPath(p, k, r, k, e);
    BetweenOnRank(kt, RookTo(r), e);
    forall x | x in b.Keys - {rf} ensures !Between(kt, x, e) {
      BetweenOnRank(kt, x, e);
      if Between(kt, x, e) {
        assert x == k;
        forall y | y in b ensures !Between(k, y, e) {
          BetweenOnRank(k, y, e);
          BetweenOnRank(kt, y, e);
        }
        AttackAlongRay(b[e], e, k, b.Keys);
      }
    }
  }

  /** A rook or queen that looks at the destination once the rook has gone still does after castling:
      the rook cannot land in between, for then the square would have been attacked before. */
  lemma UnshieldedAttack(p: Pos, k: Square, r: Right, e: Square)
    requires CastlingReady(p, k, r)
    requires e in p.board && p.board[e].color != p.side
    requires p.board[e].kind.Rook? || p.board[e].kind.Queen?
    requires RookSees(KingTo(r), e, p.board.Keys - {p.setup.rook[r]})
    ensures Clear(KingTo(r), e, BoardAfter(p.board, p.side, Castling(k, p.setup.rook[r])).Keys)
  {
    hide CastlingReady, BoardAfter, Between, OnRookLine;
    CastlingSquares(p, k, r);
    CastlingTurnsOnTheRook(p, k, r);
    CastlingOccupancy(p, k, r);
    var b := p.board;
    var kt, rf := KingTo(r), p.setup.rook[r];
    if Between(kt, RookTo(r), e) {
      NotAttackedOnPath(p, k, r, kt, e);
      BeyondTheRook(p, k, r, e);
      AttackAlongRay(b[e], e, kt, b.Keys);
    }
    EndIsNotBetween(kt, e);
  }

  lemma EndIsNotBetween(a: Square, b: Square)
    ensures !Between(a, a, b)
  {
  }

  /** Of a rook or queen that looks past the rook's destination at the king's, the castling rook was no shield:
      it stands on the far side of the king, who would have had to come past that man. */
  lemma BeyondTheRook(p: Pos, k: Square, r: Right, e: Square)
    requires CastlingReady(p, k, r) && e in p.board && p.board[e].color != p.side && Between(KingTo(r), RookTo(r), e)
    requires RookSees(KingTo(r), e, p.board.Keys - {p.setup.rook[r]})
    ensures !Between(KingTo(r), p.setup.rook[r], e)
  {
    hide CastlingReady, Between, Clear;
    CastlingSquares(p, k, r);
    CastlingTurnsOnTheRook(p, k, r);
    var kt, rf := KingTo(r), p.setup.rook[r];
    BetweenOnRank(kt, RookTo(r), e) by { SameRankAsRook(kt, RookTo(r), e); }
    SameRankAsRook(kt, RookTo(r), e);
    BetweenOnRank(kt, rf, e);
    BetweenOnRank(kt, k, e);
    BetweenOnRank(k, e, kt);
    SquareIsItsCoordinates(k, kt);
    SquareIsItsCoordinates(k, e);
    assert !Between(kt, k, e) by { NotBetweenClear(kt, e, k, rf, p.board.Keys); }
    assert !Between(k, e, kt);
  }

  lemma NotBetweenClear(a: Square, b: Square, x: Square, rf: Square, occ: Bitboard)
    requires Clear(a, b, occ - {rf}) && x in occ && x != rf
    ensures !Between(a, x, b)
  {
  }

  lemma SameRankAsRook(kt: Square, rt: Square, e: Square)
    requires Between(kt, rt, e) && Rank(kt) == Rank(rt)
    ensures Rank(e) == Rank(kt)
  {
  }
}
