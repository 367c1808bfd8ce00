/** generate (movegen.go), branch by branch, and its exactness. */
module Generator {
  import opened Squares
  import opened Geometry
  import opened Rules
  import opened MaskLegality
  import opened LegalMoves

  /** The checkers seen from the side to move; never restricted to captures when there are any. */
  ghost predicate CapturesOnly(p: Pos, k: Square, requested: bool) {
    requested && Checkers(p.board, p.side, k) == {}
  }

  ghost predicate DoubleCheck(p: Pos, k: Square) {
    exists e1, e2 | e1 in Checkers(p.board, p.side, k) && e2 in Checkers(p.board, p.side, k) :: e1 != e2
  }

  predicate Theirs(p: Pos, s: Square) { s in p.board && p.board[s].color != p.side }

  predicate Ours(p: Pos, s: Square) { s in p.board && p.board[s].color == p.side }

  /** The targets mask: answer the check, or capture, or anywhere but our own men. */
  ghost predicate InTargets(p: Pos, k: Square, caps: bool, to: Square) {
    if Checkers(p.board, p.side, k) != {} then AnswersChecks(p.board, p.side, k, to)
    else if caps then Theirs(p, to)
    else !Ours(p, to)
  }

  /** The mask of pawn pushes, which in captures-only mode is the two promotion ranks. */
  ghost predicate InQuietTargets(p: Pos, k: Square, caps: bool, to: Square) {
    if CapturesOnly(p, k, caps) then Rank(to) == 0 || Rank(to) == 7 else InTargets(p, k, caps, to)
  }

  ghost predicate EmitsKingMove(p: Pos, k: Square, caps: bool, to: Square) {
    && KingStep(k, to)
    && (if CapturesOnly(p, k, caps) then Theirs(p, to) else !Ours(p, to))
    && SafeStep(p.board, p.side, k, to)
  }

  ghost predicate EmitsCastling(p: Pos, k: Square, r: Right) {
    && MayCastle(p, k, r)
    && RookWasNotShielding(p.board, p.side, r, p.setup.rook[r])
  }

  ghost predicate EmitsPieceMove(p: Pos, k: Square, caps: bool, from: Square, to: Square) {
    && Ours(p, from) && !p.board[from].kind.Pawn? && !p.board[from].kind.King?
    && Attacks(p.board[from], from, to, p.board.Keys)
    && InTargets(p, k, caps, to)
    && StaysOnPin(p.board, p.side, k, from, to)
  }

  ghost predicate EmitsPush(p: Pos, k: Square, caps: bool, from: Square, to: Square) {
    && DF(from, to) == 0 && to !in p.board && Clear(from, to, p.board.Keys)
    && (DR(from, to) == Forward(p.side) || (DR(from, to) == 2 * Forward(p.side) && Rank(from) == StartRank(p.side)))
    && InQuietTargets(p, k, caps, to)
  }

  ghost predicate EmitsPawnCapture(p: Pos, k: Square, caps: bool, from: Square, to: Square) {
    PawnStep(p.side, from, to) && Theirs(p, to) && InTargets(p, k, caps, to)
  }

  ghost predicate EmitsPawnMove(p: Pos, k: Square, caps: bool, from: Square, to: Square) {
    && Has(p.board, from, Piece(p.side, Pawn))
    && (EmitsPush(p, k, caps, from, to) || EmitsPawnCapture(p, k, caps, from, to))
    && StaysOnPin(p.board, p.side, k, from, to)
  }

  ghost predicate EmitsEnPassant(p: Pos, k: Square, from: Square, to: Square) {
    && Has(p.board, from, Piece(p.side, Pawn))
    && p.ep == Some(to) && PawnStep(p.side, from, to)
    && EpLeavesKingSafe(p.board, p.side, from, to, k)
  }

  /** m is in the list generate builds, king on k. */
  ghost predicate Emits(p: Pos, k: Square, caps: bool, m: Move) {
    match m
    case Normal(from, to) =>
      || (from == k && EmitsKingMove(p, k, caps, to))
      || (!DoubleCheck(p, k) && EmitsPieceMove(p, k, caps, from, to))
      || (!DoubleCheck(p, k) && EmitsPawnMove(p, k, caps, from, to) && Rank(to) != PromotionRank(p.side))
    case Promotion(from, to, promo) =>
      && !DoubleCheck(p, k) && EmitsPawnMove(p, k, caps, from, to) && Rank(to) == PromotionRank(p.side)
      && PromotionKind(promo)
    case EnPassant(from, to) =>
      !DoubleCheck(p, k) && EmitsEnPassant(p, k, from, to)
    case Castling(from, to) =>
      && from == k && !caps && Checkers(p.board, p.side, k) == {}
      && exists kingSide: bool ::
           && EmitsCastling(p, k, Right(p.side, kingSide))
           && p.setup.rook[Right(p.side, kingSide)] == to
  }

  /** What quiescence asks for: captures, en passant and promotions. */
  predicate Forcing(p: Pos, m: Move) { IsCapture(p.board, m) || m.Promotion? }

  lemma KingsAreApart(p: Pos)
    requires Valid(p)
    ensures KingsApart(p.board)
  {
    var us, them := p.side, p.side.Opposite();
    forall j, k | IsKing(p.board, us, j) && IsKing(p.board, them, k) ensures !KingStep(j, k) {
      assert !Attacked(p.board, k, us);
      assert j !in Attackers(p.board, k, us, p.board.Keys);
    }
    forall j, k | IsKing(p.board, White, j) && IsKing(p.board, Black, k) ensures !KingStep(j, k) {
      assert KingStep(j, k) == KingStep(k, j);
    }
  }

  lemma SingleCheckAnswered(p: Pos, k: Square, to: Square)
    requires AnswersChecks(p.board, p.side, k, to)
    ensures !DoubleCheck(p, k)
  {
    forall e1, e2 | e1 in Checkers(p.board, p.side, k) && e2 in Checkers(p.board, p.side, k) ensures e1 == e2 {
      if e1 != e2 { NoSquareAnswersTwoChecks(p.board, p.side, k, to, e1, e2); }
    }
  }

  /** The mask conditions of one carried man against make-and-test. */
  lemma CarriedExactly(p: Pos, k: Square, from: Square, to: Square, pc: Piece)
    requires OneKing(p.board, p.side) && Carries(p.board, p.side, k, from, to, pc) && !pc.kind.King?
    ensures KingSafe(Carried(p.board, from, to, pc), p.side) <==>
      !DoubleCheck(p, k) && InTargets(p, k, false, to) && StaysOnPin(p.board, p.side, k, from, to)
  {
    MasksAreMakeAndTest(p.board, p.side, k, from, to, pc);
    if AnswersChecks(p.board, p.side, k, to) { SingleCheckAnswered(p, k, to); }
  }

  lemma CapturesMaskIsTargetsAndCapture(p: Pos, k: Square, caps: bool, to: Square)
    ensures InTargets(p, k, caps, to) <==> InTargets(p, k, false, to) && (CapturesOnly(p, k, caps) ==> Theirs(p, to))
  {
  }

  lemma KingMoveExactly(p: Pos, k: Square, caps: bool, to: Square)
    requires OneKing(p.board, p.side) && IsKing(p.board, p.side, k)
    ensures Emits(p, k, caps, Normal(k, to)) <==>
      Legal(p, Normal(k, to)) && (CapturesOnly(p, k, caps) ==> Forcing(p, Normal(k, to)))
  {
    hide KingSafe, SafeStep, KingStep, OneKing, InTargets;
    if KingStep(k, to) && !Ours(p, to) {
      assert k != to by { assert !Ours(p, to); }
      KingStepIsMakeAndTest(p.board, p.side, k, to);
    }
  }

  /** A man other than the king is emitted exactly when its move is legal and forcing enough. */
  lemma NormalExactly(p: Pos, k: Square, caps: bool, from: Square, to: Square)
    requires OneKing(p.board, p.side) && IsKing(p.board, p.side, k)
    ensures Emits(p, k, caps, Normal(from, to)) <==>
      Legal(p, Normal(from, to)) && (CapturesOnly(p, k, caps) ==> Forcing(p, Normal(from, to)))
  {
    if from == k {
      KingMoveExactly(p, k, caps, to);
    } else {
      CapturesMaskIsTargetsAndCapture(p, k, caps, to);
      OnlyKing(p.board, p.side, k);
      if Ours(p, from) && !Ours(p, to) {
        var pc := p.board[from];
        if pc.kind.Pawn? && PawnReaches(p.board, p.side, from, to) && Rank(to) != PromotionRank(p.side) {
          PawnPathClear(p.board, p.side, from, to);
          CarriedExactly(p, k, from, to, pc);
        } else if !pc.kind.Pawn? && Attacks(pc, from, to, p.board.Keys) {
          AttackPathClear(pc, from, to, p.board.Keys);
          assert IsKing(p.board, p.side, from) <==> pc.kind.King?;
          CarriedExactly(p, k, from, to, pc);
        }
      }
      if Ours(p, to) && InTargets(p, k, caps, to) { OursNotInTargets(p, k, caps, to); }
    }
  }

  lemma OursNotInTargets(p: Pos, k: Square, caps: bool, to: Square)
    requires Ours(p, to)
    ensures !InTargets(p, k, caps, to)
  {
    if e :| e in Checkers(p.board, p.side, k) {
      CheckFacts(p.board, p.side, k, e, to);
    }
  }

  lemma PawnPathClear(b: Board, us: Color, from: Square, to: Square)
    requires PawnReaches(b, us, from, to)
    ensures Clear(from, to, b.Keys)
  {
    if PawnStep(us, from, to) {
      forall u | u in b ensures !Between(from, u, to) { AdjacentNothingBetween(from, u, to); }
    }
  }

  lemma AttackPathClear(pc: Piece, from: Square, to: Square, occ: Bitboard)
    requires Attacks(pc, from, to, occ)
    ensures KnightStep(from, to) || Clear(from, to, occ)
  {
    if pc.kind.Pawn? || pc.kind.King? {
      forall u | u in occ ensures !Between(from, u, to) { AdjacentNothingBetween(from, u, to); }
    }
  }

  lemma PromotionExactly(p: Pos, k: Square, caps: bool, from: Square, to: Square, promo: Kind)
    requires OneKing(p.board, p.side) && IsKing(p.board, p.side, k)
    ensures Emits(p, k, caps, Promotion(from, to, promo)) <==> Legal(p, Promotion(from, to, promo))
  {
    CapturesMaskIsTargetsAndCapture(p, k, caps, to);
    OnlyKing(p.board, p.side, k);
    if Has(p.board, from, Piece(p.side, Pawn)) && PawnReaches(p.board, p.side, from, to) &&
       Rank(to) == PromotionRank(p.side) && PromotionKind(promo) {
      PawnPathClear(p.board, p.side, from, to);
      CarriedExactly(p, k, from, to, Piece(p.side, promo));
    }
  }

  lemma EnPassantExactly(p: Pos, k: Square, caps: bool, from: Square, to: Square)
    requires OneKing(p.board, p.side) && IsKing(p.board, p.side, k) && KingsApart(p.board) && EpValid(p)
    ensures Emits(p, k, caps, EnPassant(from, to)) <==> Legal(p, EnPassant(from, to))
  {
    if Has(p.board, from, Piece(p.side, Pawn)) && p.ep == Some(to) && PawnStep(p.side, from, to) {
      EpTestIsMakeAndTest(p.board, p.side, from, to, k);
      if KingSafe(BoardAfter(p.board, p.side, EnPassant(from, to)), p.side) {
        forall e1, e2 | e1 in Checkers(p.board, p.side, k) && e2 in Checkers(p.board, p.side, k) ensures e1 == e2 {
          EpNeverAnswersDoubleCheck(p.board, p.side, from, to, k, e1, e2);
        }
      }
    }
  }

  lemma CastlingExactly(p: Pos, k: Square, caps: bool, from: Square, to: Square)
    requires OneKing(p.board, p.side) && IsKing(p.board, p.side, k) && CastlingValid(p)
    ensures Emits(p, k, caps, Castling(from, to)) <==>
      Legal(p, Castling(from, to)) && (CapturesOnly(p, k, caps) ==> Forcing(p, Castling(from, to)))
  {
    OnlyKing(p.board, p.side, k);
    var m := Castling(from, to);
    if from == k {
      forall kingSide: bool | MayCastle(p, k, Right(p.side, kingSide)) && p.setup.rook[Right(p.side, kingSide)] == to
        ensures RightOf(p.side, m) == Right(p.side, kingSide)
        ensures KingSafe(BoardAfter(p.board, p.side, m), p.side) <==>
          RookWasNotShielding(p.board, p.side, Right(p.side, kingSide), to)
        ensures Checkers(p.board, p.side, k) == {}
      {
        var r := Right(p.side, kingSide);
        CastlingTurnsOnTheRook(p, k, r);
        CastlingTestIsMakeAndTest(p, k, r);
        assert OnKingPath(k, k, KingTo(r)) && !Attacked(p.board, k, p.side.Opposite());
      }
      assert RightOf(p.side, m) == Right(p.side, m.to > m.from);
    } else {
      assert !IsKing(p.board, p.side, from);
    }
  }

  /** What the exactness of the generator rests on. */
  ghost predicate Generable(p: Pos) {
    && OneKing(p.board, p.side) && KingsApart(p.board) && EpValid(p) && CastlingValid(p)
  }

  lemma ValidIsGenerable(p: Pos)
    requires Valid(p)
    ensures Generable(p)
  {
    KingsAreApart(p);
  }

  lemma GenerableExactly(p: Pos, k: Square, caps: bool, m: Move)
    requires Generable(p) && IsKing(p.board, p.side, k)
    ensures Emits(p, k, caps, m) <==> Legal(p, m) && (CapturesOnly(p, k, caps) ==> Forcing(p, m))
  {
    match m
    case Normal(from, to) => NormalExactly(p, k, caps, from, to);
    case Promotion(from, to, promo) => PromotionExactly(p, k, caps, from, to, promo);
    case EnPassant(from, to) => EnPassantExactly(p, k, caps, from, to);
    case Castling(from, to) => CastlingExactly(p, k, caps, from, to);
  }

  /** The generator is exact: in every valid position the list holds a move if and only if it is legal and,
      when only captures were asked for and there is no check, it is a capture or a promotion. */
  lemma EmitsExactlyLegalMoves(p: Pos, k: Square, caps: bool, m: Move)
    requires Valid(p) && IsKing(p.board, p.side, k)
    ensures Emits(p, k, caps, m) <==> Legal(p, m) && (CapturesOnly(p, k, caps) ==> Forcing(p, m))
  {
    ValidIsGenerable(p);
    GenerableExactly(p, k, caps, m);
  }
}
