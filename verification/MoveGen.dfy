/** The legal move generator as it runs (movegen.go): masks first, then loops that pop squares from
    bitboards and append to a move list. */
module MoveGen {
  import opened Squares
  import opened Geometry
  import opened Rules
  import opened MaskLegality
  import opened LegalMoves
  import opened Generator
  import opened PositionState

  class MoveList {
    var moves: seq<Move>

    constructor ()
      ensures moves == []
    {
      moves := [];
    }

    method Add(m: Move)
      modifies this
      ensures moves == old(moves) + [m]
    {
      moves := moves + [m];
    }
  }

  predicate NoDuplicates(ms: seq<Move>) {
    forall i, j | 0 <= i < j < |ms| :: ms[i] != ms[j]
  }

  function BetweenBB(a: Square, b: Square): Bitboard { set u: Square | Between(a, u, b) }

  function LineBB(a: Square, b: Square): Bitboard { set u: Square | OnLine(a, b, u) }

  predicate MoreThanOne(b: Bitboard) { b != {} && b - {First(b)} != {} }

  lemma MoreThanOneExactly(b: Bitboard)
    ensures MoreThanOne(b) <==> exists x, y | x in b && y in b :: x != y
    ensures b != {} && !MoreThanOne(b) ==> b == {First(b)}
  {
    if b != {} && b - {First(b)} != {} {
      var y :| y in b - {First(b)};
      assert First(b) in b && y in b && First(b) != y;
    }
    forall x, y | x in b && y in b && x != y ensures MoreThanOne(b) {
      assert (if x == First(b) then y else x) in b - {First(b)};
    }
  }

  /** A bitboard expression for the squares a man of kind k reaches from s. */
  function AttacksFrom(k: Kind, c: Color, s: Square, occ: Bitboard): Bitboard {
    match k
    case Pawn => PawnAttacks(c, s)
    case Knight => KnightAttacks(s)
    case Bishop => BishopAttacks(s, occ)
    case Rook => RookAttacks(s, occ)
    case Queen => RookAttacks(s, occ) + BishopAttacks(s, occ)
    case King => KingAttacks(s)
  }

  lemma AttacksFromExactly(pc: Piece, s: Square, t: Square, occ: Bitboard)
    ensures t in AttacksFrom(pc.kind, pc.color, s, occ) <==> Attacks(pc, s, t, occ)
  {
  }

  /** blockersForKing: one sniper after another, keeping those with a single shield. */
  method BlockersForKing(p: Position, c: Color) returns (blockers: Bitboard)
    requires p.Views() && OneKing(p.board, c)
    ensures forall x: Square :: x in blockers <==> Blocks(p.board, c, KingSquare(p.board, c), x)
  {
    hide RookAttacks, BishopAttacks;
    var ksq := p.KingSquareOf(c);
    var them := c.Opposite();
    p.OccupiedIsBoard();
    var snipers := ((RookAttacks(ksq, {}) * (p.byType[Rook] + p.byType[Queen])) +
                    (BishopAttacks(ksq, {}) * (p.byType[Bishop] + p.byType[Queen]))) * p.byColor[them];
    SnipersExactly(p, c, ksq);
    ghost var all := Snipers(p.board, c, ksq);
    assert snipers == all;
    var occupancy := p.Occupied() - snipers;
    blockers := {};
    while snipers != {}
      invariant snipers <= all
      invariant forall x: Square :: x in blockers <==> exists e | e in all - snipers ::
        Shields(p.board, c, ksq, e) == {x}
      decreases snipers
    {
      var sniperSq := First(snipers);
      snipers := snipers - {sniperSq};
      var between := BetweenBB(ksq, sniperSq) * occupancy;
      assert between == Shields(p.board, c, ksq, sniperSq);
      MoreThanOneExactly(between);
      if between != {} && !MoreThanOne(between) {
        blockers := blockers + between;
      }
    }
  }

  lemma SnipersExactly(p: Position, c: Color, ksq: Square)
    requires p.Views()
    ensures ((RookAttacks(ksq, {}) * (p.byType[Rook] + p.byType[Queen])) +
             (BishopAttacks(ksq, {}) * (p.byType[Bishop] + p.byType[Queen]))) * p.byColor[c.Opposite()]
         == Snipers(p.board, c, ksq)
  {
  }

  /** Appends a move from `from` to every square of targets. */
  method AddTargets(ml: MoveList, from: Square, targets: Bitboard)
    requires NoDuplicates(ml.moves) && forall m | m in ml.moves :: m.from != from
    modifies ml
    ensures NoDuplicates(ml.moves)
    ensures forall m :: m in ml.moves <==> m in old(ml.moves) || (m.Normal? && m.from == from && m.to in targets)
  {
    var rest := targets;
    while rest != {}
      invariant rest <= targets && NoDuplicates(ml.moves)
      invariant forall m :: m in ml.moves <==>
        m in old(ml.moves) || (m.Normal? && m.from == from && m.to in targets - rest)
      decreases rest
    {
      var to := First(rest);
      rest := rest - {to};
      ml.Add(Normal(from, to));
    }
  }

  /** genKingMoves: every target that is safe once the king has been lifted off the board. */
  method GenKingMoves(p: Position, ml: MoveList, ksq: Square, them: Color, targets: Bitboard)
    requires p.Views() && IsKing(p.board, them.Opposite(), ksq) && ml.moves == []
    modifies ml
    ensures NoDuplicates(ml.moves)
    ensures forall m :: m in ml.moves <==>
      m.Normal? && m.from == ksq && m.to in targets && KingStep(ksq, m.to) &&
        SafeStep(p.board, them.Opposite(), ksq, m.to)
  {
    p.OccupiedIsBoard();
    var occWithoutKing := p.Occupied() - {ksq};
    var attacks := KingAttacks(ksq) * targets;
    ghost var all := attacks;
    while attacks != {}
      invariant attacks <= all && NoDuplicates(ml.moves)
      invariant forall m :: m in ml.moves <==>
        m.Normal? && m.from == ksq && m.to in all - attacks && SafeStep(p.board, them.Opposite(), ksq, m.to)
      decreases attacks
    {
      hide SafeStep;
      var to := First(attacks);
      attacks := attacks - {to};
      p.AttackersToExactly(to, occWithoutKing, them);
      SafeStepIs(p.board, them.Opposite(), ksq, to);
      if p.AttackersTo(to, occWithoutKing) * p.byColor[them] == {} {
        ml.Add(Normal(ksq, to));
      }
    }
  }

  lemma SafeStepIs(b: Board, us: Color, k: Square, to: Square)
    ensures SafeStep(b, us, k, to) <==> Attackers(b, to, us.Opposite(), b.Keys - {k}) == {}
  {
  }

  /** One step of the walk along the rank. */
  lemma StepOnPath(from: Square, sq: Square, to: Square)
    requires Rank(from) == Rank(to) && OnKingPath(from, sq, to) && sq != to
    ensures var next := sq + (if to < from then -1 else 1);
      0 <= next < 64 && OnKingPath(from, next, to)
  {
    SquareIsItsCoordinates(sq, to);
    var next := sq + (if to < from then -1 else 1);
    assert next == MakeSquare(File(sq) + (if to < from then -1 else 1), Rank(sq));
  }

  lemma OnPathIsBetween(from: Square, s: Square, to: Square)
    requires Rank(from) == Rank(to)
    ensures OnKingPath(from, s, to) <==> from <= s <= to || to <= s <= from
  {
  }

  /** kingPathAttacked walks from the king to its destination, both included. */
  method KingPathAttacked(p: Position, from: Square, to: Square, foe: Color) returns (attacked: bool)
    requires p.Views() && Rank(from) == Rank(to)
    ensures attacked <==> exists s: Square :: OnKingPath(from, s, to) && Attacked(p.board, s, foe)
  {
    hide OnKingPath, Attackers;
    p.OccupiedIsBoard();
    forall s: Square ensures OnKingPath(from, s, to) <==> from <= s <= to || to <= s <= from {
      OnPathIsBetween(from, s, to);
    }
    var step := if to < from then -1 else 1;
    var sq: Square := from;
    while true
      invariant OnKingPath(from, sq, to)
      invariant forall s: Square | OnKingPath(from, s, to) && (if to < from then s > sq else s < sq) ::
        !Attacked(p.board, s, foe)
      decreases if to < from then sq - to else to - sq
    {
      p.AttackersToExactly(sq, p.Occupied(), foe);
      if p.AttackersTo(sq, p.Occupied()) * p.byColor[foe] != {} {
        return true;
      }
      if sq == to {
        return false;
      }
      StepOnPath(from, sq, to);
      sq := sq + step;
    }
  }

  // ---- castling

  /** One pass of genCastling's loop. */
  method TryCastling(p: Position, ml: MoveList, kingFrom: Square, r: Right)
    requires p.Views() && OneKing(p.board, p.side) && IsKing(p.board, p.side, kingFrom) && r.color == p.side
    requires CastlingValid(p.Model())
    requires NoDuplicates(ml.moves) && (r in p.castling ==> Castling(kingFrom, p.castlingRook[r]) !in ml.moves)
    modifies ml
    ensures NoDuplicates(ml.moves)
    ensures ml.moves == if EmitsCastling(p.Model(), kingFrom, r)
      then old(ml.moves) + [Castling(kingFrom, p.castlingRook[r])] else old(ml.moves)
  {
    hide RookWasNotShielding, Attackers, OnKingPath, OneKing, RookAttacks, Toggle;
    p.OccupiedIsBoard();
    if r !in p.castling { return; }
    assert RightAtHome(p.Model(), r);
    var occ := p.Occupied();
    if occ * p.castlingPath[r] != {} { return; }
    var rookFrom := p.castlingRook[r];
    if !Has(p.board, rookFrom, Piece(p.side, Rook)) { return; }
    var kingTo := KingTo(r);
    var attacked := KingPathAttacked(p, kingFrom, kingTo, p.side.Opposite());
    if attacked { return; }
    ShieldTestExactly(p, r, rookFrom);
    var seen := RookAttacks(kingTo, Toggle(occ, {rookFrom})) * (p.byType[Rook] + p.byType[Queen]);
    if seen * p.byColor[p.side.Opposite()] != {} {
      return;
    }
    ml.Add(Castling(kingFrom, rookFrom));
  }

  lemma ShieldTestExactly(p: Position, r: Right, rookFrom: Square)
    requires p.Views() && rookFrom in p.board
    ensures RookAttacks(KingTo(r), Toggle(p.Occupied(), {rookFrom})) * (p.byType[Rook] + p.byType[Queen]) *
      p.byColor[p.side.Opposite()] == {}
      <==> RookWasNotShielding(p.board, p.side, r, rookFrom)
  {
    p.OccupiedIsBoard();
    assert Toggle(p.Occupied(), {rookFrom}) == p.board.Keys - {rookFrom};
    var seen := RookAttacks(KingTo(r), p.board.Keys - {rookFrom}) * (p.byType[Rook] + p.byType[Queen]) *
      p.byColor[p.side.Opposite()];
    forall e: Square ensures e in seen <==>
      e in p.board && p.board[e].color == p.side.Opposite() && (p.board[e].kind.Rook? || p.board[e].kind.Queen?) &&
      RookSees(KingTo(r), e, p.board.Keys - {rookFrom})
    {
    }
  }

  /** m castles, with either rook. */
  ghost predicate IsEmittedCastling(p: Pos, k: Square, m: Move) {
    && m.Castling? && m.from == k
    && exists kingSide: bool ::
         EmitsCastling(p, k, Right(p.side, kingSide)) && p.setup.rook[Right(p.side, kingSide)] == m.to
  }

  lemma RooksOnBothSides(p: Pos, k: Square)
    requires CastlingValid(p) && IsKing(p.board, p.side, k)
    requires Right(p.side, true) in p.castling && Right(p.side, false) in p.castling
    ensures p.setup.rook[Right(p.side, true)] != p.setup.rook[Right(p.side, false)]
  {
    assert RightAtHome(p, Right(p.side, true)) && RightAtHome(p, Right(p.side, false));
  }

  method GenCastling(p: Position, ml: MoveList)
    requires p.Views() && OneKing(p.board, p.side) && CastlingValid(p.Model())
    requires NoDuplicates(ml.moves) && forall m | m in ml.moves :: !m.Castling?
    modifies ml
    ensures NoDuplicates(ml.moves)
    ensures forall m :: m in ml.moves <==>
      m in old(ml.moves) || IsEmittedCastling(p.Model(), KingSquare(p.board, p.side), m)
  {
    hide RookWasNotShielding, Attackers, OnKingPath, CastlingValid, KingSafe;
    var kingFrom := p.KingSquareOf(p.side);
    ghost var model := p.Model();
    ghost var before := ml.moves;
    var kingSide, queenSide := Right(p.side, true), Right(p.side, false);
    TryCastling(p, ml, kingFrom, kingSide);
    if kingSide in p.castling && queenSide in p.castling { RooksOnBothSides(model, kingFrom); }
    TryCastling(p, ml, kingFrom, queenSide);
    forall m ensures IsEmittedCastling(model, kingFrom, m) <==>
      || (EmitsCastling(model, kingFrom, kingSide) && m == Castling(kingFrom, p.castlingRook[kingSide]))
      || (EmitsCastling(model, kingFrom, queenSide) && m == Castling(kingFrom, p.castlingRook[queenSide]))
    {
      hide EmitsCastling;
      assert forall b: bool :: Right(p.side, b) == kingSide || Right(p.side, b) == queenSide;
    }
  }

  // ---- knights, bishops, rooks and queens

  /** Where genPieceMoves sends the man on `from`. */
  function PieceTargets(p: Position, targets: Bitboard, pinned: Bitboard, ksq: Square, from: Square): Bitboard
    requires from in p.board && p.Views()
    reads p
  {
    var attacks := AttacksFrom(p.board[from].kind, p.board[from].color, from, p.Occupied()) * targets;
    if from in pinned then attacks * LineBB(ksq, from) else attacks
  }

  predicate IsPiece(b: Board, us: Color, s: Square) {
    s in b && b[s].color == us && PromotionKind(b[s].kind)
  }

  method GenPiecesOfKind(p: Position, ml: MoveList, k: Kind, targets: Bitboard, pinned: Bitboard, ksq: Square)
    requires p.Views() && PromotionKind(k)
    requires NoDuplicates(ml.moves) && forall m | m in ml.moves :: !Has(p.board, m.from, Piece(p.side, k))
    modifies ml
    ensures NoDuplicates(ml.moves)
    ensures forall m :: m in ml.moves <==>
      || m in old(ml.moves)
      || (m.Normal? && Has(p.board, m.from, Piece(p.side, k)) && m.to in PieceTargets(p, targets, pinned, ksq, m.from))
  {
    var bb := p.PiecesOf(p.side, k);
    while bb != {}
      invariant bb <= p.PiecesOf(p.side, k) && NoDuplicates(ml.moves)
      invariant forall m | m in ml.moves :: m.from !in bb
      invariant forall m :: m in ml.moves <==>
        || m in old(ml.moves)
        || (m.Normal? && Has(p.board, m.from, Piece(p.side, k)) && m.from !in bb &&
          m.to in PieceTargets(p, targets, pinned, ksq, m.from))
      decreases bb
    {
      hide AttacksFrom, LineBB;
      var from := First(bb);
      bb := bb - {from};
      var attacks := AttacksFrom(k, p.side, from, p.Occupied()) * targets;
      if from in pinned {
        attacks := attacks * LineBB(ksq, from);
      }
      assert attacks == PieceTargets(p, targets, pinned, ksq, from);
      AddTargets(ml, from, attacks);
    }
  }

  method GenPieceMoves(p: Position, ml: MoveList, targets: Bitboard, pinned: Bitboard, ksq: Square)
    requires p.Views()
    requires NoDuplicates(ml.moves) && forall m | m in ml.moves :: !IsPiece(p.board, p.side, m.from)
    modifies ml
    ensures NoDuplicates(ml.moves)
    ensures forall m :: m in ml.moves <==>
      || m in old(ml.moves)
      || (m.Normal? && IsPiece(p.board, p.side, m.from) && m.to in PieceTargets(p, targets, pinned, ksq, m.from))
  {
    hide PieceTargets, NoDuplicates;
    var kinds := [Knight, Bishop, Rook, Queen];
    for i := 0 to 4
      invariant NoDuplicates(ml.moves)
      invariant forall m :: m in ml.moves <==>
        || m in old(ml.moves)
        || (m.Normal? && IsPiece(p.board, p.side, m.from) && p.board[m.from].kind in kinds[..i] &&
         m.to in PieceTargets(p, targets, pinned, ksq, m.from))
    {
      GenPiecesOfKind(p, ml, kinds[i], targets, pinned, ksq);
    }
    assert kinds[..4] == kinds && kinds[0].Knight? && kinds[1].Bishop? && kinds[2].Rook? && kinds[3].Queen?;
    assert forall k: Kind | PromotionKind(k) :: k in kinds;
  }

  // ---- pawns

  /** Where genPawnMoves sends the pawn on `from`, en passant apart. */
  predicate PawnTarget(p: Position, targets: Bitboard, quiet: Bitboard, pinned: Bitboard, ksq: Square, from: Square,
      to: Square)
    requires p.Views()
    reads p
  {
    && (PushTarget(p.Occupied(), p.side, quiet, from, to) ||
      CaptureTarget(p.byColor[p.side.Opposite()], p.side, targets, from, to))
    && (from in pinned ==> to in LineBB(ksq, from))
  }

  predicate PushTarget(occ: Bitboard, us: Color, quiet: Bitboard, from: Square, to: Square) {
    && DF(from, to) == 0 && to !in occ && to in quiet
    && (DR(from, to) == Forward(us) ||
        (DR(from, to) == 2 * Forward(us) && Rank(from) == StartRank(us) && Before(us, to) !in occ))
  }

  predicate CaptureTarget(theirs: Bitboard, us: Color, targets: Bitboard, from: Square, to: Square) {
    PawnStep(us, from, to) && to in theirs && to in targets
  }

  /** A pawn arrives: as itself, or on the last rank as any of four pieces. */
  predicate Arrives(us: Color, m: Move, from: Square, to: Square) {
    && m.from == from && m.to == to
    && if Rank(to) == PromotionRank(us) then m.Promotion? && PromotionKind(m.promo) else m.Normal?
  }

  method AddPawnMove(ml: MoveList, us: Color, from: Square, to: Square)
    requires NoDuplicates(ml.moves) && forall m | m in ml.moves :: !Arrives(us, m, from, to)
    modifies ml
    ensures NoDuplicates(ml.moves)
    ensures forall m :: m in ml.moves <==> m in old(ml.moves) || Arrives(us, m, from, to)
  {
    if Rank(to) != PromotionRank(us) {
      assert Arrives(us, Normal(from, to), from, to);
      ml.Add(Normal(from, to));
      return;
    }
    assert forall k: Kind | PromotionKind(k) :: Arrives(us, Promotion(from, to, k), from, to);
    assert forall k: Kind | PromotionKind(k) :: Promotion(from, to, k) !in ml.moves;
    ml.Add(Promotion(from, to, Queen));
    ml.Add(Promotion(from, to, Rook));
    ml.Add(Promotion(from, to, Bishop));
    ml.Add(Promotion(from, to, Knight));
  }

  /** One step forward from inside the board, two from the start rank, in index arithmetic. */
  lemma PushTargetExactly(occ: Bitboard, us: Color, quiet: Bitboard, from: Square, x: Square)
    requires 1 <= Rank(from) <= 6
    ensures 0 <= from + 8 * Forward(us) < 64
    ensures Rank(from) == StartRank(us) ==> 0 <= from + 16 * Forward(us) < 64
    ensures PushTarget(occ, us, quiet, from, x) <==>
      x !in occ && x in quiet &&
      (x == from + 8 * Forward(us) ||
       (Rank(from) == StartRank(us) && x == from + 16 * Forward(us) && from + 8 * Forward(us) !in occ))
  {
    if DF(from, x) == 0 && DR(from, x) == 2 * Forward(us) {
      assert Before(us, x) == from + 8 * Forward(us);
    }
  }

  lemma PushTargetsExactly(occ: Bitboard, us: Color, quiet: Bitboard, from: Square)
    requires 1 <= Rank(from) <= 6
    ensures 0 <= from + 8 * Forward(us) < 64
    ensures Rank(from) == StartRank(us) ==> 0 <= from + 16 * Forward(us) < 64
    ensures forall x :: PushTarget(occ, us, quiet, from, x) <==>
      x !in occ && x in quiet &&
      (x == from + 8 * Forward(us) ||
       (Rank(from) == StartRank(us) && x == from + 16 * Forward(us) && from + 8 * Forward(us) !in occ))
  {
    PushTargetExactly(occ, us, quiet, from, from);
    forall x ensures PushTarget(occ, us, quiet, from, x) <==>
      x !in occ && x in quiet &&
      (x == from + 8 * Forward(us) ||
       (Rank(from) == StartRank(us) && x == from + 16 * Forward(us) && from + 8 * Forward(us) !in occ))
    {
      PushTargetExactly(occ, us, quiet, from, x);
    }
  }

  function FullBB(): Bitboard { set s: Square | OnBoard(File(s), Rank(s)) }

  /** The pushes of one pawn. */
  method GenPushes(ml: MoveList, us: Color, occ: Bitboard, quiet: Bitboard, pinMask: Bitboard, from: Square)
    requires 1 <= Rank(from) <= 6
    requires NoDuplicates(ml.moves) && forall m | m in ml.moves :: m.from != from
    modifies ml
    ensures NoDuplicates(ml.moves)
    ensures forall m :: m in ml.moves <==>
      || m in old(ml.moves)
      || (Arrives(us, m, from, m.to) && PushTarget(occ, us, quiet, from, m.to) && m.to in pinMask)
  {
    hide NoDuplicates, Arrives, PushTarget;
    PushTargetsExactly(occ, us, quiet, from);
    ArrivesAt(us, from);
    var to := from + 8 * Forward(us);
    if to !in occ {
      if to in quiet && to in pinMask {
        AddPawnMove(ml, us, from, to);
      }
      if Rank(from) == StartRank(us) {
        var to2 := to + 8 * Forward(us);
        if to2 !in occ && to2 in quiet && to2 in pinMask {
          AddPawnMove(ml, us, from, to2);
        }
      }
    }
  }

  lemma ArrivesAt(us: Color, from: Square)
    ensures forall m: Move, to: Square :: Arrives(us, m, from, to) ==> m.from == from && m.to == to
  {
  }

  lemma ArrivesOnFoot(us: Color)
    ensures forall m: Move :: Arrives(us, m, m.from, m.to) ==> !m.EnPassant?
  {
  }

  /** The captures of one pawn, whose pushes are already in the list. */
  method GenPawnCaptures(ml: MoveList, us: Color, caps: Bitboard, from: Square)
    requires NoDuplicates(ml.moves) && forall m | m in ml.moves :: m.from == from ==> m.to !in caps
    modifies ml
    ensures NoDuplicates(ml.moves)
    ensures forall m :: m in ml.moves <==> m in old(ml.moves) || (m.to in caps && Arrives(us, m, from, m.to))
  {
    var rest := caps;
    ArrivesAt(us, from);
    while rest != {}
      invariant rest <= caps && NoDuplicates(ml.moves)
      invariant forall m :: m in ml.moves <==> m in old(ml.moves) || (m.to in caps - rest && Arrives(us, m, from, m.to))
      decreases rest
    {
      hide NoDuplicates, Arrives;
      var to := First(rest);
      rest := rest - {to};
      AddPawnMove(ml, us, from, to);
    }
  }

  /** What genPawnMoves emits for the pawn on m.from. */
  predicate PawnGoes(p: Position, targets: Bitboard, quiet: Bitboard, pinned: Bitboard, ksq: Square, m: Move)
    requires p.Views()
    reads p
  {
    || (Arrives(p.side, m, m.from, m.to) && PawnTarget(p, targets, quiet, pinned, ksq, m.from, m.to))
    || (m.EnPassant? && p.ep == Some(m.to) && PawnStep(p.side, m.from, m.to) &&
        p.EnPassantLegal(m.from, m.to, p.side, ksq, p.Occupied()))
  }

  method GenPawn(p: Position, ml: MoveList, targets: Bitboard, quiet: Bitboard, pinned: Bitboard, ksq: Square,
      from: Square)
    requires p.Views() && 1 <= Rank(from) <= 6
    requires NoDuplicates(ml.moves) && forall m | m in ml.moves :: m.from != from
    modifies ml
    ensures NoDuplicates(ml.moves)
    ensures forall m :: m in ml.moves <==>
      || m in old(ml.moves)
      || (m.from == from && PawnGoes(p, targets, quiet, pinned, ksq, m))
  {
    hide NoDuplicates, Arrives, PushTarget, Position.EnPassantLegal, OnLine;
    ArrivesAt(p.side, from);
    ArrivesOnFoot(p.side);
    var us, occ := p.side, p.Occupied();
    var pinMask: Bitboard := if from in pinned then LineBB(ksq, from) else FullBB();
    GenPushes(ml, us, occ, quiet, pinMask, from);
    var caps := PawnAttacks(us, from) * p.byColor[us.Opposite()] * targets * pinMask;
    PushesAreNotCaptures(occ, us, quiet, from);
    GenPawnCaptures(ml, us, caps, from);
    assert forall to: Square :: PawnTarget(p, targets, quiet, pinned, ksq, from, to) <==>
      (PushTarget(occ, us, quiet, from, to) && to in pinMask) || to in caps;
    if p.ep.Some? && p.ep.value in PawnAttacks(us, from) {
      if p.EnPassantLegal(from, p.ep.value, us, ksq, occ) {
        NoDuplicatesAdd(ml.moves, EnPassant(from, p.ep.value));
        ml.Add(EnPassant(from, p.ep.value));
      }
    }
  }

  lemma PushesAreNotCaptures(occ: Bitboard, us: Color, quiet: Bitboard, from: Square)
    ensures forall to: Square | PushTarget(occ, us, quiet, from, to) :: to !in PawnAttacks(us, from)
  {
  }

  lemma NoDuplicatesAdd(ms: seq<Move>, m: Move)
    requires NoDuplicates(ms) && m !in ms
    ensures NoDuplicates(ms + [m])
  {
  }

  method GenPawnMoves(p: Position, ml: MoveList, targets: Bitboard, quiet: Bitboard, pinned: Bitboard, ksq: Square)
    requires p.Views() && NoPawnsOnEdges(p.board)
    requires NoDuplicates(ml.moves) && forall m | m in ml.moves :: !Has(p.board, m.from, Piece(p.side, Pawn))
    modifies ml
    ensures NoDuplicates(ml.moves)
    ensures forall m :: m in ml.moves <==>
      || m in old(ml.moves)
      || (Has(p.board, m.from, Piece(p.side, Pawn)) && PawnGoes(p, targets, quiet, pinned, ksq, m))
  {
    var bb := p.PiecesOf(p.side, Pawn);
    while bb != {}
      invariant bb <= p.PiecesOf(p.side, Pawn) && NoDuplicates(ml.moves)
      invariant forall m | m in ml.moves :: m.from !in bb
      invariant forall m :: m in ml.moves <==>
        || m in old(ml.moves)
        || (Has(p.board, m.from, Piece(p.side, Pawn)) && m.from !in bb && PawnGoes(p, targets, quiet, pinned, ksq, m))
      decreases bb
    {
      hide NoDuplicates, PawnGoes;
      var from := First(bb);
      bb := bb - {from};
      GenPawn(p, ml, targets, quiet, pinned, ksq, from);
    }
  }

  // ---- the whole generator

  /** The three masks mean what the exactness proof takes them to mean. */
  ghost predicate MasksMean(p: Pos, k: Square, caps: bool, targets: Bitboard, quiet: Bitboard, pinned: Bitboard) {
    && (forall s: Square :: s in targets <==> InTargets(p, k, caps, s))
    && (forall s: Square :: s in quiet <==> InQuietTargets(p, k, caps, s))
    && (forall s: Square :: s in pinned <==> Ours(p, s) && Blocks(p.board, p.side, k, s))
  }

  lemma PieceTargetsAreEmitted(p: Position, k: Square, caps: bool, targets: Bitboard, quiet: Bitboard, pinned: Bitboard,
      from: Square, to: Square)
    requires p.Views() && MasksMean(p.Model(), k, caps, targets, quiet, pinned) && IsPiece(p.board, p.side, from)
    ensures to in PieceTargets(p, targets, pinned, k, from) <==> EmitsPieceMove(p.Model(), k, caps, from, to)
  {
    hide InTargets, InQuietTargets, Blocks, OnLine, Attacks, AttacksFrom;
    p.OccupiedIsBoard();
    AttacksFromExactly(p.board[from], from, to, p.Occupied());
  }

  lemma PushIsEmitted(p: Pos, k: Square, caps: bool, quiet: Bitboard, from: Square, to: Square)
    requires to in quiet <==> InQuietTargets(p, k, caps, to)
    ensures PushTarget(p.board.Keys, p.side, quiet, from, to) <==> EmitsPush(p, k, caps, from, to)
  {
    hide InQuietTargets;
    if DF(from, to) == 0 && DR(from, to) == Forward(p.side) {
      forall u | u in p.board ensures !Between(from, u, to) { AdjacentNothingBetween(from, u, to); }
    } else if DF(from, to) == 0 && DR(from, to) == 2 * Forward(p.side) {
      forall u: Square ensures Between(from, u, to) <==> u == Before(p.side, to) {
        SquareIsItsCoordinates(u, Before(p.side, to));
      }
    }
  }

  lemma PawnTargetsAreEmitted(p: Position, k: Square, caps: bool, targets: Bitboard, quiet: Bitboard, pinned: Bitboard,
      from: Square, to: Square)
    requires p.Views() && MasksMean(p.Model(), k, caps, targets, quiet, pinned) &&
      Has(p.board, from, Piece(p.side, Pawn))
    ensures PawnTarget(p, targets, quiet, pinned, k, from, to) <==> EmitsPawnMove(p.Model(), k, caps, from, to)
  {
    hide InTargets, InQuietTargets, Blocks, OnLine, PushTarget, EmitsPush;
    p.OccupiedIsBoard();
    PushIsEmitted(p.Model(), k, caps, quiet, from, to);
    assert to in p.byColor[p.side.Opposite()] <==> Theirs(p.Model(), to);
  }

  lemma EnPassantIsEmitted(p: Position, k: Square, from: Square, to: Square)
    requires p.Views() && Has(p.board, from, Piece(p.side, Pawn)) && p.ep == Some(to) && PawnStep(p.side, from, to)
    ensures p.EnPassantLegal(from, to, p.side, k, p.Occupied()) <==> EmitsEnPassant(p.Model(), k, from, to)
  {
    hide EpLeavesKingSafe, Position.EnPassantLegal;
    p.EnPassantLegalExactly(from, to, p.side, k);
  }

  /** What the pawn loop appends is what the exactness proof calls emitted. */
  lemma PawnGoesIsEmitted(p: Position, k: Square, caps: bool, targets: Bitboard, quiet: Bitboard, pinned: Bitboard,
      m: Move)
    requires p.Views() && MasksMean(p.Model(), k, caps, targets, quiet, pinned) && !DoubleCheck(p.Model(), k)
    requires IsKing(p.board, p.side, k) && Has(p.board, m.from, Piece(p.side, Pawn))
    ensures PawnGoes(p, targets, quiet, pinned, k, m) <==> Emits(p.Model(), k, caps, m)
  {
    PawnTargetsAreEmitted(p, k, caps, targets, quiet, pinned, m.from, m.to);
    if m.EnPassant? && p.ep == Some(m.to) && PawnStep(p.side, m.from, m.to) {
      EnPassantIsEmitted(p, k, m.from, m.to);
    }
  }

  /** Every emitted move starts from the king, from a piece or from a pawn. */
  lemma EmittedByOrigin(p: Position, k: Square, caps: bool, targets: Bitboard, quiet: Bitboard, pinned: Bitboard,
      m: Move)
    requires p.Views() && MasksMean(p.Model(), k, caps, targets, quiet, pinned) && !DoubleCheck(p.Model(), k)
    requires IsKing(p.board, p.side, k)
    ensures Emits(p.Model(), k, caps, m) <==>
      || (m.Normal? && m.from == k && EmitsKingMove(p.Model(), k, caps, m.to))
      || (!caps && Checkers(p.board, p.side, k) == {} && IsEmittedCastling(p.Model(), k, m))
      || (Has(p.board, m.from, Piece(p.side, Pawn)) && PawnGoes(p, targets, quiet, pinned, k, m))
      || (m.Normal? && IsPiece(p.board, p.side, m.from) && m.to in PieceTargets(p, targets, pinned, k, m.from))
  {
    if Has(p.board, m.from, Piece(p.side, Pawn)) {
      PawnGoesIsEmitted(p, k, caps, targets, quiet, pinned, m);
    } else if IsPiece(p.board, p.side, m.from) {
      PieceTargetsAreEmitted(p, k, caps, targets, quiet, pinned, m.from, m.to);
    }
  }

  lemma MaskOfTargets(p: Position, k: Square, caps: bool, checkers: Bitboard, targets: Bitboard)
    requires p.Views() && checkers == Checkers(p.board, p.side, k) && !MoreThanOne(checkers)
    requires targets == if checkers != {} then BetweenBB(k, First(checkers)) + {First(checkers)}
                        else if caps then p.byColor[p.side.Opposite()] else FullBB() - p.byColor[p.side]
    ensures forall s: Square :: s in targets <==> InTargets(p.Model(), k, caps, s)
  {
    MoreThanOneExactly(checkers);
    forall s: Square ensures s in targets <==> InTargets(p.Model(), k, caps, s) {
      if checkers != {} {
        assert forall e | e in checkers :: e == First(checkers);
      }
    }
  }

  lemma MasksMeanThat(p: Position, k: Square, caps: bool, checkers: Bitboard, targets: Bitboard, quiet: Bitboard,
      pinned: Bitboard)
    requires p.Views() && checkers == Checkers(p.board, p.side, k) && !MoreThanOne(checkers)
    requires targets == if checkers != {} then BetweenBB(k, First(checkers)) + {First(checkers)}
                        else if caps then p.byColor[p.side.Opposite()] else FullBB() - p.byColor[p.side]
    requires quiet == if caps && checkers == {} then RankBB(0) + RankBB(7) else targets
    requires forall x: Square :: x in pinned <==> x in p.byColor[p.side] && Blocks(p.board, p.side, k, x)
    ensures MasksMean(p.Model(), k, caps, targets, quiet, pinned)
  {
    MaskOfTargets(p, k, caps, checkers, targets);
  }

  lemma ConsistentFacts(p: Position)
    requires p.Consistent()
    ensures p.Views() && White in p.byColor && Black in p.byColor
    ensures Valid(p.Model()) && NoPawnsOnEdges(p.board) && OneKing(p.board, p.side) && CastlingValid(p.Model())
  {
  }

  /** generate: the list ends up holding exactly the legal moves, each once; with captures only asked for
      and no check to answer, exactly the legal captures and promotions. */
  method Generate(p: Position, ml: MoveList, capturesOnly: bool)
    requires p.Consistent()
    modifies ml
    ensures NoDuplicates(ml.moves)
    ensures forall m :: m in ml.moves <==>
      Legal(p.Model(), m) && (capturesOnly && !InCheck(p.Model()) ==> Forcing(p.Model(), m))
  {
    hide ViewsOf, Sound, Valid, NoPawnsOnEdges, OneKing, CastlingValid, NoDuplicates, PieceTargets, PawnGoes;
    hide Attackers, Emits, Legal, InCheck, Forcing, DoubleCheck, SafeStep, KingStep, MasksMean, Blocks;
    hide EmitsKingMove, EmitsCastling, FullBB, MoreThanOne, Position.AttackersTo, Position.KeyAgrees;
    ghost var model := p.Model();
    ConsistentFacts(p);
    ghost var k := KingSquare(p.board, p.side);
    ml.moves := [];
    var us := p.side;
    var them := us.Opposite();
    var ksq := p.KingSquareOf(us);
    var occ := p.Occupied();
    p.OccupiedIsBoard();
    p.AttackersToExactly(ksq, occ, them);
    var checkers := p.AttackersTo(ksq, occ) * p.byColor[them];
    var only := capturesOnly && checkers == {};
    var kingTargets := if only then p.byColor[them] else FullBB() - p.byColor[us];
    assert NoDuplicates(ml.moves) by { NoDuplicatesNone(); }
    GenKingMoves(p, ml, ksq, them, kingTargets);
    KingPart(p, k, capturesOnly, kingTargets);
    FinishedAs(model, k, capturesOnly);
    DoubleCheckExactly(model, k, checkers);
    if MoreThanOne(checkers) {
      EmittedUnderDoubleCheck(model, k, capturesOnly);
      return;
    }
    var targets;
    if checkers != {} {
      targets := BetweenBB(ksq, First(checkers)) + {First(checkers)};
    } else if only {
      targets := p.byColor[them];
    } else {
      targets := FullBB() - p.byColor[us];
      GenCastling(p, ml);
    }
    var quiet := if only then RankBB(0) + RankBB(7) else targets;
    var blockers := BlockersForKing(p, us);
    var pinned := blockers * p.byColor[us];
    MasksMeanThat(p, k, capturesOnly, checkers, targets, quiet, pinned);
    GenPawnMoves(p, ml, targets, quiet, pinned, ksq);
    GenPieceMoves(p, ml, targets, pinned, ksq);
    forall m ensures m in ml.moves <==> Emits(model, k, capturesOnly, m) {
      EmittedByOrigin(p, k, capturesOnly, targets, quiet, pinned, m);
    }
  }

  function RankBB(r: int): Bitboard { set s: Square | Rank(s) == r }

  function FileBB(f: int): Bitboard { set s: Square | File(s) == f }

  lemma NoDuplicatesNone()
    ensures NoDuplicates([])
  {
  }

  lemma KingPart(p: Position, k: Square, caps: bool, kingTargets: Bitboard)
    requires p.Views() && OneKing(p.board, p.side) && IsKing(p.board, p.side, k)
    requires kingTargets == if CapturesOnly(p.Model(), k, caps) then p.byColor[p.side.Opposite()]
      else FullBB() - p.byColor[p.side]
    ensures forall to: Square ::
      to in kingTargets && KingStep(k, to) && SafeStep(p.board, p.side, k, to) <==>
        EmitsKingMove(p.Model(), k, caps, to)
  {
    hide SafeStep, KingStep, CapturesOnly;
  }

  lemma DoubleCheckExactly(p: Pos, k: Square, checkers: Bitboard)
    requires checkers == Checkers(p.board, p.side, k)
    ensures MoreThanOne(checkers) <==> DoubleCheck(p, k)
  {
    hide Attackers;
    MoreThanOneExactly(checkers);
  }

  lemma EmittedUnderDoubleCheck(p: Pos, k: Square, caps: bool)
    requires DoubleCheck(p, k)
    ensures forall m :: Emits(p, k, caps, m) <==> m.Normal? && m.from == k && EmitsKingMove(p, k, caps, m.to)
  {
    hide Attackers, EmitsKingMove, EmitsPieceMove, EmitsPawnMove, EmitsEnPassant;
    forall m ensures Emits(p, k, caps, m) <==> m.Normal? && m.from == k && EmitsKingMove(p, k, caps, m.to) {
    }
  }

  lemma FinishedOne(p: Pos, k: Square, caps: bool, m: Move)
    requires Valid(p) && IsKing(p.board, p.side, k)
    ensures Emits(p, k, caps, m) <==> Legal(p, m) && (caps && !InCheck(p) ==> Forcing(p, m))
  {
    hide Emits, Legal, Forcing, Attackers, RightAtHome, NoPawnsOnEdges, EpValid;
    EmitsExactlyLegalMoves(p, k, caps, m);
    assert OneKing(p.board, p.side);
    InCheckIffCheckers(p.board, p.side, k);
  }

  /** Exactness once more, for all moves at once and in the rules' own words. */
  lemma FinishedAs(p: Pos, k: Square, caps: bool)
    requires Valid(p) && IsKing(p.board, p.side, k)
    ensures forall m :: Emits(p, k, caps, m) <==> Legal(p, m) && (caps && !InCheck(p) ==> Forcing(p, m))
  {
    hide Valid, Emits, Legal, InCheck, Forcing;
    forall m ensures Emits(p, k, caps, m) <==> Legal(p, m) && (caps && !InCheck(p) ==> Forcing(p, m)) {
      FinishedOne(p, k, caps, m);
    }
  }

  method GenerateLegalMoves(p: Position, ml: MoveList)
    requires p.Consistent()
    modifies ml
    ensures NoDuplicates(ml.moves)
    ensures forall m :: m in ml.moves <==> Legal(p.Model(), m)
  {
    Generate(p, ml, false);
  }

  method GenerateCaptures(p: Position, ml: MoveList)
    requires p.Consistent()
    modifies ml
    ensures NoDuplicates(ml.moves)
    ensures forall m :: m in ml.moves <==> Legal(p.Model(), m) && (InCheck(p.Model()) || Forcing(p.Model(), m))
  {
    Generate(p, ml, true);
  }
}
