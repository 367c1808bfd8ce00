/** Dead positions (rules.go): two tests that claim no sequence of legal moves can ever give checkmate,
    and the proofs that the claim holds (FIDE Laws, article 5.2.2). */
module DeadPosition {
  import opened Squares
  import opened Geometry
  import opened Rules
  import opened MaskLegality
  import opened LegalMoves
  import opened Generator
  import opened Preservation

  // ---- insufficient material

  predicate Dark(s: Square) { (File(s) + Rank(s)) % 2 == 0 }

  function Minors(b: Board): Bitboard { MenOfKind(b, Knight) + MenOfKind(b, Bishop) }

  predicate OneComplex(bishops: Bitboard) {
    (forall s | s in bishops :: !Dark(s)) || (forall s | s in bishops :: Dark(s))
  }

  /** No pawn, rook or queen; and either at most one minor piece, or only bishops of one square colour. */
  predicate InsufficientMaterial(b: Board) {
    && (forall s | s in b :: b[s].kind.Knight? || b[s].kind.Bishop? || b[s].kind.King?)
    && (|Minors(b)| <= 1 || (MenOfKind(b, Knight) == {} && OneComplex(MenOfKind(b, Bishop))))
  }

  lemma BishopKeepsColor(a: Square, b: Square)
    requires OnBishopLine(a, b)
    ensures Dark(a) == Dark(b)
  {
  }

  lemma KnightChangesColor(a: Square, b: Square)
    requires KnightStep(a, b)
    ensures Dark(a) != Dark(b)
  {
  }

  lemma {:induction false} SubsetSize(a: Bitboard, b: Bitboard)
    requires a <= b
    ensures |a| <= |b|
  {
    if a != {} {
      var x :| x in a;
      SubsetSize(a - {x}, b - {x});
    }
  }

  lemma OnlyMember(s: Bitboard, x: Square, y: Square)
    requires |s| <= 1 && x in s && y in s
    ensures x == y
  {
    SubsetSize({x, y}, s);
  }

  /** A checking man's fellows attack only squares of the king's own colour. */
  lemma MinorsAttackOneColor(b: Board, k: Square, c: Square, e: Square, t: Square)
    requires InsufficientMaterial(b)
    requires c in b && !b[c].kind.King? && Attacks(b[c], c, k, b.Keys)
    requires e in b && !b[e].kind.King?
    requires Dark(t) != Dark(k) && KingStep(k, t)
    ensures !Attacks(b[e], e, t, b.Keys - {k}) && e != t
  {
    if b[e].kind.Knight? {
      assert e in MenOfKind(b, Knight);
      assert c in Minors(b) && e in Minors(b);
      OnlyMember(Minors(b), c, e);
      KnightChangesColor(c, k);
      if KnightStep(e, t) { KnightChangesColor(e, t); }
    } else {
      assert e in MenOfKind(b, Bishop) && e in Minors(b) && c in Minors(b);
      if b[c].kind.Bishop? {
        assert c in MenOfKind(b, Bishop);
        BishopKeepsColor(c, k);
      } else {
        assert c in MenOfKind(b, Knight);
      }
      if |Minors(b)| <= 1 { OnlyMember(Minors(b), c, e); }
      if OnBishopLine(e, t) { BishopKeepsColor(e, t); }
    }
  }

  lemma StepUpOrDown(k: Square) returns (t: Square)
    ensures DF(k, t) == 0 && Abs(DR(k, t)) == 1 && Dark(t) != Dark(k)
  {
    hide Dark;
    t := MakeSquare(File(k), if Rank(k) < 7 then Rank(k) + 1 else Rank(k) - 1);
    OneStepChangesColor(k, t);
  }

  lemma StepSideways(k: Square) returns (t: Square)
    ensures Abs(DF(k, t)) == 1 && DR(k, t) == 0 && Dark(t) != Dark(k)
  {
    hide Dark;
    t := MakeSquare(if File(k) < 7 then File(k) + 1 else File(k) - 1, Rank(k));
    OneStepChangesColor(k, t);
  }

  lemma OneStepChangesColor(k: Square, t: Square)
    requires Abs(DF(k, t)) + Abs(DR(k, t)) == 1
    ensures Dark(t) != Dark(k)
  {
    hide File, Rank;
    assert File(t) + Rank(t) == File(k) + Rank(k) + 1 || File(t) + Rank(t) == File(k) + Rank(k) - 1;
  }

  /** Some square beside the king, of the other colour, is out of the enemy king's reach. */
  lemma SidestepExists(k: Square, other: Square) returns (t: Square)
    requires Dist(k, other) >= 2
    ensures KingStep(k, t) && Dark(t) != Dark(k) && !KingStep(other, t) && t != other
  {
    hide Dark, File, Rank;
    if Abs(DF(k, other)) >= 2 {
      t := StepUpOrDown(k);
    } else {
      t := StepSideways(k);
    }
  }

  /** With insufficient material a king in check always has a square to go to. */
  lemma CheckedKingSidesteps(p: Pos, k: Square, other: Square, c: Square) returns (m: Move)
    requires OneKing(p.board, p.side) && IsKing(p.board, p.side, k)
    requires IsKing(p.board, p.side.Opposite(), other) && forall j | IsKing(p.board, p.side.Opposite(), j) :: j == other
    requires !KingStep(other, k) && InsufficientMaterial(p.board)
    requires c in Checkers(p.board, p.side, k)
    ensures Legal(p, m)
  {
    hide KingSafe, Legal;
    assert p.board[c].kind.King? ==> IsKing(p.board, p.side.Opposite(), c);
    assert k != other;
    SquareIsItsCoordinates(k, other);
    StepsSymmetric(k, other);
    var t := SidestepExists(k, other);
    SidestepIsLegal(p, k, other, c, t);
    m := Normal(k, t);
  }

  lemma InsufficientIsNotMate(p: Pos)
    requires Valid(p) && InsufficientMaterial(p.board)
    ensures !Checkmate(p)
  {
    hide InsufficientMaterial, KingSafe, Legal, KingStep, Attackers;
    var us, them := p.side, p.side.Opposite();
    var k, other := KingSquare(p.board, us), KingSquare(p.board, them);
    InCheckIffCheckers(p.board, us, k);
    KingsAreApart(p);
    StepsSymmetric(k, other);
    if c :| c in Checkers(p.board, us, k) {
      var m := CheckedKingSidesteps(p, k, other, c);
    }
  }

  lemma SidestepIsLegal(p: Pos, k: Square, other: Square, c: Square, t: Square)
    requires OneKing(p.board, p.side) && IsKing(p.board, p.side, k)
    requires InsufficientMaterial(p.board)
    requires forall j | IsKing(p.board, p.side.Opposite(), j) :: j == other
    requires c in p.board && p.board[c].color != p.side && !p.board[c].kind.King? &&
      Attacks(p.board[c], c, k, p.board.Keys)
    requires KingStep(k, t) && Dark(t) != Dark(k) && !KingStep(other, t) && t != other
    ensures Legal(p, Normal(k, t))
  {
    hide Dark, KingStep, KnightStep, OnBishopLine, OnRookLine, Clear, InsufficientMaterial;
    var b, them := p.board, p.side.Opposite();
    OnlyKing(b, p.side, k);
    forall e | e in b && !IsKing(b, p.side, e) && !IsKing(b, them, e)
      ensures e != t && !Attacks(b[e], e, t, b.Keys - {k})
    {
      MinorsAttackOneColor(b, k, c, e, t);
    }
    assert k != t by { assert Dark(t) != Dark(k); }
    forall e | e in b && b[e].color == them ensures !Attacks(b[e], e, t, b.Keys - {k}) {
      if b[e].kind.King? { assert IsKing(b, them, e); }
    }
    forall e | e in b ensures e != t {
      assert b[e].kind.King? ==> IsKing(b, p.side, e) || IsKing(b, them, e);
    }
    KingStepIsMakeAndTest(b, p.side, k, t);
  }

  /** Material of this kind stays insufficient: no move adds a man, and bishops keep their colour. */
  lemma InsufficientIsClosed(p: Pos, m: Move)
    requires InsufficientMaterial(p.board) && PseudoLegal(p, m)
    ensures InsufficientMaterial(BoardAfter(p.board, p.side, m))
  {
    hide PseudoLegal, OneComplex, Minors, MenOfKind, BoardAfter;
    var b := p.board;
    OnlyNormalMoves(p, m);
    NoHeavierMan(b, p.side, m);
    if |Minors(b)| <= 1 {
      MinorsDoNotGrow(b, p.side, m);
    } else {
      NoNewKnight(b, p.side, m);
      BishopsKeepComplex(b, p.side, m);
    }
  }

  /** Without pawns and rooks there is neither promotion, en passant nor castling. */
  lemma OnlyNormalMoves(p: Pos, m: Move)
    requires InsufficientMaterial(p.board) && PseudoLegal(p, m)
    ensures m.Normal? && m.from in p.board && (p.board[m.from].kind.Bishop? ==> OnBishopLine(m.from, m.to))
  {
    hide PawnReaches, OnKingPath, Attacked, Clear, OnBishopLine, OnRookLine, OneComplex, Minors;
  }

  lemma NoHeavierMan(b: Board, us: Color, m: Move)
    requires m.Normal? && m.from in b
    requires forall s | s in b :: b[s].kind.Knight? || b[s].kind.Bishop? || b[s].kind.King?
    ensures var after := BoardAfter(b, us, m);
      forall s | s in after :: after[s].kind.Knight? || after[s].kind.Bishop? || after[s].kind.King?
  {
  }

  lemma NoNewKnight(b: Board, us: Color, m: Move)
    requires m.Normal? && m.from in b && MenOfKind(b, Knight) == {}
    ensures MenOfKind(BoardAfter(b, us, m), Knight) == {}
  {
    assert m.from !in MenOfKind(b, Knight);
    forall s | s in BoardAfter(b, us, m) && s != m.to ensures !b[s].kind.Knight? {
      assert s !in MenOfKind(b, Knight);
    }
  }

  lemma BishopsKeepComplex(b: Board, us: Color, m: Move)
    requires m.Normal? && m.from in b && (b[m.from].kind.Bishop? ==> OnBishopLine(m.from, m.to))
    requires OneComplex(MenOfKind(b, Bishop))
    ensures OneComplex(MenOfKind(BoardAfter(b, us, m), Bishop))
  {
    hide Dark, OnBishopLine;
    forall s | s in MenOfKind(BoardAfter(b, us, m), Bishop)
      ensures exists t :: t in MenOfKind(b, Bishop) && Dark(t) == Dark(s)
    {
      if s == m.to {
        BishopKeepsColor(m.from, m.to);
        assert m.from in MenOfKind(b, Bishop);
      } else {
        assert s in MenOfKind(b, Bishop);
      }
    }
  }

  lemma MinorsDoNotGrow(b: Board, us: Color, m: Move)
    requires m.Normal? && m.from in b
    ensures |Minors(BoardAfter(b, us, m))| <= |Minors(b)|
  {
    var after := Minors(BoardAfter(b, us, m));
    if m.from in Minors(b) {
      SubsetSize(after - {m.to}, Minors(b) - {m.from});
    } else {
      SubsetSize(after, Minors(b));
    }
  }

  /** Insufficient material is a dead position: along no line of legal moves is anyone ever mated. */
  lemma {:induction false} InsufficientIsDead(p: Pos, ms: seq<Move>)
    requires Valid(p) && InsufficientMaterial(p.board) && LegalLine(p, ms)
    ensures !Checkmate(Play(p, ms)) && InsufficientMaterial(Play(p, ms).board)
    decreases |ms|
  {
    if ms == [] {
      InsufficientIsNotMate(p);
    } else {
      LegalMoveKeepsValid(p, ms[0]);
      InsufficientIsClosed(p, ms[0]);
      InsufficientIsDead(Apply(p, ms[0]), ms[1..]);
    }
  }

  // ---- locked pawn structures

  function Pawns(b: Board, c: Color): Bitboard { set s | s in b && b[s] == Piece(c, Pawn) }

  predicate PawnAttacked(pawns: Bitboard, c: Color, s: Square) {
    exists d | d in pawns :: PawnStep(c, d, s)
  }

  /** Every square attacked by the pawns of one colour. */
  function PawnSpan(b: Board, c: Color): Bitboard { set s: Square | PawnAttacked(Pawns(b, c), c, s) }

  /** Walking king-wise from inside C never leaves C except onto a wall. */
  predicate ClosedWalk(C: Bitboard, walls: Bitboard) {
    forall s, t: Square | s in C && KingStep(s, t) && t !in walls :: t in C
  }

  /** s lies in every closed set around from. */
  ghost predicate MustInclude(from: Square, walls: Bitboard, s: Square) {
    forall C: Bitboard | from in C && ClosedWalk(C, walls) :: s in C
  }

  /** The squares a lone king can walk to: the least closed set around its square. */
  ghost function Walkable(from: Square, walls: Bitboard): Bitboard {
    set s: Square | MustInclude(from, walls, s)
  }

  lemma WalkableIsClosed(from: Square, walls: Bitboard)
    ensures from in Walkable(from, walls) && ClosedWalk(Walkable(from, walls), walls)
  {
    forall s, t: Square | s in Walkable(from, walls) && KingStep(s, t) && t !in walls
      ensures MustInclude(from, walls, t)
    {
      assert MustInclude(from, walls, s);
    }
  }

  lemma WalkableIsLeast(from: Square, walls: Bitboard, C: Bitboard)
    requires from in C && ClosedWalk(C, walls)
    ensures Walkable(from, walls) <= C
  {
  }

  lemma WalkableAvoidsWalls(from: Square, walls: Bitboard)
    requires from !in walls
    ensures Walkable(from, walls) !! walls
  {
    var C := set s: Square | s !in walls;
    WalkableIsLeast(from, walls, C);
  }

  /** The walls around the king of colour c: all pawns, and every square the enemy pawns attack. */
  function Walls(b: Board, c: Color): Bitboard {
    Pawns(b, White) + Pawns(b, Black) + PawnSpan(b, c.Opposite())
  }

  /** Where a king of colour c standing on k can ever walk. */
  ghost function Range(b: Board, c: Color, k: Square): Bitboard { Walkable(k, Walls(b, c)) }

  predicate OnlyKingsAndPawns(b: Board) {
    forall s | s in b :: b[s].kind.Pawn? || b[s].kind.King?
  }

  predicate StraightAhead(c: Color, s: Square, t: Square) { DF(s, t) == 0 && DR(s, t) == Forward(c) }

  /** The pawn on s has another pawn straight ahead and no enemy pawn to take. */
  predicate PawnLocked(b: Board, c: Color, s: Square) {
    && (exists t | t in Pawns(b, White) + Pawns(b, Black) :: StraightAhead(c, s, t))
    && PawnAttacks(c, s) * Pawns(b, c.Opposite()) == {}
  }

  predicate AllLocked(b: Board) {
    forall c: Color, s | s in Pawns(b, c) :: PawnLocked(b, c, s)
  }

  /** No pawn the king of c might take: every enemy pawn is defended by a pawn, or out of walking range. */
  ghost predicate PawnsOutOfRange(b: Board, c: Color, k: Square) {
    forall s, t: Square | s in Pawns(b, c.Opposite()) - PawnSpan(b, c.Opposite()) && KingStep(s, t) ::
      t !in Range(b, c, k)
  }

  ghost predicate KingConfined(b: Board, c: Color) {
    forall k | IsKing(b, c, k) :: k !in PawnSpan(b, c.Opposite()) && PawnsOutOfRange(b, c, k)
  }

  /** IsBlockedDeadPosition, condition by condition. */
  ghost predicate BlockedDead(p: Pos) {
    && OnlyKingsAndPawns(p.board)
    && Pawns(p.board, White) + Pawns(p.board, Black) != {}
    && p.ep.None?
    && AllLocked(p.board)
    && (forall c: Color :: KingConfined(p.board, c))
  }

  /** The pawn structure of b' is still that of b, and each king is where it could walk to from its square in b. */
  ghost predicate StillLocked(b: Board, b': Board) {
    && OnlyKingsAndPawns(b')
    && Pawns(b', White) == Pawns(b, White) && Pawns(b', Black) == Pawns(b, Black)
    && (forall c: Color, k0, k | IsKing(b, c, k0) && IsKing(b', c, k) :: k in Range(b, c, k0))
    && (forall c: Color :: OneKing(b, c))
  }

  /** A king inside its range is not attacked by a pawn. */
  lemma RangeIsSafe(b: Board, c: Color, k0: Square, k: Square)
    requires KingConfined(b, c) && IsKing(b, c, k0) && k in Range(b, c, k0)
    ensures k !in PawnSpan(b, c.Opposite())
  {
    WalkableAvoidsWalls(k0, Walls(b, c));
  }

  /** With kings and pawns only, a king out of the pawns' span and away from the other king is not in check. */
  lemma LockedKingIsSafe(b: Board, b': Board, c: Color)
    requires (forall c: Color :: KingConfined(b, c)) && StillLocked(b, b') && KingsApart(b')
    ensures KingSafe(b', c)
  {
    var them := c.Opposite();
    forall k | IsKing(b', c, k) ensures Attackers(b', k, them, b'.Keys) == {} {
      var k0 := KingSquare(b, c);
      RangeIsSafe(b, c, k0, k);
      forall e | e in b' && b'[e].color == them ensures !Attacks(b'[e], e, k, b'.Keys) {
        if b'[e].kind.Pawn? {
          assert e in Pawns(b', them);
          assert k in PawnAttacks(them, e) <==> PawnStep(them, e, k);
        } else {
          assert IsKing(b', them, e);
          StepsSymmetric(e, k);
        }
      }
    }
  }

  lemma CannotTakeKing(b: Board, us: Color, from: Square, to: Square)
    requires KingSafe(b, us.Opposite()) && from in b && b[from].color == us && Attacks(b[from], from, to, b.Keys)
    ensures !IsKing(b, us.Opposite(), to)
  {
    assert from in Attackers(b, to, us, b.Keys);
  }

  lemma SamePawnsLocked(b0: Board, b: Board, c: Color, s: Square)
    requires AllLocked(b0) && Pawns(b, White) == Pawns(b0, White) && Pawns(b, Black) == Pawns(b0, Black)
    requires s in Pawns(b, c)
    ensures PawnLocked(b, c, s)
  {
    hide Pawns, PawnAttacks, StraightAhead;
    assert Pawns(b, c) == Pawns(b0, c) && Pawns(b, c.Opposite()) == Pawns(b0, c.Opposite());
    assert PawnLocked(b0, c, s);
  }

  /** No pawn of a locked structure has a move. */
  lemma LockedPawnsCannotMove(b0: Board, q: Pos, m: Move)
    requires AllLocked(b0) && StillLocked(b0, q.board) && q.ep.None?
    requires KingSafe(q.board, q.side.Opposite())
    requires m.from in Pawns(q.board, q.side)
    ensures !PseudoLegal(q, m)
  {
    hide KingSafe, KingConfined, Range, PawnReaches, PawnLocked, AllLocked;
    SamePawnsLocked(b0, q.board, q.side, m.from);
    LockedPawnIsStuck(q.board, q.side, m.from, m.to);
  }

  lemma PushIsBlocked(us: Color, from: Square, t: Square, to: Square, occ: Bitboard)
    requires StraightAhead(us, from, t) && t in occ && to !in occ
    requires DF(from, to) == 0 && (DR(from, to) == Forward(us) || DR(from, to) == 2 * Forward(us))
    ensures !Clear(from, to, occ)
  {
    SquareIsItsCoordinates(t, to);
    assert Between(from, t, to);
  }

  lemma LockedPawnIsStuck(b: Board, us: Color, from: Square, to: Square)
    requires OnlyKingsAndPawns(b) && from in Pawns(b, us) && PawnLocked(b, us, from) && KingSafe(b, us.Opposite())
    ensures !PawnReaches(b, us, from, to)
  {
    hide KingSafe, StraightAhead, PawnStep, Clear, DF, DR, Rank;
    var t :| t in Pawns(b, White) + Pawns(b, Black) && StraightAhead(us, from, t);
    if PawnStep(us, from, to) {
      assert to in PawnAttacks(us, from) && to !in PawnAttacks(us, from) * Pawns(b, us.Opposite());
      CannotTakeKing(b, us, from, to);
    }
    if to !in b && DF(from, to) == 0 && (DR(from, to) == Forward(us) || DR(from, to) == 2 * Forward(us)) {
      PushIsBlocked(us, from, t, to, b.Keys);
    }
  }

  /** A legal king step in a locked position takes nothing and stays inside the king's range. */
  lemma LockedKingStep(p: Pos, q: Pos, k0: Square, m: Move)
    requires BlockedDead(p) && StillLocked(p.board, q.board)
    requires OneKing(q.board, q.side) && KingSafe(q.board, q.side.Opposite())
    requires IsKing(p.board, q.side, k0) && IsKing(q.board, q.side, m.from) && m.Normal? && Legal(q, m)
    ensures m.to !in q.board && m.to in Range(p.board, q.side, k0)
  {
    var b, us, them := q.board, q.side, q.side.Opposite();
    var after := BoardAfter(b, us, m);
    OnlyKing(b, us, m.from);
    forall j | IsKing(after, us, j) ensures j == m.to { if j != m.to { assert IsKing(b, us, j); } }
    assert IsKing(after, us, m.to);
    forall d | d in Pawns(b, them) && d != m.to ensures m.to !in PawnAttacks(them, d) {
      assert d in after && after[d] == b[d];
      assert d !in Attackers(after, m.to, them, after.Keys);
    }
    assert m.to !in PawnAttacks(them, m.to);
    assert m.to !in PawnSpan(b, them) && PawnSpan(b, them) == PawnSpan(p.board, them);
    assert m.from in Range(p.board, us, k0) && KingConfined(p.board, us);
    StepsSymmetric(m.from, m.to);
    CannotTakeKing(b, us, m.from, m.to);
    WalkableIsClosed(k0, Walls(p.board, us));
  }

  /** Only kings move, and they do not castle. */
  lemma OnlyKingsMove(b0: Board, q: Pos, m: Move)
    requires AllLocked(b0) && StillLocked(b0, q.board) && q.ep.None?
    requires KingSafe(q.board, q.side.Opposite()) && PseudoLegal(q, m)
    ensures m.Normal? && IsKing(q.board, q.side, m.from)
  {
    hide KingSafe, Range, PawnReaches, AllLocked, Attacked;
    if m.from in Pawns(q.board, q.side) { LockedPawnsCannotMove(b0, q, m); }
  }

  /** One legal move from a still locked position leaves it locked. */
  lemma LockedStep(p: Pos, q: Pos, m: Move)
    requires BlockedDead(p) && StillLocked(p.board, q.board) && q.ep.None?
    requires Valid(q) && Legal(q, m)
    ensures StillLocked(p.board, BoardAfter(q.board, q.side, m)) && m.Normal? && IsKing(q.board, q.side, m.from)
  {
    hide StillLocked, KingSafe, AllLocked, KingConfined, CastlingValid, PseudoLegal, OneKing;
    OnlyKingsMove(p.board, q, m);
    var k0 := OriginalKing(p.board, q.board, q.side);
    LockedKingStep(p, q, k0, m);
    LockedAfterKingStep(p.board, q.board, q.side, k0, m);
  }

  lemma OriginalKing(b0: Board, b: Board, c: Color) returns (k0: Square)
    requires StillLocked(b0, b)
    ensures IsKing(b0, c, k0)
  {
    assert OneKing(b0, c);
    k0 := KingSquare(b0, c);
  }

  lemma LockedAfterKingStep(b0: Board, b: Board, us: Color, k0: Square, m: Move)
    requires StillLocked(b0, b) && OneKing(b, us) && IsKing(b, us, m.from) && m.Normal? && m.to !in b
    requires IsKing(b0, us, k0) && m.to in Range(b0, us, k0)
    ensures StillLocked(b0, BoardAfter(b, us, m))
  {
    hide Walkable, PawnSpan;
    var after := BoardAfter(b, us, m);
    OnlyKing(b, us, m.from);
    OnlyKing(b0, us, k0);
    forall c: Color, j, k | IsKing(b0, c, j) && IsKing(after, c, k) ensures k in Range(b0, c, j) {
      if k != m.to { assert IsKing(b, c, k); }
    }
  }

  /** A locked position is dead: along every line of legal moves the pawns stay as they are, no king is
      ever in check, and nobody is mated. */
  lemma {:induction false} LockedLine(p: Pos, q: Pos, ms: seq<Move>)
    requires BlockedDead(p) && StillLocked(p.board, q.board) && q.ep.None? && Valid(q) && LegalLine(q, ms)
    ensures StillLocked(p.board, Play(q, ms).board) && Valid(Play(q, ms))
    decreases |ms|
  {
    if ms != [] {
      LockedStep(p, q, ms[0]);
      assert !IsDoublePush(q.board, ms[0]);
      LegalMoveKeepsValid(q, ms[0]);
      LockedLine(p, Apply(q, ms[0]), ms[1..]);
    }
  }

  lemma LockedAtFirst(p: Pos)
    requires BlockedDead(p) && OneKing(p.board, White) && OneKing(p.board, Black)
    ensures StillLocked(p.board, p.board)
  {
    hide Walkable, PawnSpan, PawnLocked, KingConfined, OneKing, AllLocked;
    forall c: Color ensures OneKing(p.board, c) { assert c.White? || c.Black?; }
    forall c: Color, j, k | IsKing(p.board, c, j) && IsKing(p.board, c, k) ensures k in Range(p.board, c, j) {
      OnlyKing(p.board, c, j);
      WalkableIsClosed(j, Walls(p.board, c));
    }
  }

  lemma BlockedIsDead(p: Pos, ms: seq<Move>)
    requires Valid(p) && BlockedDead(p) && LegalLine(p, ms)
    ensures var q := Play(p, ms);
      && KingSafe(q.board, White) && KingSafe(q.board, Black) && !Checkmate(q)
      && Pawns(q.board, White) == Pawns(p.board, White) && Pawns(q.board, Black) == Pawns(p.board, Black)
  {
    LockedAtFirst(p);
    LockedLine(p, p, ms);
    var q := Play(p, ms);
    KingsAreApart(q);
    LockedKingIsSafe(p.board, q.board, White);
    LockedKingIsSafe(p.board, q.board, Black);
  }

  /** Some line of legal moves ends in checkmate. */
  ghost predicate MateReachable(p: Pos) {
    exists ms :: LegalLine(p, ms) && Checkmate(Play(p, ms))
  }

  /** IsDeadPosition never lies: where either test fires, no line of legal moves ends in checkmate. */
  lemma DeadPositionsAreDead(p: Pos)
    requires Valid(p) && (InsufficientMaterial(p.board) || BlockedDead(p))
    ensures !MateReachable(p)
  {
    hide Valid, InsufficientMaterial, BlockedDead, Checkmate, LegalLine;
    forall ms | LegalLine(p, ms) ensures !Checkmate(Play(p, ms)) {
      if InsufficientMaterial(p.board) {
        InsufficientIsDead(p, ms);
      } else {
        BlockedIsDead(p, ms);
      }
    }
  }
}
