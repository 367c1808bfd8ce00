/** The termination tests as they run (rules.go), and the verdict on a game. */
module GameRules {
  import opened Squares
  import opened Rules
  import opened LegalMoves
  import opened PositionState
  import opened MoveGen
  import opened DeadPosition
  import opened Repetition
  import opened Zobrist

  lemma ScanFindsRepetitions(p: Position)
    requires p.Consistent()
    ensures p.halfmove >= 0 && |p.history| == |p.past|
    ensures NullFree(p.past) && CollisionFree(p.z, p.past, p.Model()) ==>
      Scan(p.history, p.key, |p.history| - 2, ScanEnd(p.history, p.halfmove)) == Occurrences(p.past, p.Model(), 0)
  {
    hide Sound, ViewsOf, KeyOf, NullFree, CollisionFree;
    SoundFacts(p.z, p.history, p.past, p.Model());
    if NullFree(p.past) && CollisionFree(p.z, p.past, p.Model()) {
      WindowIsWholeGame(p.z, p.history, p.past, p.Model());
    }
  }

  /** RepetitionCount steps back two plies at a time to the last irreversible move, and counts every
      earlier occurrence of the position in the game. */
  method RepetitionCount(p: Position) returns (count: nat)
    requires p.Consistent()
    ensures count == Scan(p.history, p.key, |p.history| - 2, ScanEnd(p.history, p.halfmove))
    ensures NullFree(p.past) && CollisionFree(p.z, p.past, p.Model()) ==> count == Occurrences(p.past, p.Model(), 0)
  {
    hide Sound, ViewsOf, KeyOf, NullFree, CollisionFree, Occurrences, Position.KeyAgrees;
    ScanFindsRepetitions(p);
    var end := |p.history| - p.halfmove;
    if end < 0 {
      end := 0;
    }
    count := 0;
    var i := |p.history| - 2;
    while i >= end
      invariant i < |p.history|
      invariant Scan(p.history, p.key, |p.history| - 2, end) == count + Scan(p.history, p.key, i, end)
    {
      if p.history[i].key == p.key {
        count := count + 1;
      }
      i := i - 2;
    }
  }

  function DarkSquares(): Bitboard { set s: Square | Dark(s) }

  /** IsInsufficientMaterial on the piece-type bitboards. */
  method IsInsufficientMaterial(p: Position) returns (insufficient: bool)
    requires p.Views()
    ensures insufficient <==> InsufficientMaterial(p.board)
  {
    hide ViewsOf, MenOfKind, OneComplex, DarkSquares;
    KindsAreViews(p);
    LightMenOnly(p.board);
    if p.byType[Pawn] + p.byType[Rook] + p.byType[Queen] != {} {
      return false;
    }
    var knights, bishops := p.byType[Knight], p.byType[Bishop];
    ComplexExactly(bishops);
    if |knights + bishops| <= 1 { return true; }
    if knights != {} { return false; }
    return bishops * DarkSquares() == {} || bishops - DarkSquares() == {};
  }

  lemma KindsAreViews(p: Position)
    requires p.Views()
    ensures forall k: Kind :: k in p.byType && p.byType[k] == MenOfKind(p.board, k)
  {
  }

  lemma LightMenOnly(b: Board)
    ensures MenOfKind(b, Pawn) + MenOfKind(b, Rook) + MenOfKind(b, Queen) == {} <==>
      forall s | s in b :: b[s].kind.Knight? || b[s].kind.Bishop? || b[s].kind.King?
  {
    if MenOfKind(b, Pawn) + MenOfKind(b, Rook) + MenOfKind(b, Queen) == {} {
      forall s | s in b ensures b[s].kind.Knight? || b[s].kind.Bishop? || b[s].kind.King? {
        assert s !in MenOfKind(b, Pawn) + MenOfKind(b, Rook) + MenOfKind(b, Queen);
      }
    }
  }

  lemma ComplexExactly(bishops: Bitboard)
    ensures OneComplex(bishops) <==> bishops * DarkSquares() == {} || bishops - DarkSquares() == {}
  {
    hide Dark;
    forall s | s in bishops ensures Dark(s) <==> s in bishops * DarkSquares() {
    }
    forall s | s in bishops ensures !Dark(s) <==> s in bishops - DarkSquares() {
    }
  }

  /** kingReachableSquares floods outward until nothing grows: exactly the squares the king can walk to. */
  method KingReachableSquares(from: Square, walls: Bitboard) returns (reach: Bitboard)
    requires from !in walls
    ensures reach == Walkable(from, walls)
  {
    reach := {from};
    while true
      invariant from in reach && reach !! walls && reach <= Walkable(from, walls)
      decreases Walkable(from, walls) - reach
    {
      var grown := reach;
      var bb := reach;
      while bb != {}
        invariant bb <= reach && reach <= grown
        invariant grown - walls <= Walkable(from, walls)
        invariant forall s, t: Square | s in reach - bb && KingStep(s, t) :: t in grown
        decreases bb
      {
        var s := First(bb);
        bb := bb - {s};
        WalkableIsClosed(from, walls);
        grown := grown + KingAttacks(s);
      }
      grown := grown - walls;
      if grown == reach {
        assert ClosedWalk(reach, walls);
        WalkableIsLeast(from, walls, reach);
        return;
      }
      reach := grown;
    }
  }

  // ---- locked structures

  /** pawnAttackSpan shifts the whole pawn bitboard one step along each capturing diagonal. */
  function PawnAttackSpan(pawns: Bitboard, c: Color): Bitboard {
    Shifted(pawns, 1, Forward(c)) + Shifted(pawns, -1, Forward(c))
  }

  /** Every square of the set moved by (df, dr), squares that leave the board dropped. */
  function Shifted(b: Bitboard, df: int, dr: int): Bitboard {
    set s: Square | OnBoard(File(s) - df, Rank(s) - dr) && MakeSquare(File(s) - df, Rank(s) - dr) in b
  }

  /** Shifted as the word does it: the outer file masked off, then every index moved by the same amount. */
  predicate ShiftedIn(b: Bitboard, df: int, dr: int, s: Square) {
    var from := s - (df + 8 * dr);
    0 <= from < 64 && from in b && File(from) != if df > 0 then 7 else 0
  }

  /** Masking first is what keeps squares from wrapping around the edge. */
  lemma ShiftNeverWraps(b: Bitboard, df: int, dr: int, s: Square)
    requires Abs(df) == 1 && Abs(dr) == 1
    ensures ShiftedIn(b, df, dr, s) <==> s in Shifted(b, df, dr)
  {
    var from := s - (df + 8 * dr);
    var file, rank := File(s) - df, Rank(s) - dr;
    assert from == 8 * rank + file;
  }

  /** A pawn that attacks s stands on one of two squares. */
  lemma PawnSources(c: Color, d: Square, s: Square)
    ensures PawnStep(c, d, s) <==>
      (OnBoard(File(s) - 1, Rank(s) - Forward(c)) && d == MakeSquare(File(s) - 1, Rank(s) - Forward(c))) ||
      (OnBoard(File(s) + 1, Rank(s) - Forward(c)) && d == MakeSquare(File(s) + 1, Rank(s) - Forward(c)))
  {
    if PawnStep(c, d, s) {
      assert d == MakeSquare(File(d), Rank(d));
    }
  }

  lemma SpanExactly(b: Board, c: Color)
    ensures PawnAttackSpan(Pawns(b, c), c) == PawnSpan(b, c)
  {
    hide Pawns, PawnStep, File, Rank, MakeSquare;
    forall s: Square ensures s in PawnAttackSpan(Pawns(b, c), c) <==> s in PawnSpan(b, c) {
      forall d: Square ensures PawnStep(c, d, s) <==>
        (OnBoard(File(s) - 1, Rank(s) - Forward(c)) && d == MakeSquare(File(s) - 1, Rank(s) - Forward(c))) ||
        (OnBoard(File(s) + 1, Rank(s) - Forward(c)) && d == MakeSquare(File(s) + 1, Rank(s) - Forward(c)))
      {
        PawnSources(c, d, s);
      }
    }
  }

  lemma PawnBitboards(p: Position)
    requires p.Views()
    ensures p.byType[Pawn] == Pawns(p.board, White) + Pawns(p.board, Black)
    ensures forall c: Color :: p.PiecesOf(c, Pawn) == Pawns(p.board, c)
  {
    forall s ensures s in p.byType[Pawn] <==> s in Pawns(p.board, White) + Pawns(p.board, Black) {
      assert s in p.board ==> p.board[s].color.White? || p.board[s].color.Black?;
    }
  }

  /** Condition 2 for one colour: every pawn has a pawn ahead and nothing to capture. */
  method PawnsAreLocked(p: Position, c: Color) returns (locked: bool)
    requires p.Views() && NoPawnsOnEdges(p.board)
    ensures locked <==> forall s | s in Pawns(p.board, c) :: PawnLocked(p.board, c, s)
  {
    var theirPawns := p.PiecesOf(c.Opposite(), Pawn);
    var bb := p.PiecesOf(c, Pawn);
    PawnBitboards(p);
    while bb != {}
      invariant bb <= Pawns(p.board, c)
      invariant forall s | s in Pawns(p.board, c) - bb :: PawnLocked(p.board, c, s)
      decreases bb
    {
      var s := First(bb);
      bb := bb - {s};
      AheadExactly(p.board, c, s);
      var ahead: Square := s + 8 * Forward(c);
      assert StraightAhead(c, s, ahead);
      if ahead !in p.byType[Pawn] {
        return false;
      }
      if PawnAttacks(c, s) * theirPawns != {} {
        return false;
      }
      assert PawnLocked(p.board, c, s);
    }
    return true;
  }

  lemma AheadExactly(b: Board, c: Color, s: Square)
    requires s in Pawns(b, c) && NoPawnsOnEdges(b)
    ensures 0 <= s + 8 * Forward(c) < 64
    ensures forall t: Square :: StraightAhead(c, s, t) <==> t == s + 8 * Forward(c)
  {
  }

  lemma ViewsTotal(p: Position)
    requires p.Views()
    ensures (forall k: Kind :: k in p.byType) && (forall c: Color :: c in p.byColor)
  {
  }

  lemma KingIsNoPawn(p: Position, c: Color, k: Square)
    requires p.Views() && IsKing(p.board, c, k)
    ensures k !in p.byType[Pawn]
  {
  }

  lemma OnlyKingAnywhere(b: Board, c: Color)
    requires OneKing(b, c)
    ensures forall j, k | IsKing(b, c, j) && IsKing(b, c, k) :: j == k
  {
  }

  /** Condition 3 for one king. */
  method KingIsConfined(p: Position, c: Color) returns (confined: bool)
    requires p.Views() && OneKing(p.board, c)
    ensures confined <==> KingConfined(p.board, c)
  {
    hide Pawns, Walkable, PawnSpan, PawnAttackSpan, ViewsOf;
    PawnBitboards(p);
    ViewsTotal(p);
    OnlyKingAnywhere(p.board, c);
    var theirPawns := p.PiecesOf(c.Opposite(), Pawn);
    var theirPawnAttacks := PawnAttackSpan(theirPawns, c.Opposite());
    SpanExactly(p.board, c.Opposite());
    var ksq := p.KingSquareOf(c);
    if ksq in theirPawnAttacks {
      return false;
    }
    KingIsNoPawn(p, c, ksq);
    var reach := KingReachableSquares(ksq, p.byType[Pawn] + theirPawnAttacks);
    assert reach == Range(p.board, c, ksq);
    var undefended := theirPawns - theirPawnAttacks;
    var bb := undefended;
    while bb != {}
      invariant bb <= undefended
      invariant forall s, t: Square | s in undefended - bb && KingStep(s, t) :: t !in reach
      decreases bb
    {
      var s := First(bb);
      bb := bb - {s};
      if reach * KingAttacks(s) != {} {
        var t :| t in reach * KingAttacks(s);
        assert KingStep(s, t) && t in reach && s in undefended;
        return false;
      }
      forall t: Square | KingStep(s, t) ensures t !in reach {
        assert t in KingAttacks(s);
        assert t !in reach * KingAttacks(s);
      }
    }
    return true;
  }

  /** IsBlockedDeadPosition answers yes exactly when its three conditions hold. */
  method IsBlockedDeadPosition(p: Position) returns (dead: bool)
    requires p.Views() && OneKing(p.board, White) && OneKing(p.board, Black) && NoPawnsOnEdges(p.board)
    ensures dead <==> BlockedDead(p.Model())
  {
    hide PawnLocked, KingConfined, OneKing, NoPawnsOnEdges, Pawns;
    PawnBitboards(p);
    KingsAndPawnsExactly(p);
    if p.byType[Knight] + p.byType[Bishop] + p.byType[Rook] + p.byType[Queen] != {} { return false; }
    if p.byType[Pawn] == {} { return false; }
    if p.ep.Some? { return false; }
    var whiteLocked := PawnsAreLocked(p, White);
    if !whiteLocked { return false; }
    var blackLocked := PawnsAreLocked(p, Black);
    if !blackLocked { return false; }
    assert AllLocked(p.board) by {
      forall c: Color, s | s in Pawns(p.board, c) ensures PawnLocked(p.board, c, s) { assert c.White? || c.Black?; }
    }
    var whiteConfined := KingIsConfined(p, White);
    if !whiteConfined { return false; }
    dead := KingIsConfined(p, Black);
    if dead {
      forall c: Color ensures KingConfined(p.board, c) { assert c.White? || c.Black?; }
    }
  }

  lemma KingsAndPawnsExactly(p: Position)
    requires p.Views()
    ensures OnlyKingsAndPawns(p.board) <==> p.byType[Knight] + p.byType[Bishop] + p.byType[Rook] + p.byType[Queen] == {}
  {
    forall s | s in p.board ensures s in p.byType[p.board[s].kind] {
    }
  }

  // ---- the verdict on a game

  datatype Outcome = Ongoing | WhiteWins | BlackWins | Draw

  datatype Reason =
    | NotTerminated | Checkmated | Stalemate | FiftyMoves | Threefold | TooLittleMaterial | LockedStructure

  const FIFTY_MOVE_PLIES := 100

  predicate WinsFor(o: Outcome, c: Color) { if c.White? then o.WhiteWins? else o.BlackWins? }

  /** A move exists, the position is not dead and has not occurred twice before: only the clock can end the game. */
  ghost predicate OnlyTheClock(p: Position)
    reads p
  {
    && (exists m :: Legal(p.Model(), m))
    && !InsufficientMaterial(p.board) && !BlockedDead(p.Model())
    && NullFree(p.past) && CollisionFree(p.z, p.past, p.Model()) && Occurrences(p.past, p.Model(), 0) < 2
  }

  /** Outcome: a win is a checkmate and nothing else, whatever the clock says; a dead-position draw is
      only given where no line of legal moves could still end in mate; and a game goes on only while a
      move exists and no draw has been reached. */
  method Judge(p: Position) returns (outcome: Outcome, reason: Reason)
    requires p.Consistent()
    ensures WinsFor(outcome, p.side.Opposite()) <==> Checkmate(p.Model())
    ensures !WinsFor(outcome, p.side)
    ensures reason.Stalemate? <==> !InCheck(p.Model()) && forall m :: !Legal(p.Model(), m)
    ensures reason.TooLittleMaterial? || reason.LockedStructure? ==> outcome.Draw? && !MateReachable(p.Model())
    ensures outcome.Ongoing? <==> reason.NotTerminated?
    ensures outcome.Ongoing? ==>
      && (exists m :: Legal(p.Model(), m)) && p.halfmove < FIFTY_MOVE_PLIES
      && !InsufficientMaterial(p.board) && !BlockedDead(p.Model())
    ensures outcome.Ongoing? && NullFree(p.past) && CollisionFree(p.z, p.past, p.Model()) ==>
      Occurrences(p.past, p.Model(), 0) < 2
    ensures reason.FiftyMoves? ==> outcome.Draw? && p.halfmove >= FIFTY_MOVE_PLIES
    ensures OnlyTheClock(p) ==> (reason.FiftyMoves? <==> p.halfmove >= FIFTY_MOVE_PLIES)
    ensures OnlyTheClock(p) ==> (outcome.Ongoing? <==> p.halfmove < FIFTY_MOVE_PLIES)
    ensures reason.Threefold? && NullFree(p.past) && CollisionFree(p.z, p.past, p.Model()) ==>
      Occurrences(p.past, p.Model(), 0) >= 2
  {
    hide Sound, ViewsOf, Valid, Legal, InCheck, NullFree, CollisionFree, Occurrences, InsufficientMaterial, BlockedDead;
    hide Position.KeyAgrees, Position.AttackersTo, NoPawnsOnEdges, OneKing, MateReachable, Scan, KingSafe;
    ConsistentFacts(p);
    KingsFacts(p);
    var ml := new MoveList();
    GenerateLegalMoves(p, ml);
    if |ml.moves| == 0 {
      CheckTest(p);
      NoMoves(p.Model(), ml.moves);
      if p.AttackersTo(p.KingSquareOf(p.side), p.Occupied()) * p.byColor[p.side.Opposite()] != {} {
        return if p.side.White? then BlackWins else WhiteWins, Checkmated;
      }
      return Draw, Stalemate;
    }
    SomeMove(p.Model(), ml.moves);
    var insufficient := IsInsufficientMaterial(p);
    if insufficient {
      DeadPositionsAreDead(p.Model());
      return Draw, TooLittleMaterial;
    }
    var blocked := IsBlockedDeadPosition(p);
    if blocked {
      DeadPositionsAreDead(p.Model());
      return Draw, LockedStructure;
    }
    var repetitions := RepetitionCount(p);
    if repetitions >= 2 {
      return Draw, Threefold;
    }
    if p.halfmove >= FIFTY_MOVE_PLIES {
      return Draw, FiftyMoves;
    }
    return Ongoing, NotTerminated;
  }

  lemma KingsFacts(p: Position)
    requires p.Consistent()
    ensures OneKing(p.board, White) && OneKing(p.board, Black)
  {
  }

  lemma CheckTest(p: Position)
    requires p.Views() && OneKing(p.board, p.side)
    ensures InCheck(p.Model()) <==>
      p.AttackersTo(p.KingSquareOf(p.side), p.Occupied()) * p.byColor[p.side.Opposite()] != {}
  {
    hide ViewsOf, Attackers, Position.AttackersTo;
    ViewsTotal(p);
    var k := p.KingSquareOf(p.side);
    p.OccupiedIsBoard();
    InCheckIffCheckers(p.board, p.side, k);
    p.AttackersToExactly(k, p.Occupied(), p.side.Opposite());
  }

  lemma NoMoves(p: Pos, moves: seq<Move>)
    requires (forall m :: m in moves <==> Legal(p, m)) && |moves| == 0
    ensures forall m :: !Legal(p, m)
  {
    hide Legal;
    forall m ensures !Legal(p, m) { assert m !in moves; }
  }

  lemma SomeMove(p: Pos, moves: seq<Move>)
    requires (forall m :: m in moves <==> Legal(p, m)) && |moves| > 0
    ensures exists m :: Legal(p, m)
    ensures !Checkmate(p)
  {
    hide Legal;
    assert moves[0] in moves;
  }
}
