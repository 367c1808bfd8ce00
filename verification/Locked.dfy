/** What the test for locked pawn structures says (rules.go), in terms of moves and walks instead of masks. */
module Locked {
  import opened Squares
  import opened Geometry
  import opened Rules
  import opened DeadPosition

  // ---- walks

  /** Squares one king step apart, from a first one to a last, none of them but the first a wall. */
  ghost predicate Walk(path: seq<Square>, walls: Bitboard) {
    && path != []
    && forall i | 0 < i < |path| :: KingStep(path[i - 1], path[i]) && path[i] !in walls
  }

  ghost predicate WalksTo(from: Square, walls: Bitboard, s: Square) {
    exists path :: Walk(path, walls) && path[0] == from && path[|path| - 1] == s
  }

  lemma {:induction false} WalkStaysInside(path: seq<Square>, walls: Bitboard, C: Bitboard)
    requires Walk(path, walls) && path[0] in C && ClosedWalk(C, walls)
    ensures path[|path| - 1] in C
    decreases |path|
  {
    if |path| > 1 {
      WalkStaysInside(path[..|path| - 1], walls, C);
      assert KingStep(path[|path| - 2], path[|path| - 1]);
    }
  }

  /** The squares in a king's range are those that a walk leads to. */
  lemma WalkableExactly(from: Square, walls: Bitboard, s: Square)
    ensures s in Walkable(from, walls) <==> WalksTo(from, walls, s)
  {
    hide KingStep;
    var reached := set t: Square | WalksTo(from, walls, t);
    assert Walk([from], walls);
    forall t, u: Square | t in reached && KingStep(t, u) && u !in walls ensures u in reached {
      var path :| Walk(path, walls) && path[0] == from && path[|path| - 1] == t;
      var longer := path + [u];
      assert Walk(longer, walls) && longer[0] == from && longer[|longer| - 1] == u;
    }
    WalkableIsLeast(from, walls, reached);
    if WalksTo(from, walls, s) {
      var path :| Walk(path, walls) && path[0] == from && path[|path| - 1] == s;
      WalkableIsClosed(from, walls);
      WalkStaysInside(path, walls, Walkable(from, walls));
    }
  }

  // ---- pawns

  /** The board with both kings lifted off. */
  function Kingless(b: Board): Board { map s | s in b && !b[s].kind.King? :: b[s] }

  lemma StepAhead(c: Color, s: Square) returns (t: Square)
    requires 1 <= Rank(s) <= 6
    ensures forall u: Square :: StraightAhead(c, s, u) <==> u == t
  {
    t := MakeSquare(File(s), Rank(s) + Forward(c));
    forall u: Square ensures StraightAhead(c, s, u) <==> u == t {
      SquareIsItsCoordinates(u, t);
    }
  }

  /** A pawn is locked exactly when it has no move even with both kings lifted off the board. */
  lemma LockedExactly(b: Board, c: Color, s: Square)
    requires OnlyKingsAndPawns(b) && NoPawnsOnEdges(b) && s in Pawns(b, c)
    ensures PawnLocked(b, c, s) <==> forall t: Square :: !PawnReaches(Kingless(b), c, s, t)
  {
    hide Clear, File, Rank;
    var bare := Kingless(b);
    var ahead := StepAhead(c, s);
    assert StraightAhead(c, s, ahead);
    forall t: Square ensures t in bare <==> t in Pawns(b, White) + Pawns(b, Black) {
      assert t in b && b[t].kind.Pawn? ==> b[t] == Piece(White, Pawn) || b[t] == Piece(Black, Pawn);
    }
    OneAhead(s, ahead, bare.Keys);
    forall t: Square | ahead in bare && DF(s, t) == 0 && DR(s, t) == 2 * Forward(c) ensures !Clear(s, t, bare.Keys) {
      TwoAhead(c, s, ahead, t, bare.Keys);
    }
    forall t: Square
      ensures t in PawnAttacks(c, s) * Pawns(b, c.Opposite()) <==> t in bare && bare[t].color != c && PawnStep(c, s, t)
    {
    }
    forall t: Square ensures PawnReaches(bare, c, s, t) <==>
      t in PawnAttacks(c, s) * Pawns(b, c.Opposite()) || (ahead !in bare && Advances(bare, c, s, t))
    {
      assert StraightAhead(c, s, t) <==> t == ahead;
    }
    if ahead !in bare { assert Advances(bare, c, s, ahead); }
  }

  /** The second half of what PawnReaches says. */
  predicate Advances(b: Board, c: Color, s: Square, t: Square) {
    && t !in b && DF(s, t) == 0 && Clear(s, t, b.Keys)
    && (DR(s, t) == Forward(c) || (DR(s, t) == 2 * Forward(c) && Rank(s) == StartRank(c)))
  }

  lemma OneAhead(s: Square, t: Square, occ: Bitboard)
    requires Abs(DR(s, t)) == 1 && DF(s, t) == 0
    ensures Clear(s, t, occ)
  {
    forall u ensures !Between(s, u, t) { AdjacentNothingBetween(s, u, t); }
  }

  lemma TwoAhead(c: Color, s: Square, ahead: Square, t: Square, occ: Bitboard)
    requires StraightAhead(c, s, ahead) && DF(s, t) == 0 && DR(s, t) == 2 * Forward(c) && ahead in occ
    ensures !Clear(s, t, occ)
  {
    assert Between(s, ahead, t);
  }

  // ---- the test

  /** An enemy pawn next to s that no enemy pawn defends. */
  ghost predicate LoosePawnBeside(b: Board, c: Color, s: Square) {
    exists t: Square :: t in Pawns(b, c.Opposite()) && KingStep(s, t) &&
      !PawnAttacked(Pawns(b, c.Opposite()), c.Opposite(), t)
  }

  /** The king of c is not attacked by a pawn, and no walk that avoids pawns and their attacks leads it to a pawn it
      could take. */
  ghost predicate ConfinedInWords(b: Board, c: Color) {
    forall k | IsKing(b, c, k) :: !PawnAttacked(Pawns(b, c.Opposite()), c.Opposite(), k) &&
      forall s: Square | WalksTo(k, Walls(b, c), s) :: !LoosePawnBeside(b, c, s)
  }

  /** The test says yes exactly for kings and pawns (at least one, none of them just arrived by two steps) where no pawn
      could move even without the kings, and both kings are confined. */
  lemma BlockedExactly(p: Pos)
    requires OneKing(p.board, White) && OneKing(p.board, Black) && NoPawnsOnEdges(p.board)
    ensures BlockedDead(p) <==>
      && (forall s | s in p.board :: p.board[s].kind.Pawn? || p.board[s].kind.King?)
      && (exists s :: s in p.board && p.board[s].kind.Pawn?)
      && p.ep.None?
      && (forall s, t: Square | s in p.board && p.board[s].kind.Pawn? ::
            !PawnReaches(Kingless(p.board), p.board[s].color, s, t))
      && (forall c: Color :: ConfinedInWords(p.board, c))
  {
    hide OneKing, NoPawnsOnEdges, PawnLocked, Kingless, WalksTo, Walls, PawnReaches, Walkable;
    var b := p.board;
    SomePawn(b);
    if OnlyKingsAndPawns(b) {
      forall c: Color, s | s in Pawns(b, c)
        ensures PawnLocked(b, c, s) <==> forall t: Square :: !PawnReaches(Kingless(b), c, s, t)
      {
        LockedExactly(b, c, s);
      }
      AllLockedExactly(b);
      forall c: Color ensures KingConfined(b, c) <==> ConfinedInWords(b, c) { ConfinedExactly(b, c); }
    }
  }

  lemma SomePawn(b: Board)
    ensures Pawns(b, White) + Pawns(b, Black) != {} <==> exists s :: s in b && b[s].kind.Pawn?
  {
    if s :| s in b && b[s].kind.Pawn? {
      assert s in Pawns(b, b[s].color) && (b[s].color.White? || b[s].color.Black?);
    }
  }

  lemma AllLockedExactly(b: Board)
    requires forall c: Color, s | s in Pawns(b, c) ::
      PawnLocked(b, c, s) <==> forall t: Square :: !PawnReaches(Kingless(b), c, s, t)
    ensures AllLocked(b) <==>
      forall s, t: Square | s in b && b[s].kind.Pawn? :: !PawnReaches(Kingless(b), b[s].color, s, t)
  {
    hide PawnLocked, PawnReaches, Kingless;
    forall s | s in b && b[s].kind.Pawn? ensures s in Pawns(b, b[s].color) {
    }
  }

  lemma ConfinedExactly(b: Board, c: Color)
    ensures KingConfined(b, c) <==> ConfinedInWords(b, c)
  {
    hide Walls, WalksTo, Walkable, KingStep, PawnAttacked;
    forall k, s: Square ensures s in Range(b, c, k) <==> WalksTo(k, Walls(b, c), s) {
      WalkableExactly(k, Walls(b, c), s);
    }
    forall s: Square, t: Square ensures KingStep(s, t) <==> KingStep(t, s) {
      StepsSymmetric(s, t);
    }
  }
}
