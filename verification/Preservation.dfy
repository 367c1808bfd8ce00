/** Every legal move takes a valid position to a valid position. */
module Preservation {
  import opened Squares
  import opened Rules
  import opened MaskLegality
  import opened LegalMoves
  import opened Generator

  /** A king that is not in check cannot be captured. */
  lemma KingIsNotCaptured(p: Pos, m: Move, k: Square)
    requires KingSafe(p.board, p.side.Opposite()) && IsKing(p.board, p.side.Opposite(), k)
    requires PseudoLegal(p, m) && !m.Castling?
    ensures m.to != k && (m.EnPassant? && EpValid(p) ==> Before(p.side, m.to) != k)
  {
    assert !Attacked(p.board, k, p.side);
    assert m.from !in Attackers(p.board, k, p.side, p.board.Keys);
  }

  lemma TheirKingStays(p: Pos, m: Move)
    requires OneKing(p.board, p.side.Opposite()) && KingSafe(p.board, p.side.Opposite())
    requires EpValid(p) && PseudoLegal(p, m)
    requires m.Castling? ==> CastlingReady(p, m.from, RightOf(p.side, m))
    ensures OneKing(BoardAfter(p.board, p.side, m), p.side.Opposite())
  {
    var after := BoardAfter(p.board, p.side, m);
    var them := p.side.Opposite();
    var k := KingSquare(p.board, them);
    if m.Castling? {
      CastlingOccupancy(p, m.from, RightOf(p.side, m));
    } else {
      KingIsNotCaptured(p, m, k);
    }
    assert IsKing(after, them, k);
    forall j | IsKing(after, them, j) ensures j == k { assert IsKing(p.board, them, j); }
  }

  /** Where the mover's king stands after the move. */
  ghost function KingAfter(p: Pos, m: Move, k: Square): Square {
    if m.Castling? then KingTo(RightOf(p.side, m)) else if m.from == k then m.to else k
  }

  lemma OurKingMoves(p: Pos, m: Move, k: Square)
    requires OneKing(p.board, p.side) && IsKing(p.board, p.side, k)
    requires EpValid(p) && PseudoLegal(p, m)
    requires m.Castling? ==> CastlingReady(p, m.from, RightOf(p.side, m))
    ensures var after := BoardAfter(p.board, p.side, m);
      IsKing(after, p.side, KingAfter(p, m, k)) && forall j | IsKing(after, p.side, j) :: j == KingAfter(p, m, k)
  {
    var after := BoardAfter(p.board, p.side, m);
    OnlyKing(p.board, p.side, k);
    if m.Castling? {
      CastlingOccupancy(p, m.from, RightOf(p.side, m));
    } else {
      forall j | IsKing(after, p.side, j) ensures j == KingAfter(p, m, k) {
        if j != m.to {
          assert IsKing(p.board, p.side, j);
        } else {
          assert m.Normal? ==> IsKing(p.board, p.side, m.from);
        }
      }
    }
  }

  lemma PawnsStayInside(p: Pos, m: Move)
    requires NoPawnsOnEdges(p.board) && PseudoLegal(p, m) && EpValid(p)
    ensures NoPawnsOnEdges(BoardAfter(p.board, p.side, m))
  {
    hide BoardAfter, PawnReaches, MayCastle, Attacks, EpValid;
    var after := BoardAfter(p.board, p.side, m);
    forall s | s in after && after[s].kind.Pawn? ensures 1 <= Rank(s) <= 6 {
      if s == m.to && !m.Castling? {
        MovedPawnInside(p, m);
      } else {
        OtherPawnsStay(p.board, p.side, m, s);
      }
    }
  }

  lemma OtherPawnsStay(b: Board, us: Color, m: Move, s: Square)
    requires m.from in b && s in BoardAfter(b, us, m) && BoardAfter(b, us, m)[s].kind.Pawn? &&
      (s != m.to || m.Castling?)
    ensures s in b && b[s].kind.Pawn?
  {
  }

  lemma MovedPawnInside(p: Pos, m: Move)
    requires NoPawnsOnEdges(p.board) && PseudoLegal(p, m) && EpValid(p) && !m.Castling?
    requires BoardAfter(p.board, p.side, m)[m.to].kind.Pawn?
    ensures 1 <= Rank(m.to) <= 6
  {
    hide Clear, Attacks, EpAvailable, Between;
  }

  /** A pawn move of sixteen squares is a double push from the start rank. */
  lemma SixteenIsDoublePush(p: Pos, m: Move)
    requires PseudoLegal(p, m) && IsDoublePush(p.board, m)
    ensures Rank(m.from) == StartRank(p.side) && DF(m.from, m.to) == 0 && DR(m.from, m.to) == 2 * Forward(p.side)
    ensures Rank(Before(p.side, m.to)) == TargetRank(p.side.Opposite())
  {
  }

  /** Rights that survive keep their king and rook untouched, wherever the move happened. */
  lemma RightsStayAtHome(p: Pos, m: Move, r: Right)
    requires CastlingValid(p) && EpValid(p) && PseudoLegal(p, m)
    requires OneKing(p.board, White) && OneKing(p.board, Black)
    requires m.Castling? ==> CastlingReady(p, m.from, RightOf(p.side, m))
    requires KingSafe(p.board, p.side.Opposite())
    requires r in RightsAfter(p, m)
    ensures RightAtHome(Apply(p, m), r)
  {
    assert RightAtHome(p, r);
    var q := Apply(p, m);
    var k := KingSquare(p.board, r.color);
    var rookFrom := p.setup.rook[r];
    assert m.from != rookFrom && m.to != rookFrom && m.from != k && m.to != k;
    if m.Castling? { CastlingOccupancy(p, m.from, RightOf(p.side, m)); }
    assert Has(q.board, rookFrom, Piece(r.color, Rook));
    assert !IsKing(p.board, r.color, m.from);
    forall j | IsKing(q.board, r.color, j) ensures j == k {
      assert j != m.to || m.Castling?;
      assert IsKing(p.board, r.color, j);
    }
  }

  lemma CastlingIsReady(p: Pos, m: Move)
    requires CastlingValid(p) && OneKing(p.board, p.side) && PseudoLegal(p, m) && m.Castling?
    ensures CastlingReady(p, m.from, RightOf(p.side, m))
  {
  }

  /** The invariant is kept by every legal move. */
  lemma LegalMoveKeepsValid(p: Pos, m: Move)
    requires Valid(p) && Legal(p, m)
    ensures Valid(Apply(p, m))
  {
    var q := Apply(p, m);
    var us, them := p.side, p.side.Opposite();
    if m.Castling? { CastlingIsReady(p, m); }
    OurKingMoves(p, m, KingSquare(p.board, us));
    TheirKingStays(p, m);
    PawnsStayInside(p, m);
    forall r | r in q.castling ensures RightAtHome(q, r) {
      RightsStayAtHome(p, m, r);
    }
    if q.ep.Some? { SixteenIsDoublePush(p, m); }
    assert OneKing(q.board, us) && OneKing(q.board, them);
  }

  /** So it holds along every line of legal play, and rights only ever shrink. */
  lemma PlayKeepsValid(p: Pos, ms: seq<Move>)
    requires Valid(p) && LegalLine(p, ms)
    ensures Valid(Play(p, ms)) && Play(p, ms).castling <= p.castling && Play(p, ms).setup == p.setup
    decreases |ms|
  {
    if ms != [] {
      LegalMoveKeepsValid(p, ms[0]);
      PlayKeepsValid(Apply(p, ms[0]), ms[1..]);
    }
  }

  // ---- moves in plain terms

  /** Any other legal move carries one man, which stays what it is unless a pawn reaches the far rank, and takes what
      stands on its target, or the pawn beside it in passing; nothing else on the board changes. The clock starts
      again exactly with a pawn move or a capture, and the move number counts Black's moves. */
  lemma MovePlaces(p: Pos, m: Move)
    requires Valid(p) && Legal(p, m) && !m.Castling?
    ensures Movable(p, m)
    ensures var q := Apply(p, m);
      var taken := if m.EnPassant? then MakeSquare(File(m.to), Rank(m.from)) else m.to;
      && m.from !in q.board && m.to in q.board && q.board[m.to].color == p.board[m.from].color == p.side
      && q.board[m.to].kind == (if m.Promotion? then m.promo else p.board[m.from].kind)
      && (m.Promotion? <==> p.board[m.from].kind.Pawn? && Rank(m.to) == if p.side.White? then 7 else 0)
      && (m.Promotion? ==> m.promo in {Knight, Bishop, Rook, Queen})
      && (m.EnPassant? ==> m.to !in p.board && taken in p.board && p.board[taken].kind.Pawn?)
      && (taken in p.board ==> p.board[taken].color != p.side && (taken == m.to || taken !in q.board))
      && (forall s: Square | s !in {m.from, m.to, taken} :: s in q.board <==> s in p.board)
      && (forall s: Square | s !in {m.from, m.to, taken} && s in q.board :: q.board[s] == p.board[s])
      && q.halfmove == (if p.board[m.from].kind.Pawn? || taken in p.board then 0 else p.halfmove + 1)
      && q.side != p.side && q.fullmove == p.fullmove + if p.side.White? then 0 else 1
  {
    hide KingSafe, OneKing, NoPawnsOnEdges, CastlingValid, MayCastle, Attacks, EpAvailable, Clear;
    ValidIsMovable(p, m);
    ValidTarget(p);
    if m.EnPassant? { PassedPawn(p.side, m.from, m.to); }
  }

  lemma ValidTarget(p: Pos)
    requires Valid(p)
    ensures p.ep.Some? ==>
      p.ep.value !in p.board && Has(p.board, Before(p.side, p.ep.value), Piece(p.side.Opposite(), Pawn))
  {
    hide KingSafe, OneKing, NoPawnsOnEdges, CastlingValid;
  }

  /** The pawn taken in passing stands beside the capturing pawn. */
  lemma PassedPawn(us: Color, from: Square, to: Square)
    requires PawnStep(us, from, to)
    ensures Before(us, to) == MakeSquare(File(to), Rank(from)) && Before(us, to) != from && Before(us, to) != to
  {
  }

  /** Quiescence's moves in terms of what happens: an enemy man is gone afterwards, or a pawn has been promoted. */
  lemma ForcingExactly(p: Pos, m: Move)
    requires Valid(p) && Legal(p, m)
    ensures Movable(p, m)
    ensures Forcing(p, m) <==>
      m.Promotion? || exists s :: s in p.board && p.board[s].color != p.side && !Has(Apply(p, m).board, s, p.board[s])
  {
    hide KingSafe, OneKing, NoPawnsOnEdges, CastlingValid, BoardAfter, Legal, PseudoLegal;
    if m.Castling? {
      CastlingPlaces(p, m);
      CastlingTakesNothing(p, m);
    } else {
      MovePlaces(p, m);
      TakesOrNot(p, m);
    }
  }

  lemma CastlingTakesNothing(p: Pos, m: Move)
    requires Valid(p) && Legal(p, m) && m.Castling?
    ensures Movable(p, m)
    ensures forall s | s in p.board && p.board[s].color != p.side :: Has(Apply(p, m).board, s, p.board[s])
  {
    hide KingSafe, OneKing, NoPawnsOnEdges, EpValid;
    ValidIsMovable(p, m);
    CastlingIsReady(p, m);
    CastlingOccupancy(p, m.from, RightOf(p.side, m));
  }

  /** An enemy man is gone exactly after a capture. */
  lemma TakesOrNot(p: Pos, m: Move)
    requires Valid(p) && Legal(p, m) && !m.Castling?
    ensures Movable(p, m)
    ensures IsCapture(p.board, m) <==>
      exists s :: s in p.board && p.board[s].color != p.side && !Has(Apply(p, m).board, s, p.board[s])
  {
    hide Valid, Legal, BoardAfter;
    MovePlaces(p, m);
    var taken := if m.EnPassant? then MakeSquare(File(m.to), Rank(m.from)) else m.to;
    var q := Apply(p, m);
    if IsCapture(p.board, m) {
      assert taken in p.board && p.board[taken].color != p.side && !Has(q.board, taken, p.board[taken]);
    }
    assert p.board[m.from].color == p.side;
  }

  /** The pawn's moves one by one: onto an enemy man diagonally ahead, onto the empty square ahead, or from its own
      second rank over that square onto the next, if both are empty. */
  lemma PawnMovesInWords(b: Board, us: Color, from: Square, to: Square)
    ensures PawnReaches(b, us, from, to) <==>
      var up := if us.White? then 1 else -1;
      || (to in b && b[to].color != us && Rank(to) == Rank(from) + up && Abs(File(to) - File(from)) == 1)
      || (to !in b && File(to) == File(from) && Rank(to) == Rank(from) + up)
      || (to !in b && File(to) == File(from) && Rank(to) == Rank(from) + 2 * up &&
          Rank(from) == (if us.White? then 1 else 6) && MakeSquare(File(from), Rank(from) + up) !in b)
  {
    hide File, Rank, Clear, MakeSquare;
    if File(to) == File(from) && Abs(DR(from, to)) == 1 {
      StepIsClear(from, to, b.Keys);
    }
    if File(to) == File(from) && Abs(DR(from, to)) == 2 {
      DoubleStepIsClear(from, to, b.Keys);
    }
  }

  lemma StepIsClear(from: Square, to: Square, occ: Bitboard)
    requires File(to) == File(from) && Abs(DR(from, to)) == 1
    ensures Clear(from, to, occ)
  {
  }

  lemma DoubleStepIsClear(from: Square, to: Square, occ: Bitboard)
    requires File(to) == File(from) && Abs(DR(from, to)) == 2
    ensures OnBoard(File(from), Rank(from) + DR(from, to) / 2)
    ensures Clear(from, to, occ) <==> MakeSquare(File(from), Rank(from) + DR(from, to) / 2) !in occ
  {
    var middle := MakeSquare(File(from), (Rank(from) + Rank(to)) / 2);
    assert Between(from, middle, to);
    forall u ensures Between(from, u, to) ==> u == middle {
    }
  }

  // ---- castling in plain terms

  function HomeRank(c: Color): int { if c.White? then 0 else 7 }

  /** On one rank, from file a to file b, both included and in either order. */
  predicate OnStretch(rank: int, a: int, s: Square, b: int) {
    Rank(s) == rank && (a <= File(s) <= b || b <= File(s) <= a)
  }

  /** Castling towards the h-file leaves king and rook on g and f, towards the a-file on c and d, and every other man
      where it was; a king from the e-file has gone two squares towards its rook, which stands on the square that it
      crossed (article 3.8.2). */
  lemma CastlingPlaces(p: Pos, m: Move)
    requires Valid(p) && Legal(p, m) && m.Castling?
    ensures Movable(p, m) && Rank(m.from) == Rank(m.to) == HomeRank(p.side)
    ensures var k := MakeSquare(if m.to > m.from then 6 else 2, HomeRank(p.side));
      var r := MakeSquare(if m.to > m.from then 5 else 3, HomeRank(p.side));
      var after := Apply(p, m).board;
      && IsKing(after, p.side, k) && Has(after, r, Piece(p.side, Rook))
      && (forall s: Square | s !in {m.from, m.to, k, r} :: s in after <==> s in p.board)
      && (forall s: Square | s !in {m.from, m.to, k, r} && s in after :: after[s] == p.board[s])
      && (forall s: Square | s in {m.from, m.to} - {k, r} :: s !in after)
      && (File(m.from) == 4 ==> Abs(DF(m.from, k)) == 2 && DR(m.from, k) == 0 && Between(m.from, r, k))
      && (File(m.from) == 4 ==> Sgn(DF(m.from, k)) == Sgn(DF(m.from, m.to)))
  {
    hide KingSafe, OneKing, NoPawnsOnEdges, EpValid;
    ValidIsMovable(p, m);
    CastlingIsReady(p, m);
    HomeSquares(p, m);
  }

  lemma HomeSquares(p: Pos, m: Move)
    requires Valid(p) && PseudoLegal(p, m) && m.Castling?
    ensures Rank(m.from) == Rank(m.to) == HomeRank(p.side) && m.from != m.to
  {
    hide KingSafe, NoPawnsOnEdges, EpValid;
    assert RightAtHome(p, RightOf(p.side, m));
  }

  /** A king and a rook whose right is held may castle exactly if no other man stands on the way of either, no square
      the king stands on, crosses or reaches is attacked, and the king is safe once both have moved. */
  lemma CastlingLegalExactly(p: Pos, m: Move)
    requires Valid(p) && m.Castling? && IsKing(p.board, p.side, m.from)
    requires var r := Right(p.side, m.to > m.from); r in p.castling && r in p.setup.rook && p.setup.rook[r] == m.to
    ensures var kingTo, rookTo := if m.to > m.from then 6 else 2, if m.to > m.from then 5 else 3;
      Legal(p, m) <==>
        && (forall s | s in p.board && s !in {m.from, m.to} ::
              !OnStretch(HomeRank(p.side), File(m.from), s, kingTo) &&
                !OnStretch(HomeRank(p.side), File(m.to), s, rookTo))
        && (forall s: Square | OnStretch(HomeRank(p.side), File(m.from), s, kingTo) ::
              !Attacked(p.board, s, p.side.Opposite()))
        && KingSafe(BoardAfter(p.board, p.side, m), p.side)
  {
    hide KingSafe, OneKing, NoPawnsOnEdges, EpValid, Attacked, BoardAfter, PathOf;
    var right := Right(p.side, m.to > m.from);
    assert RightAtHome(p, right);
    StretchIsPath(m.from, m.to, right);
  }

  lemma StretchIsPath(kingFrom: Square, rookFrom: Square, r: Right)
    requires Rank(kingFrom) == Rank(rookFrom) == HomeRank(r.color)
    ensures var kingTo, rookTo := if r.kingSide then 6 else 2, if r.kingSide then 5 else 3;
      && (forall s: Square | s !in {kingFrom, rookFrom} ::
            s in PathOf(kingFrom, rookFrom, r) <==> (OnStretch(HomeRank(r.color), File(kingFrom), s, kingTo) ||
                                                     OnStretch(HomeRank(r.color), File(rookFrom), s, rookTo)))
      && (forall s: Square | s in {kingFrom, rookFrom} :: s !in PathOf(kingFrom, rookFrom, r))
      && (forall s: Square :: OnKingPath(kingFrom, s, KingTo(r)) <==>
            OnStretch(HomeRank(r.color), File(kingFrom), s, kingTo))
  {
    hide File, Rank;
    var kingTo, rookTo := KingTo(r), RookTo(r);
    assert File(kingTo) == (if r.kingSide then 6 else 2) && File(rookTo) == if r.kingSide then 5 else 3;
    assert Rank(kingTo) == Rank(rookTo) == HomeRank(r.color);
    forall s: Square
      ensures Between(kingFrom, s, kingTo) || s == kingFrom || s == kingTo <==>
        OnStretch(HomeRank(r.color), File(kingFrom), s, File(kingTo))
      ensures Between(rookFrom, s, rookTo) || s == rookFrom || s == rookTo <==>
        OnStretch(HomeRank(r.color), File(rookFrom), s, File(rookTo))
    {
      StretchIsBetween(kingFrom, s, kingTo);
      StretchIsBetween(rookFrom, s, rookTo);
    }
  }

  lemma StretchIsBetween(a: Square, s: Square, b: Square)
    requires Rank(a) == Rank(b)
    ensures Between(a, s, b) || s == a || s == b <==> OnStretch(Rank(a), File(a), s, File(b))
  {
  }

  // ---- who forfeits a right

  /** The king that a right belongs to, or a rook on its side of that king, at home on the back rank. */
  ghost predicate HomeMan(b: Board, r: Right, s: Square) {
    && s in b && b[s].color == r.color && Rank(s) == HomeRank(r.color)
    && (b[s].kind.King? || (b[s].kind.Rook? && forall k | IsKing(b, r.color, k) :: r.kingSide <==> s > k))
  }

  /** Only such men's squares forfeit a right that is held. */
  ghost predicate ForfeitsAtHome(p: Pos) {
    forall r, s: Square | r in p.castling && s in p.setup.mask && r !in p.setup.mask[s] :: HomeMan(p.board, r, s)
  }

  /** A man of that kind that a move neither carries nor takes stays where it is. */
  lemma BystanderStays(p: Pos, m: Move, s: Square)
    requires PseudoLegal(p, m) && EpValid(p) && (m.Castling? ==> CastlingReady(p, m.from, RightOf(p.side, m)))
    requires s in p.board && !p.board[s].kind.Pawn? && s != m.from && s != m.to
    ensures Has(BoardAfter(p.board, p.side, m), s, p.board[s])
  {
    if m.Castling? { CastlingOccupancy(p, m.from, RightOf(p.side, m)); }
  }

  /** A right is lost with its king or its recorded rook, whether that man moves or is taken, and it is kept by
      every move that leaves the kings and rooks at home on its side alone. */
  lemma RightsGoWithTheirMen(p: Pos, m: Move)
    requires Valid(p) && ForfeitsAtHome(p) && Legal(p, m)
    ensures Movable(p, m) && ForfeitsAtHome(Apply(p, m))
    ensures forall r | r in p.castling && !HomeMan(p.board, r, m.from) && !HomeMan(p.board, r, m.to) ::
      r in Apply(p, m).castling
    ensures forall r | r in p.castling :: r in p.setup.rook
    ensures forall r | r in p.castling && (IsKing(p.board, r.color, m.from) || p.setup.rook[r] in {m.from, m.to}) ::
      r !in Apply(p, m).castling
  {
    hide KingSafe, NoPawnsOnEdges, PseudoLegal, BoardAfter, HomeMan, OneKing, EpValid;
    ValidIsMovable(p, m);
    LegalMoveKeepsValid(p, m);
    if m.Castling? { CastlingIsReady(p, m); }
    var q := Apply(p, m);
    forall r, s: Square | r in q.castling && s in q.setup.mask && r !in q.setup.mask[s]
      ensures HomeMan(q.board, r, s)
    {
      assert RightAtHome(p, r) && HomeMan(p.board, r, s);
      HomeManStays(p, m, r, s);
    }
    forall r | r in p.castling ensures RightAtHome(p, r) {
    }
  }

  lemma HomeManStays(p: Pos, m: Move, r: Right, s: Square)
    requires Valid(p) && Legal(p, m) && Movable(p, m) && Valid(Apply(p, m)) && r in p.castling && RightAtHome(p, r)
    requires m.Castling? ==> CastlingReady(p, m.from, RightOf(p.side, m))
    requires HomeMan(p.board, r, s) && s != m.from && s != m.to
    requires forall k | IsKing(p.board, r.color, k) :: k != m.from && k != m.to
    ensures HomeMan(Apply(p, m).board, r, s)
  {
    hide KingSafe, NoPawnsOnEdges, PseudoLegal, BoardAfter, CastlingValid, EpValid, RightAtHome, CastlingReady;
    var q := Apply(p, m);
    BystanderStays(p, m, s);
    HasKing(p, r.color);
    HasKing(q, r.color);
    var k := KingSquare(p.board, r.color);
    BystanderStays(p, m, k);
    assert IsKing(q.board, r.color, k);
  }

  lemma HasKing(p: Pos, c: Color)
    requires Valid(p)
    ensures OneKing(p.board, c)
  {
    assert c.White? || c.Black?;
  }

  /** Along a line of legal play only men at home ever forfeit a right, and a right is still held if and only if no
      move has begun or ended on a square that forfeits it. */
  lemma {:induction false} RightsAlongPlay(p: Pos, ms: seq<Move>, r: Right)
    requires Valid(p) && LegalLine(p, ms)
    ensures forall m | m in ms :: m.from in p.setup.mask && m.to in p.setup.mask
    ensures r in Play(p, ms).castling <==>
      r in p.castling && forall m | m in ms :: r in p.setup.mask[m.from] && r in p.setup.mask[m.to]
    ensures ForfeitsAtHome(p) ==> ForfeitsAtHome(Play(p, ms))
    decreases |ms|
  {
    hide Valid, Legal, ForfeitsAtHome;
    if ms == [] {
    } else {
      LegalMoveKeepsValid(p, ms[0]);
      RightsAlongPlay(Apply(p, ms[0]), ms[1..], r);
      if ForfeitsAtHome(p) { RightsGoWithTheirMen(p, ms[0]); }
      assert ms == [ms[0]] + ms[1..];
    }
  }

  /** Asked about a target, the generator emits a capture onto it if and only if one is legal: it checks the
      simulated occupancy only, and not at all under double check, which no such capture answers. */
  lemma EmittedIffAvailable(q: Pos, k: Square, t: Square)
    requires OneKing(q.board, q.side) && IsKing(q.board, q.side, k) && KingsApart(q.board)
    requires q.ep == Some(t) && t !in q.board && Has(q.board, Before(q.side, t), Piece(q.side.Opposite(), Pawn))
    ensures EpAvailable(q.board, q.side, t) <==> exists m: Move :: m.EnPassant? && Emits(q, k, false, m)
  {
    hide BoardAfter, KingSafe, OneKing, KingsApart, EpLeavesKingSafe;
    if EpAvailable(q.board, q.side, t) {
      var from :| EpCapture(q.board, q.side, from, t);
      EpTestIsMakeAndTest(q.board, q.side, from, t, k);
      AnswersOneCheck(q, k, from, t);
      assert Emits(q, k, false, EnPassant(from, t));
    }
    forall m: Move | m.EnPassant? && Emits(q, k, false, m) ensures EpAvailable(q.board, q.side, t) {
      EpTestIsMakeAndTest(q.board, q.side, m.from, t, k);
      assert EpCapture(q.board, q.side, m.from, t);
    }
  }

  lemma AnswersOneCheck(q: Pos, k: Square, from: Square, t: Square)
    requires OneKing(q.board, q.side) && IsKing(q.board, q.side, k) && EpShape(q.board, q.side, from, t)
    requires KingSafe(BoardAfter(q.board, q.side, EnPassant(from, t)), q.side)
    ensures !DoubleCheck(q, k)
  {
    hide BoardAfter, KingSafe, OneKing, EpShape, Checkers;
    forall e1, e2 | e1 in Checkers(q.board, q.side, k) && e2 in Checkers(q.board, q.side, k) ensures e1 == e2 {
      EpNeverAnswersDoubleCheck(q.board, q.side, from, t, k, e1, e2);
    }
  }

  /** In a valid position a target is recorded if and only if the generator emits an en passant capture. */
  lemma TargetIffEmitted(p: Pos, k: Square)
    requires Valid(p) && IsKing(p.board, p.side, k)
    ensures p.ep.Some? <==> exists m: Move :: m.EnPassant? && Emits(p, k, false, m)
  {
    hide BoardAfter, KingSafe, CastlingValid, OneKing, NoPawnsOnEdges, Emits;
    KingsAreApart(p);
    assert OneKing(p.board, p.side);
    if p.ep.Some? {
      EmittedIffAvailable(p, k, p.ep.value);
    } else {
      NoTargetNoCapture(p, k);
    }
  }

  lemma NoTargetNoCapture(p: Pos, k: Square)
    requires p.ep.None?
    ensures forall m: Move | m.EnPassant? :: !Emits(p, k, false, m)
  {
  }

  /** What MakeMove records: nothing unless a pawn went two squares, and then the square it passed exactly when
      the generator, asked about that square in the position reached, would emit a capture onto it. */
  lemma TargetAfterMove(p: Pos, m: Move, k: Square)
    requires Valid(p) && Legal(p, m) && IsKing(BoardAfter(p.board, p.side, m), p.side.Opposite(), k)
    ensures Movable(p, m)
    ensures !IsDoublePush(p.board, m) ==> Apply(p, m).ep.None?
    ensures IsDoublePush(p.board, m) ==>
      var asked := Apply(p, m).(ep := Some(Before(p.side, m.to)));
      (Apply(p, m).ep == asked.ep <==> exists c: Move :: c.EnPassant? && Emits(asked, k, false, c))
  {
    hide KingSafe, OneKing, NoPawnsOnEdges, RightAtHome, EpAvailable, Emits, Valid, PseudoLegal;
    ValidIsMovable(p, m);
    if IsDoublePush(p.board, m) {
      var q := Apply(p, m);
      var t := Before(p.side, m.to);
      LegalMoveKeepsValid(p, m);
      KingsAreApart(q);
      ValidHasKings(q);
      PassedSquare(p, m);
      EmittedIffAvailable(q.(ep := Some(t)), k, t);
    }
  }

  lemma ValidIsMovable(p: Pos, m: Move)
    requires Valid(p) && Legal(p, m)
    ensures Movable(p, m)
  {
  }

  lemma ValidHasKings(q: Pos)
    requires Valid(q)
    ensures OneKing(q.board, q.side)
  {
  }

  /** The square a double push passes is empty, with the pushed pawn just beyond it. */
  lemma PassedSquare(p: Pos, m: Move)
    requires PseudoLegal(p, m) && IsDoublePush(p.board, m)
    ensures var t := Before(p.side, m.to);
      var after := BoardAfter(p.board, p.side, m);
      t !in after && Has(after, Before(p.side.Opposite(), t), Piece(p.side, Pawn))
  {
    hide Clear;
    SixteenIsDoublePush(p, m);
    var t := Before(p.side, m.to);
    assert Before(p.side.Opposite(), t) == m.to;
    PassedIsClear(p.board.Keys, m.from, t, m.to);
  }

  lemma PassedIsClear(occ: Bitboard, from: Square, t: Square, to: Square)
    requires Clear(from, to, occ) && DF(from, to) == 0 && Abs(DR(from, to)) == 2
    requires DF(from, t) == 0 && DR(from, to) == 2 * DR(from, t)
    ensures t !in occ
  {
    assert Between(from, t, to);
  }
}
