/** The mutable position (position.go): three redundant views of the board, an incrementally kept key, and
    an undo history, proved against the rules on values. */
module PositionState {
  import opened Squares
  import opened Rules
  import opened LegalMoves
  import opened Generator
  import opened Preservation
  import opened Zobrist

  /** The lowest-numbered square, with which every loop over a bitboard proceeds. */
  function First(b: Bitboard): (s: Square)
    requires b != {}
    ensures s in b && forall t | t in b :: s <= t
  {
    LeastExists(b);
    var s: Square :| s in b && forall t | t in b :: s <= t;
    s
  }

  lemma {:induction false} LeastOf(b: Bitboard) returns (s: Square)
    requires b != {}
    ensures s in b && forall t | t in b :: s <= t
    decreases |b|
  {
    var x: Square :| x in b;
    var rest := b - {x};
    if rest == {} {
      s := x;
    } else {
      var y := LeastOf(rest);
      s := if x <= y then x else y;
    }
    forall t | t in b ensures s <= t {
      assert t == x || t in rest;
    }
  }

  lemma LeastExists(b: Bitboard)
    requires b != {}
    ensures exists s: Square :: s in b && forall t | t in b :: s <= t
  {
    var s := LeastOf(b);
  }

  /** What MakeMove destroys and the move alone cannot give back; a null move has no move. */
  datatype Undo = Undo(
    move: Option<Move>,
    captured: Option<Piece>,
    castling: set<Right>,
    ep: Option<Square>,
    halfmove: int,
    key: Word)

  function CapturedBy(p: Pos, m: Move): Option<Piece> {
    if m.EnPassant? then Some(Piece(p.side.Opposite(), Pawn))
    else if !m.Castling? && m.to in p.board then Some(p.board[m.to])
    else None
  }

  /** Passing the turn (MakeNullMove). */
  function PassTurn(p: Pos): Pos {
    Pos(p.board, p.side.Opposite(), p.castling, None, 0, if p.side.Black? then p.fullmove + 1 else p.fullmove, p.setup)
  }

  /** One entry of a game: the position, and the move played in it, if it was not a pass. */
  datatype Entry = Entry(pos: Pos, move: Option<Move>)

  lemma UndoRemembers(z: Tables, p: Pos, m: Option<Move>)
    ensures var u := UndoOf(z, Entry(p, m));
      && u.move == m && (m.Some? ==> u.captured == CapturedBy(p, m.value))
      && u.castling == p.castling && u.ep == p.ep && u.halfmove == p.halfmove && u.key == PosKey(z, p)
  {
  }

  ghost predicate Playable(e: Entry) {
    Valid(e.pos) && match e.move
      case Some(m) => Legal(e.pos, m)
      case None => !InCheck(e.pos)
  }

  ghost function After(e: Entry): Pos
    requires Playable(e)
  {
    match e.move
    case Some(m) => Apply(e.pos, m)
    case None => PassTurn(e.pos)
  }

  function UndoOf(z: Tables, e: Entry): Undo {
    Undo(e.move,
      if e.move.Some? then CapturedBy(e.pos, e.move.value) else None,
      e.pos.castling, e.pos.ep, e.pos.halfmove, PosKey(z, e.pos))
  }

  /** The undo records are those of the past, entry by entry, and the past is a run of legal moves and
      passes, each made in a valid position, that ends in now. */
  ghost predicate RecordOf(z: Tables, history: seq<Undo>, past: seq<Entry>, now: Pos)
    decreases |past|
  {
    && |history| == |past|
    && (past != [] ==>
         var n := |past| - 1;
         && history[n] == UndoOf(z, past[n])
         && Playable(past[n]) && now == After(past[n])
         && RecordOf(z, history[..n], past[..n], past[n].pos))
  }

  ghost predicate Sound(z: Tables, history: seq<Undo>, past: seq<Entry>, now: Pos) {
    Valid(now) && RecordOf(z, history, past, now)
  }

  lemma PassKeepsValid(p: Pos)
    requires Valid(p) && !InCheck(p)
    ensures Valid(PassTurn(p))
  {
    var q := PassTurn(p);
    forall r | r in q.castling ensures RightAtHome(q, r) { assert RightAtHome(p, r); }
  }

  /** What the board must look like for MakeMove's steps to find and not overwrite men. */
  ghost predicate Liftable(b: Board, us: Color, m: Move) {
    && m.from in b && b[m.from].color == us && m.from != m.to
    && match m
       case EnPassant(from, to) =>
         b[from].kind.Pawn? && to !in b && Has(b, Before(us, to), Piece(us.Opposite(), Pawn)) &&
           OnBoard(File(to), Rank(to) - Forward(us))
       case Castling(from, to) =>
         var r := RightOf(us, m);
         && Has(b, from, Piece(us, King)) && Has(b, to, Piece(us, Rook))
         && (KingTo(r) in b ==> KingTo(r) == from || KingTo(r) == to)
         && (RookTo(r) in b ==> RookTo(r) == from || RookTo(r) == to)
       case Normal(from, to) => (to in b ==> b[to].color == us.Opposite())
       case Promotion(from, to, promo) => b[from].kind.Pawn? && (to in b ==> b[to].color == us.Opposite())
  }

  lemma LegalIsLiftable(p: Pos, m: Move)
    requires Valid(p) && PseudoLegal(p, m)
    ensures Liftable(p.board, p.side, m)
  {
    if m.Castling? {
      CastlingIsReady(p, m);
      CastlingTurnsOnTheRook(p, m.from, RightOf(p.side, m));
    }
  }

  function AllRights(): set<Right> {
    {Right(White, true), Right(White, false), Right(Black, true), Right(Black, false)}
  }

  function EmptyPos(): Pos { Pos(map[], White, {}, None, 0, 1, Setup(map[], map[], FullMask())) }

  function FullMask(): map<Square, set<Right>> { map s: Square | File(s) >= 0 :: AllRights() }

  /** Piece-type and colour bitboards say what the mailbox says. */
  ghost predicate ViewsOf(b: Board, byType: map<Kind, Bitboard>, byColor: map<Color, Bitboard>) {
    && (forall k: Kind :: k in byType && byType[k] == MenOfKind(b, k))
    && (forall c: Color :: c in byColor && byColor[c] == Men(b, c))
  }

  const NO_KINDS: map<Kind, Bitboard> :=
      map[Pawn := {}, Knight := {}, Bishop := {}, Rook := {}, Queen := {}, King := {}]
  const NO_COLORS: map<Color, Bitboard> := map[White := {}, Black := {}]

  lemma NoMen()
    ensures ViewsOf(map[], NO_KINDS, NO_COLORS)
  {
    forall k: Kind ensures k in NO_KINDS && NO_KINDS[k] == MenOfKind(map[], k) {
      assert MenOfKind(map[], k) == {};
      match k case Pawn => case Knight => case Bishop => case Rook => case Queen => case King =>
    }
    forall c: Color ensures c in NO_COLORS && NO_COLORS[c] == Men(map[], c) {
      assert Men(map[], c) == {};
      match c case White => case Black =>
    }
  }

  lemma PutKeepsViews(b: Board, byType: map<Kind, Bitboard>, byColor: map<Color, Bitboard>, s: Square, pc: Piece)
    requires ViewsOf(b, byType, byColor) && s !in b
    ensures ViewsOf(b[s := pc], byType[pc.kind := byType[pc.kind] + {s}], byColor[pc.color := byColor[pc.color] + {s}])
  {
    var c := b[s := pc];
    forall k: Kind ensures MenOfKind(c, k) == if k == pc.kind then MenOfKind(b, k) + {s} else MenOfKind(b, k) {
    }
    forall d: Color ensures Men(c, d) == if d == pc.color then Men(b, d) + {s} else Men(b, d) {
    }
  }

  lemma RemoveKeepsViews(b: Board, byType: map<Kind, Bitboard>, byColor: map<Color, Bitboard>, s: Square)
    requires ViewsOf(b, byType, byColor) && s in b
    ensures ViewsOf(b - {s}, byType[b[s].kind := byType[b[s].kind] - {s}],
      byColor[b[s].color := byColor[b[s].color] - {s}])
  {
    var c := b - {s};
    forall k: Kind ensures MenOfKind(c, k) == if k == b[s].kind then MenOfKind(b, k) - {s} else MenOfKind(b, k) {
    }
    forall d: Color ensures Men(c, d) == if d == b[s].color then Men(b, d) - {s} else Men(b, d) {
    }
  }

  function Toggle(b: Bitboard, delta: Bitboard): Bitboard { (b - delta) + (delta - b) }

  lemma MoveKeepsViews(b: Board, byType: map<Kind, Bitboard>, byColor: map<Color, Bitboard>, from: Square, to: Square)
    requires ViewsOf(b, byType, byColor) && from in b && to !in b
    ensures var pc := b[from];
      ViewsOf((b - {from})[to := pc], byType[pc.kind := Toggle(byType[pc.kind], {from, to})],
        byColor[pc.color := Toggle(byColor[pc.color], {from, to})])
  {
    var pc := b[from];
    RemoveKeepsViews(b, byType, byColor, from);
    var byType', byColor' :=
      byType[pc.kind := byType[pc.kind] - {from}], byColor[pc.color := byColor[pc.color] - {from}];
    PutKeepsViews(b - {from}, byType', byColor', to, pc);
    assert Toggle(byType[pc.kind], {from, to}) == byType'[pc.kind] + {to};
    assert Toggle(byColor[pc.color], {from, to}) == byColor'[pc.color] + {to};
  }

  class Position {
    const z: Tables

    var byType: map<Kind, Bitboard>
    var byColor: map<Color, Bitboard>
    var board: Board

    var side: Color
    var castling: set<Right>
    var ep: Option<Square>
    var halfmove: int
    var fullmove: int
    var key: Word

    var castlingRook: map<Right, Square>
    var castlingPath: map<Right, Bitboard>
    var crMask: map<Square, set<Right>>

    var history: seq<Undo>
    /** The positions the history entries were recorded in. */
    ghost var past: seq<Entry>

    /** Clone: an independent copy that shares no state. */
    constructor Clone(p: Position)
      requires p.Consistent()
      ensures Consistent() && Model() == p.Model() && z == p.z && history == p.history && past == p.past
    {
      z := p.z;
      byType, byColor, board := p.byType, p.byColor, p.board;
      side, castling, ep := p.side, p.castling, p.ep;
      halfmove, fullmove, key := p.halfmove, p.fullmove, p.key;
      castlingRook, castlingPath, crMask := p.castlingRook, p.castlingPath, p.crMask;
      history, past := p.history, p.past;
    }

    /** emptyPosition: no men, no rights, nothing played. */
    constructor Empty(z: Tables)
      ensures Views() && this.z == z && history == [] && past == []
      ensures Model() == EmptyPos()
    {
      this.z := z;
      byType, byColor, board := NO_KINDS, NO_COLORS, map[];
      side, castling, ep := White, {}, None;
      halfmove, fullmove, key := 0, 1, {};
      castlingRook, castlingPath, crMask := map[], map[], FullMask();
      history, past := [], [];
      NoMen();
    }

    /** The three views of the board agree. */
    ghost predicate Views()
      reads this`board, this`byType, this`byColor
    {
      ViewsOf(board, byType, byColor)
    }

    ghost predicate KeyAgrees()
      reads this`board, this`castling, this`ep, this`side, this`key
    {
      key == KeyOf(z, board, castling, ep, side)
    }

    function Model(): Pos
      reads this
    {
      Pos(board, side, castling, ep, halfmove, fullmove, Setup(castlingRook, castlingPath, crMask))
    }

    ghost predicate Consistent()
      reads this
    {
      Views() && KeyAgrees() && Sound(z, history, past, Model())
    }

    function Occupied(): Bitboard
      requires White in byColor && Black in byColor
      reads this
    {
      byColor[White] + byColor[Black]
    }

    lemma OccupiedIsBoard()
      requires Views()
      ensures Occupied() == board.Keys
    {
    }

    function PiecesOf(c: Color, k: Kind): Bitboard
      requires c in byColor && k in byType
      reads this
    {
      byColor[c] * byType[k]
    }

    // ---- moving men

    method PutPiece(pc: Piece, s: Square)
      requires Views() && s !in board
      modifies this`byType, this`byColor, this`board, this`key
      ensures Views() && (old(KeyAgrees()) ==> KeyAgrees()) && board == old(board)[s := pc]
    {
      PutKeepsViews(board, byType, byColor, s, pc);
      PutChangesKey(z, board, s, pc, castling, ep, side);
      board := board[s := pc];
      byType := byType[pc.kind := byType[pc.kind] + {s}];
      byColor := byColor[pc.color := byColor[pc.color] + {s}];
      key := Xor(key, z.pieces(pc, s));
    }

    method RemovePiece(s: Square)
      requires Views() && s in board
      modifies this`byType, this`byColor, this`board, this`key
      ensures Views() && (old(KeyAgrees()) ==> KeyAgrees()) && board == old(board) - {s}
    {
      var pc := board[s];
      RemoveKeepsViews(board, byType, byColor, s);
      RemoveChangesKey(z, board, s, castling, ep, side);
      board := board - {s};
      byType := byType[pc.kind := byType[pc.kind] - {s}];
      byColor := byColor[pc.color := byColor[pc.color] - {s}];
      key := Xor(key, z.pieces(pc, s));
    }

    method MovePiece(from: Square, to: Square)
      requires Views() && from in board && to !in board
      modifies this`byType, this`byColor, this`board, this`key
      ensures Views() && (old(KeyAgrees()) ==> KeyAgrees()) && board == (old(board) - {from})[to := old(board)[from]]
    {
      var pc := board[from];
      MoveKeepsViews(board, byType, byColor, from, to);
      RemoveChangesKey(z, board, from, castling, ep, side);
      PutChangesKey(z, board - {from}, to, pc, castling, ep, side);
      XorAssociates(key, z.pieces(pc, from), z.pieces(pc, to));
      var delta := {from, to};
      board := (board - {from})[to := pc];
      byType := byType[pc.kind := Toggle(byType[pc.kind], delta)];
      byColor := byColor[pc.color := Toggle(byColor[pc.color], delta)];
      key := Xor(key, Xor(z.pieces(pc, from), z.pieces(pc, to)));
    }

    // ---- asking about attacks

    /** The source's formula: leaper tables and sliders looked at from s. */
    function AttackersTo(s: Square, occ: Bitboard): Bitboard
      requires Views()
      reads this
    {
      (PawnAttacks(Black, s) * byColor[White] * byType[Pawn]) +
      (PawnAttacks(White, s) * byColor[Black] * byType[Pawn]) +
      (KnightAttacks(s) * byType[Knight]) +
      (KingAttacks(s) * byType[King]) +
      (RookAttacks(s, occ) * (byType[Rook] + byType[Queen])) +
      (BishopAttacks(s, occ) * (byType[Bishop] + byType[Queen]))
    }

    lemma AttackerHere(e: Square, s: Square, occ: Bitboard)
      requires Views() && e in board
      ensures e in AttackersTo(s, occ) <==> Attacks(board[e], e, s, occ)
    {
      AttackReversed(board[e], e, s, occ);
      assert forall k: Kind :: e in byType[k] <==> board[e].kind == k;
      assert forall c: Color :: e in byColor[c] <==> board[e].color == c;
    }

    /** It yields the men that attack s. */
    lemma AttackersToExactly(s: Square, occ: Bitboard, c: Color)
      requires Views()
      ensures AttackersTo(s, occ) * byColor[c] == Attackers(board, s, c, occ)
    {
      forall e: Square | e in board
        ensures e in AttackersTo(s, occ) <==> Attacks(board[e], e, s, occ)
      {
        AttackerHere(e, s, occ);
      }
    }

    /** KingSquare: the first of the king bitboard. */
    function KingSquareOf(c: Color): (k: Square)
      requires Views() && OneKing(board, c)
      reads this
      ensures IsKing(board, c, k) && forall j | IsKing(board, c, j) :: j == k
    {
      assert IsKing(board, c, KingSquare(board, c));
      assert KingSquare(board, c) in PiecesOf(c, King);
      assert IsKing(board, c, First(PiecesOf(c, King)));
      First(PiecesOf(c, King))
    }

    /** enPassantLegal, with the four tests on bitboards. */
    predicate EnPassantLegal(from: Square, to: Square, us: Color, ksq: Square, occ: Bitboard)
      requires Views()
      reads this
    {
      var capSq := Before(us, to);
      var occAfter := (occ - {from} - {capSq}) + {to};
      var theirs := byColor[us.Opposite()];
      && RookAttacks(ksq, occAfter) * (byType[Rook] + byType[Queen]) * theirs == {}
      && BishopAttacks(ksq, occAfter) * (byType[Bishop] + byType[Queen]) * theirs == {}
      && KnightAttacks(ksq) * byType[Knight] * theirs == {}
      && PawnAttacks(us, ksq) * byType[Pawn] * theirs - {capSq} == {}
    }

    lemma EnPassantLegalExactly(from: Square, to: Square, us: Color, ksq: Square)
      requires Views()
      ensures EnPassantLegal(from, to, us, ksq, Occupied()) <==> EpLeavesKingSafe(board, us, from, to, ksq)
    {
      OccupiedIsBoard();
      var occAfter := OccupiedAfterEp(board, us, from, to);
      var theirs := byColor[us.Opposite()];
      forall e | e in board && board[e].color == us.Opposite()
        ensures EpThreat(board, us, from, to, ksq, e) <==>
          || e in RookAttacks(ksq, occAfter) * (byType[Rook] + byType[Queen]) * theirs
          || e in BishopAttacks(ksq, occAfter) * (byType[Bishop] + byType[Queen]) * theirs
          || e in KnightAttacks(ksq) * byType[Knight] * theirs
          || e in PawnAttacks(us, ksq) * byType[Pawn] * theirs - {Before(us, to)}
      {
      }
    }

    /** Looks for a pawn that may capture on epSq, one candidate at a time. */
    method EpCaptureAvailable(epSq: Square, capturer: Color) returns (available: bool)
      requires Views() && OneKing(board, capturer) && KingsApart(board)
      ensures available <==> EpAvailable(board, capturer, epSq)
    {
      if epSq in board { return false; }
      var them := capturer.Opposite();
      var capSq := Before(capturer, epSq);
      if !Has(board, capSq, Piece(them, Pawn)) { return false; }
      var candidates := PawnAttacks(them, epSq) * PiecesOf(capturer, Pawn);
      var ksq := KingSquareOf(capturer);
      var occ := Occupied();
      while candidates != {}
        invariant candidates <= PawnAttacks(them, epSq) * PiecesOf(capturer, Pawn)
        invariant forall s | s in PawnAttacks(them, epSq) * PiecesOf(capturer, Pawn) - candidates ::
          !EpCapture(board, capturer, s, epSq)
        decreases candidates
      {
        var from := First(candidates);
        candidates := candidates - {from};
        EpTestIsMakeAndTest(board, capturer, from, epSq, ksq);
        EnPassantLegalExactly(from, epSq, capturer, ksq);
        if EnPassantLegal(from, epSq, capturer, ksq, occ) {
          assert EpCapture(board, capturer, from, epSq);
          return true;
        }
      }
      forall s: Square ensures !EpCapture(board, capturer, s, epSq) {
        if Has(board, s, Piece(capturer, Pawn)) && PawnStep(capturer, s, epSq) {
          assert s in PawnAttacks(them, epSq) * PiecesOf(capturer, Pawn);
        }
      }
      return false;
    }

    // ---- making a move

    /** Castling takes king and rook off the board before it puts either back. */
    method CastleOnBoard(from: Square, to: Square)
      requires Views() && KeyAgrees() && Liftable(board, side, Castling(from, to))
      modifies this`byType, this`byColor, this`board, this`key
      ensures Views() && KeyAgrees() && board == BoardAfter(old(board), side, Castling(from, to))
    {
      var r := RightOf(side, Castling(from, to));
      RemovePiece(from);
      RemovePiece(to);
      assert board == old(board) - {from, to};
      PutPiece(Piece(side, King), KingTo(r));
      PutPiece(Piece(side, Rook), RookTo(r));
    }

    method TakeEnPassant(from: Square, to: Square)
      requires Views() && KeyAgrees() && Liftable(board, side, EnPassant(from, to))
      modifies this`byType, this`byColor, this`board, this`key
      ensures Views() && KeyAgrees() && board == BoardAfter(old(board), side, EnPassant(from, to))
    {
      RemovePiece(Before(side, to));
      MovePiece(from, to);
      assert (old(board) - {Before(side, to)}) - {from} == old(board) - {from, Before(side, to)};
    }

    method Promote(from: Square, to: Square, promo: Kind, captures: bool)
      requires Views() && KeyAgrees() && Liftable(board, side, Promotion(from, to, promo)) && captures == (to in board)
      modifies this`byType, this`byColor, this`board, this`key
      ensures Views() && KeyAgrees() && board == BoardAfter(old(board), side, Promotion(from, to, promo))
    {
      if captures {
        RemovePiece(to);
      }
      RemovePiece(from);
      PutPiece(Piece(side, promo), to);
    }

    method Carry(from: Square, to: Square, captures: bool)
      requires Views() && KeyAgrees() && Liftable(board, side, Normal(from, to)) && captures == (to in board)
      modifies this`byType, this`byColor, this`board, this`key
      ensures Views() && KeyAgrees() && board == BoardAfter(old(board), side, Normal(from, to))
    {
      if captures {
        RemovePiece(to);
      }
      MovePiece(from, to);
    }

    /** The switch of MakeMove: captures and pawn moves restart the clock. */
    method PlayOnBoard(m: Move, captured: Option<Piece>)
      requires Views() && KeyAgrees() && Liftable(board, side, m) && captured == CapturedBy(Model(), m)
      modifies this`byType, this`byColor, this`board, this`key, this`halfmove
      ensures Views() && KeyAgrees() && board == BoardAfter(old(board), side, m)
      ensures halfmove == if IsCapture(old(board), m) || IsPawnMove(old(board), m) then 0 else old(halfmove) + 1
    {
      var moved := board[m.from];
      halfmove := halfmove + 1;
      match m {
        case Castling(from, to) =>
          CastleOnBoard(from, to);
        case EnPassant(from, to) =>
          TakeEnPassant(from, to);
          halfmove := 0;
        case Promotion(from, to, promo) =>
          Promote(from, to, promo, captured.Some?);
          halfmove := 0;
        case Normal(from, to) =>
          Carry(from, to, captured.Some?);
          if captured.Some? || moved.kind.Pawn? {
            halfmove := 0;
          }
      }
    }

    /** A double push records its target, but only if it can be captured on. */
    method RecordDoublePush(m: Move, ghost before: Board)
      requires Views() && KeyAgrees() && ep.None? && PushReady(before, board, side, m)
      modifies this`ep, this`key
      ensures Views() && KeyAgrees() && ep == EpAfter(before, side, m)
    {
      hide ViewsOf, KeyOf, BoardAfter, OneKing, KingsApart, EpAvailable, Rank;
      if m.Normal? && board[m.to].kind.Pawn? && Abs(m.to - m.from) == 16 {
        var epSq := m.from + 8 * Forward(side);
        var available := EpCaptureAvailable(epSq, side.Opposite());
        if available {
          EpChangesKey(z, board, castling, epSq, side);
          ep := Some(epSq);
          key := Xor(key, z.epFile(File(epSq)));
        }
      }
    }

    method ClearEp()
      requires Views() && KeyAgrees()
      modifies this`ep, this`key
      ensures Views() && KeyAgrees() && ep.None?
    {
      if ep.Some? {
        EpChangesKey(z, board, castling, ep.value, side);
        key := Xor(key, z.epFile(File(ep.value)));
        ep := None;
      }
    }

    /** Touching a king or rook home square, by leaving it or by landing on it, revokes the right. */
    method RevokeRights(from: Square, to: Square)
      requires Views() && KeyAgrees() && from in crMask && to in crMask
      modifies this`castling, this`key
      ensures Views() && KeyAgrees() && castling == old(castling) * crMask[from] * crMask[to]
    {
      if castling != {} {
        var newRights := castling * crMask[from] * crMask[to];
        if newRights != castling {
          RightsChangeKey(z, board, castling, newRights, ep, side);
          key := Xor(key, Xor(z.castling(castling), z.castling(newRights)));
          castling := newRights;
        }
      }
    }

    method HandOver()
      requires Views() && KeyAgrees()
      modifies this`fullmove, this`side, this`key
      ensures Views() && KeyAgrees() && side == old(side).Opposite()
      ensures fullmove == if old(side).Black? then old(fullmove) + 1 else old(fullmove)
    {
      if side.Black? {
        fullmove := fullmove + 1;
      }
      SideChangesKey(z, board, castling, ep, side);
      side := side.Opposite();
      key := Xor(key, z.side);
    }

    method MoveMen(m: Move)
      requires Views() && KeyAgrees() && Liftable(board, side, m)
      modifies this`byType, this`byColor, this`board, this`key, this`halfmove, this`ep
      ensures Views() && KeyAgrees() && board == BoardAfter(old(board), side, m) && ep.None?
      ensures halfmove == if IsCapture(old(board), m) || IsPawnMove(old(board), m) then 0 else old(halfmove) + 1
    {
      var captured := if m.EnPassant? then Some(Piece(side.Opposite(), Pawn))
                      else if !m.Castling? && m.to in board then Some(board[m.to])
                      else None;
      ClearEp();
      PlayOnBoard(m, captured);
    }

    /** The end of MakeMove, once the men stand where they belong. */
    method FinishTurn(m: Move, ghost before: Board)
      requires Views() && KeyAgrees() && ep.None? && PushReady(before, board, side, m)
      requires m.from in crMask && m.to in crMask
      modifies this`key, this`ep, this`castling, this`fullmove, this`side
      ensures Views() && KeyAgrees()
      ensures castling == old(castling) * crMask[m.from] * crMask[m.to]
      ensures ep == EpAfter(before, old(side), m)
      ensures side == old(side).Opposite()
      ensures fullmove == if old(side).Black? then old(fullmove) + 1 else old(fullmove)
    {
      RecordDoublePush(m, before);
      RevokeRights(m.from, m.to);
      HandOver();
    }

    /** MakeMove without its history entry. */
    method Transition(m: Move)
      requires Views() && KeyAgrees() && MakeReady(Model(), m)
      modifies this`byType, this`byColor, this`board, this`key, this`halfmove, this`ep, this`castling, this`fullmove,
        this`side
      ensures Views() && KeyAgrees() && Model() == Apply(old(Model()), m)
    {
      hide ViewsOf, KeyOf;
      ghost var before := board;
      MoveMen(m);
      FinishTurn(m, before);
    }

    /** Everything MakeMove is about to destroy goes into the history first. */
    method RecordMove(m: Move)
      requires KeyAgrees()
      modifies this`history, this`past
      ensures past == old(past) + [Entry(Model(), Some(m))]
      ensures history == old(history) + [UndoOf(z, Entry(Model(), Some(m)))]
    {
      var captured := if m.EnPassant? then Some(Piece(side.Opposite(), Pawn))
                      else if !m.Castling? && m.to in board then Some(board[m.to])
                      else None;
      history := history + [Undo(Some(m), captured, castling, ep, halfmove, key)];
      past := past + [Entry(Model(), Some(m))];
    }

    method MakeMove(m: Move)
      requires Consistent() && Legal(Model(), m)
      modifies this
      ensures Consistent()
      ensures Model() == Apply(old(Model()), m)
      ensures past == old(past) + [Entry(old(Model()), Some(m))]
      ensures history == old(history) + [UndoOf(z, Entry(old(Model()), Some(m)))]
    {
      hide Sound, ViewsOf, KeyOf;
      ghost var p := Model();
      MoveIsSound(z, history, past, p, m);
      RecordMove(m);
      Transition(m);
    }

    // ---- taking it back

    method UncastleOnBoard(from: Square, to: Square, ghost before: Board)
      requires Views() && Liftable(before, side, Castling(from, to)) &&
        board == BoardAfter(before, side, Castling(from, to))
      modifies this`byType, this`byColor, this`board, this`key
      ensures Views() && board == before
    {
      hide ViewsOf, KeyOf;
      var r := RightOf(side, Castling(from, to));
      RemovePiece(KingTo(r));
      RemovePiece(RookTo(r));
      assert board == before - {from, to};
      PutPiece(Piece(side, King), from);
      PutPiece(Piece(side, Rook), to);
    }

    method UntakeEnPassant(from: Square, to: Square, ghost before: Board)
      requires Views() && Liftable(before, side, EnPassant(from, to)) &&
        board == BoardAfter(before, side, EnPassant(from, to))
      modifies this`byType, this`byColor, this`board, this`key
      ensures Views() && board == before
    {
      MovePiece(to, from);
      PutPiece(Piece(side.Opposite(), Pawn), Before(side, to));
    }

    method Demote(from: Square, to: Square, promo: Kind, captured: Option<Piece>, ghost before: Board)
      requires Views() && Liftable(before, side, Promotion(from, to, promo)) &&
        board == BoardAfter(before, side, Promotion(from, to, promo))
      requires captured == if to in before then Some(before[to]) else None
      modifies this`byType, this`byColor, this`board, this`key
      ensures Views() && board == before
    {
      hide ViewsOf, KeyOf;
      RemovePiece(to);
      PutPiece(Piece(side, Pawn), from);
      if captured.Some? {
        PutPiece(captured.value, to);
      }
    }

    method CarryBack(from: Square, to: Square, captured: Option<Piece>, ghost before: Board)
      requires Views() && Liftable(before, side, Normal(from, to)) &&
        board == BoardAfter(before, side, Normal(from, to))
      requires captured == if to in before then Some(before[to]) else None
      modifies this`byType, this`byColor, this`board, this`key
      ensures Views() && board == before
    {
      MovePiece(to, from);
      if captured.Some? {
        PutPiece(captured.value, to);
      }
    }

    /** UnmakeMove's switch: the men go back where the recorded move found them. */
    method RestoreMen(m: Move, captured: Option<Piece>, ghost before: Pos)
      requires Views() && before.side == side && Liftable(before.board, side, m)
      requires board == BoardAfter(before.board, side, m) && captured == CapturedBy(before, m)
      modifies this`byType, this`byColor, this`board, this`key
      ensures Views() && board == before.board
    {
      match m {
        case Castling(from, to) => UncastleOnBoard(from, to, before.board);
        case EnPassant(from, to) => UntakeEnPassant(from, to, before.board);
        case Promotion(from, to, promo) => Demote(from, to, promo, captured, before.board);
        case Normal(from, to) => CarryBack(from, to, captured, before.board);
      }
    }

    /** UnmakeMove without its history: the saved fields come back, and the saved key is authoritative. */
    method TakeBack(u: Undo, ghost before: Pos)
      requires Views() && u.move.Some? && u == UndoOf(z, Entry(before, u.move))
      requires Liftable(before.board, before.side, u.move.value) &&
        board == BoardAfter(before.board, before.side, u.move.value)
      requires side == before.side.Opposite() && Model().setup == before.setup
      requires fullmove == if before.side.Black? then before.fullmove + 1 else before.fullmove
      modifies this`byType, this`byColor, this`board, this`key, this`side, this`fullmove, this`castling, this`ep,
        this`halfmove
      ensures Views() && KeyAgrees() && Model() == before
    {
      hide ViewsOf, Liftable, BoardAfter, CapturedBy, PosKey, UndoOf, Position.KeyAgrees, KeyOf;
      UndoRemembers(z, before, u.move);
      side := side.Opposite();
      RestoreMen(u.move.value, u.captured, before);
      RestoreRest(u, before);
    }

    /** The fields that the move alone cannot give back, and the saved key, which is authoritative. */
    method RestoreRest(u: Undo, ghost before: Pos)
      requires u == UndoOf(z, Entry(before, u.move))
      requires board == before.board && side == before.side && Model().setup == before.setup
      requires fullmove == if before.side.Black? then before.fullmove + 1 else before.fullmove
      modifies this`fullmove, this`castling, this`ep, this`halfmove, this`key
      ensures KeyAgrees() && Model() == before
    {
      hide PosKey, UndoOf, Position.KeyAgrees, CapturedBy, KeyOf;
      UndoRemembers(z, before, u.move);
      if side.Black? {
        fullmove := fullmove - 1;
      }
      castling := u.castling;
      ep := u.ep;
      halfmove := u.halfmove;
      key := u.key;
      KeyOfModel(before);
    }

    lemma KeyOfModel(now: Pos)
      requires Model() == now && key == PosKey(z, now)
      ensures KeyAgrees()
    {
    }

    /** UnmakeMove gives back the position the last move was made in, and forgets the move. */
    method UnmakeMove()
      requires Consistent() && history != [] && history[|history| - 1].move.Some?
      modifies this
      ensures Consistent()
      ensures Model() == old(past)[|old(past)| - 1].pos
      ensures past == old(past)[..|old(past)| - 1] && history == old(history)[..|old(history)| - 1]
    {
      hide Sound, ViewsOf, KeyOf;
      UnmakeIsSound(z, history, past, Model());
      var n := |history| - 1;
      var u := history[n];
      ghost var before := past[n].pos;
      history := history[..n];
      past := past[..n];
      TakeBack(u, before);
    }

    // ---- passing

    method MakeNullMove()
      requires Consistent() && !InCheck(Model())
      modifies this
      ensures Consistent()
      ensures Model() == PassTurn(old(Model()))
      ensures past == old(past) + [Entry(old(Model()), None)]
      ensures history == old(history) + [UndoOf(z, Entry(old(Model()), None))]
    {
      hide Sound, ViewsOf, KeyOf;
      PassIsSound(z, history, past, Model());
      history := history + [Undo(None, None, castling, ep, halfmove, key)];
      past := past + [Entry(Model(), None)];
      ClearEp();
      halfmove := 0;
      HandOver();
    }

    method TakeBackPass(u: Undo, ghost before: Pos)
      requires Views() && u.move.None? && u == UndoOf(z, Entry(before, None)) && board == before.board
      requires side == before.side.Opposite() && Model().setup == before.setup
      requires fullmove == if before.side.Black? then before.fullmove + 1 else before.fullmove
      modifies this`key, this`side, this`fullmove, this`castling, this`ep, this`halfmove
      ensures Views() && KeyAgrees() && Model() == before
    {
      hide ViewsOf, KeyOf, PosKey, UndoOf, Position.KeyAgrees;
      side := side.Opposite();
      RestoreRest(u, before);
    }

    method UnmakeNullMove()
      requires Consistent() && history != [] && history[|history| - 1].move.None?
      modifies this
      ensures Consistent()
      ensures Model() == old(past)[|old(past)| - 1].pos
      ensures past == old(past)[..|old(past)| - 1] && history == old(history)[..|old(history)| - 1]
    {
      hide Sound, ViewsOf, KeyOf;
      UnpassIsSound(z, history, past, Model());
      var n := |history| - 1;
      var u := history[n];
      ghost var before := past[n].pos;
      history := history[..n];
      past := past[..n];
      TakeBackPass(u, before);
    }
  }

  /** What recording a double push relies on: after is the board m produced. */
  ghost predicate PushReady(before: Board, after: Board, us: Color, m: Move) {
    && m.from in before && after == BoardAfter(before, us, m)
    && (m.Normal? ==> m.to in after && after[m.to] == before[m.from])
    && OneKing(after, us.Opposite()) && KingsApart(after)
    && (IsDoublePush(before, m) ==>
         0 <= m.from + 8 * Forward(us) < 64 && m.from + 8 * Forward(us) == Before(us, m.to))
  }

  /** What the steps of MakeMove rely on. */
  ghost predicate MakeReady(p: Pos, m: Move) {
    && Liftable(p.board, p.side, m)
    && m.from in p.setup.mask && m.to in p.setup.mask
    && PushReady(p.board, BoardAfter(p.board, p.side, m), p.side, m)
  }

  lemma LegalIsMakeReady(p: Pos, m: Move)
    requires Valid(p) && Legal(p, m)
    ensures MakeReady(p, m)
  {
    LegalIsLiftable(p, m);
    LegalMoveKeepsValid(p, m);
    KingsAreApart(Apply(p, m));
    if IsDoublePush(p.board, m) { SixteenIsDoublePush(p, m); }
  }

  lemma MoveIsSound(z: Tables, history: seq<Undo>, past: seq<Entry>, p: Pos, m: Move)
    requires Sound(z, history, past, p) && Legal(p, m)
    ensures MakeReady(p, m)
    ensures Sound(z, history + [UndoOf(z, Entry(p, Some(m)))], past + [Entry(p, Some(m))], Apply(p, m))
  {
    LegalIsMakeReady(p, m);
    LegalMoveKeepsValid(p, m);
    RecordGrows(z, history, past, p, Some(m));
  }

  lemma RecordGrows(z: Tables, history: seq<Undo>, past: seq<Entry>, p: Pos, move: Option<Move>)
    requires RecordOf(z, history, past, p) && Playable(Entry(p, move))
    ensures RecordOf(z, history + [UndoOf(z, Entry(p, move))], past + [Entry(p, move)], After(Entry(p, move)))
  {
    assert (history + [UndoOf(z, Entry(p, move))])[..|history|] == history;
    assert (past + [Entry(p, move)])[..|past|] == past;
  }

  lemma PassIsSound(z: Tables, history: seq<Undo>, past: seq<Entry>, p: Pos)
    requires Sound(z, history, past, p) && !InCheck(p)
    ensures Sound(z, history + [UndoOf(z, Entry(p, None))], past + [Entry(p, None)], PassTurn(p))
  {
    PassKeepsValid(p);
    RecordGrows(z, history, past, p, None);
  }

  lemma UnmakeIsSound(z: Tables, history: seq<Undo>, past: seq<Entry>, now: Pos)
    requires Sound(z, history, past, now) && history != [] && history[|history| - 1].move.Some?
    ensures |past| == |history|
    ensures var n := |history| - 1;
      var before := past[n].pos;
      && history[n] == UndoOf(z, past[n])
      && past[n].move == history[n].move
      && Liftable(before.board, before.side, past[n].move.value)
      && now.board == BoardAfter(before.board, before.side, past[n].move.value)
      && now.side == before.side.Opposite() && now.setup == before.setup
      && now.fullmove == (if before.side.Black? then before.fullmove + 1 else before.fullmove)
      && Sound(z, history[..n], past[..n], before)
  {
    var n := |history| - 1;
    LegalIsLiftable(past[n].pos, past[n].move.value);
  }

  lemma UnpassIsSound(z: Tables, history: seq<Undo>, past: seq<Entry>, now: Pos)
    requires Sound(z, history, past, now) && history != [] && history[|history| - 1].move.None?
    ensures |past| == |history|
    ensures var n := |history| - 1;
      && history[n] == UndoOf(z, past[n])
      && now.board == past[n].pos.board && now.setup == past[n].pos.setup && now.side == past[n].pos.side.Opposite()
      && now.fullmove == (if past[n].pos.side.Black? then past[n].pos.fullmove + 1 else past[n].pos.fullmove)
      && Sound(z, history[..n], past[..n], past[n].pos)
  {
  }
}
