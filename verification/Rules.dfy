/** The rules of play on values: what a position is, what a move does to it, which moves the FIDE Laws
    (articles 3.2 to 3.9) allow, and the invariant every reachable position keeps. Nothing here is fast;
    the engine's generator, make and unmake are proved against these definitions. */
module Rules {
  import opened Squares

  type Board = map<Square, Piece>

  /** One castling privilege; the engine's four indices. */
  datatype Right = Right(color: Color, kingSide: bool)

  /** A move as the engine encodes it: castling names the rook's square, en passant the landing square. */
  datatype Move =
    | Normal(from: Square, to: Square)
    | Promotion(from: Square, to: Square, promo: Kind)
    | EnPassant(from: Square, to: Square)
    | Castling(from: Square, to: Square)

  /** The per-position castling tables: rook origins, squares that must be empty, surviving rights. */
  datatype Setup = Setup(rook: map<Right, Square>, path: map<Right, Bitboard>, mask: map<Square, set<Right>>)

  datatype Pos = Pos(
    board: Board,
    side: Color,
    castling: set<Right>,
    ep: Option<Square>,
    halfmove: int,
    fullmove: int,
    setup: Setup)

  function Men(b: Board, c: Color): Bitboard { set s | s in b && b[s].color == c }

  function MenOfKind(b: Board, k: Kind): Bitboard { set s | s in b && b[s].kind == k }

  predicate Has(b: Board, s: Square, pc: Piece) { s in b && b[s] == pc }

  predicate IsKing(b: Board, c: Color, k: Square) { Has(b, k, Piece(c, King)) }

  ghost predicate OneKing(b: Board, c: Color) {
    exists k :: IsKing(b, c, k) && forall j | IsKing(b, c, j) :: j == k
  }

  ghost function KingSquare(b: Board, c: Color): (k: Square)
    requires OneKing(b, c)
    ensures IsKing(b, c, k) && forall j | IsKing(b, c, j) :: j == k
  {
    var k :| IsKing(b, c, k) && forall j | IsKing(b, c, j) :: j == k;
    k
  }

  /** The men of one colour that attack s when the squares of occ are taken to be occupied. */
  ghost function Attackers(b: Board, s: Square, foe: Color, occ: Bitboard): Bitboard {
    set e | e in b && b[e].color == foe && Attacks(b[e], e, s, occ)
  }

  ghost predicate Attacked(b: Board, s: Square, foe: Color) { Attackers(b, s, foe, b.Keys) != {} }

  ghost predicate KingSafe(b: Board, c: Color) {
    forall k | IsKing(b, c, k) :: !Attacked(b, k, c.Opposite())
  }

  ghost predicate InCheck(p: Pos) { !KingSafe(p.board, p.side) }

  function BackRank(c: Color): int { if c.White? then 0 else 7 }

  function StartRank(c: Color): int { if c.White? then 1 else 6 }

  function PromotionRank(c: Color): int { if c.White? then 7 else 0 }

  /** The rank of an en passant target when c is about to capture on it. */
  function TargetRank(c: Color): int { if c.White? then 5 else 2 }

  /** The square one pawn step of colour c before s; s itself at the edge, where no pawn move ends. */
  function Before(c: Color, s: Square): Square {
    if OnBoard(File(s), Rank(s) - Forward(c)) then MakeSquare(File(s), Rank(s) - Forward(c)) else s
  }

  /** Where king and rook finish, in classical chess and in Chess960 alike. */
  function KingTo(r: Right): Square { MakeSquare(if r.kingSide then 6 else 2, BackRank(r.color)) }

  function RookTo(r: Right): Square { MakeSquare(if r.kingSide then 5 else 3, BackRank(r.color)) }

  /** The right a castling move uses: kingside when the rook stands to the right of the king. */
  function RightOf(c: Color, m: Move): Right { Right(c, m.to > m.from) }

  /** The squares a king crosses from a to b along its rank, both ends included. */
  predicate OnKingPath(a: Square, s: Square, b: Square) {
    Rank(s) == Rank(a) && (File(a) <= File(s) <= File(b) || File(b) <= File(s) <= File(a))
  }

  function PathOf(kingFrom: Square, rookFrom: Square, r: Right): Bitboard {
    (set s: Square | s == KingTo(r) || s == RookTo(r) || Between(kingFrom, s, KingTo(r)) ||
      Between(rookFrom, s, RookTo(r)))
      - {kingFrom, rookFrom}
  }

  // ---- what a move does

  function BoardAfter(b: Board, us: Color, m: Move): Board
    requires m.from in b
  {
    match m
    case Normal(from, to) => (b - {from})[to := b[from]]
    case Promotion(from, to, promo) => (b - {from})[to := Piece(us, promo)]
    case EnPassant(from, to) => (b - {from, Before(us, to)})[to := b[from]]
    case Castling(from, to) =>
      (b - {from, to})[KingTo(RightOf(us, m)) := Piece(us, King)][RookTo(RightOf(us, m)) := Piece(us, Rook)]
  }

  predicate IsCapture(b: Board, m: Move) {
    m.EnPassant? || (!m.Castling? && m.to in b)
  }

  predicate IsPawnMove(b: Board, m: Move)
    requires m.from in b
  {
    b[m.from].kind.Pawn?
  }

  /** A two-square pawn advance, recognised by its length alone. */
  predicate IsDoublePush(b: Board, m: Move)
    requires m.from in b
  {
    m.Normal? && b[m.from].kind.Pawn? && Abs(m.to - m.from) == 16
  }

  /** Some pawn of the capturer may legally capture en passant on t. */
  ghost predicate EpAvailable(b: Board, capturer: Color, t: Square) {
    && t !in b
    && Has(b, Before(capturer, t), Piece(capturer.Opposite(), Pawn))
    && exists from :: EpCapture(b, capturer, from, t)
  }

  ghost predicate EpCapture(b: Board, capturer: Color, from: Square, t: Square) {
    && Has(b, from, Piece(capturer, Pawn))
    && PawnStep(capturer, from, t)
    && KingSafe(BoardAfter(b, capturer, EnPassant(from, t)), capturer)
  }

  ghost function EpAfter(b: Board, us: Color, m: Move): Option<Square>
    requires m.from in b
  {
    var after := BoardAfter(b, us, m);
    if IsDoublePush(b, m) && EpAvailable(after, us.Opposite(), Before(us, m.to)) then Some(Before(us, m.to)) else None
  }

  function RightsAfter(p: Pos, m: Move): set<Right>
    requires m.from in p.setup.mask && m.to in p.setup.mask
  {
    p.castling * p.setup.mask[m.from] * p.setup.mask[m.to]
  }

  ghost predicate Movable(p: Pos, m: Move) {
    m.from in p.board && m.from in p.setup.mask && m.to in p.setup.mask
  }

  ghost function Apply(p: Pos, m: Move): Pos
    requires Movable(p, m)
  {
    Pos(
      BoardAfter(p.board, p.side, m),
      p.side.Opposite(),
      RightsAfter(p, m),
      EpAfter(p.board, p.side, m),
      if IsCapture(p.board, m) || IsPawnMove(p.board, m) then 0 else p.halfmove + 1,
      if p.side.Black? then p.fullmove + 1 else p.fullmove,
      p.setup)
  }

  // ---- which moves are allowed

  /** Advances and captures of a pawn, en passant apart (articles 3.7.1 to 3.7.3). */
  ghost predicate PawnReaches(b: Board, us: Color, from: Square, to: Square) {
    || (to in b && b[to].color != us && PawnStep(us, from, to))
    || (to !in b && DF(from, to) == 0 && Clear(from, to, b.Keys) &&
        (DR(from, to) == Forward(us) || (DR(from, to) == 2 * Forward(us) && Rank(from) == StartRank(us))))
  }

  predicate PromotionKind(k: Kind) { k.Knight? || k.Bishop? || k.Rook? || k.Queen? }

  /** Castling with r from king square k: right held, path empty, rook at home, king neither in check nor
      crossing an attacked square (article 3.8.2). */
  ghost predicate MayCastle(p: Pos, k: Square, r: Right) {
    && r in p.castling && r in p.setup.rook && r in p.setup.path
    && p.setup.path[r] !! p.board.Keys
    && Has(p.board, p.setup.rook[r], Piece(p.side, Rook))
    && forall s: Square | OnKingPath(k, s, KingTo(r)) :: !Attacked(p.board, s, p.side.Opposite())
  }

  /** The moves of the men, before asking whether the own king is left in check. */
  ghost predicate PseudoLegal(p: Pos, m: Move) {
    var b := p.board;
    m.from in b && b[m.from].color == p.side &&
    match m
    case Normal(from, to) =>
      && !(to in b && b[to].color == p.side)
      && (if b[from].kind.Pawn? then PawnReaches(b, p.side, from, to) && Rank(to) != PromotionRank(p.side)
          else Attacks(b[from], from, to, b.Keys))
    case Promotion(from, to, promo) =>
      && b[from].kind.Pawn? && PawnReaches(b, p.side, from, to) && Rank(to) == PromotionRank(p.side)
      && PromotionKind(promo)
    case EnPassant(from, to) =>
      b[from].kind.Pawn? && p.ep == Some(to) && PawnStep(p.side, from, to)
    case Castling(from, to) =>
      && b[from].kind.King?
      && MayCastle(p, from, RightOf(p.side, m)) && p.setup.rook[RightOf(p.side, m)] == to
  }

  /** Make and test: allowed for the men, and the mover's king is not attacked afterwards (article 3.9). */
  ghost predicate Legal(p: Pos, m: Move) {
    PseudoLegal(p, m) && KingSafe(BoardAfter(p.board, p.side, m), p.side)
  }

  ghost predicate Checkmate(p: Pos) { InCheck(p) && forall m :: !Legal(p, m) }

  // ---- the invariant of reachable positions

  /** A held right has its king and rook on the squares the tables were built for. */
  ghost predicate RightAtHome(p: Pos, r: Right) {
    && r in p.setup.rook && r in p.setup.path
    && var rookFrom := p.setup.rook[r];
    && Has(p.board, rookFrom, Piece(r.color, Rook))
    && Rank(rookFrom) == BackRank(r.color)
    && rookFrom in p.setup.mask && r !in p.setup.mask[rookFrom]
    && forall k | IsKing(p.board, r.color, k) ::
         && Rank(k) == BackRank(r.color)
         && (r.kingSide <==> rookFrom > k)
         && k in p.setup.mask && r !in p.setup.mask[k]
         && p.setup.path[r] == PathOf(k, rookFrom, r)
  }

  ghost predicate CastlingValid(p: Pos) {
    && (forall s: Square :: s in p.setup.mask)
    && forall r | r in p.castling :: RightAtHome(p, r)
  }

  ghost predicate EpValid(p: Pos) {
    p.ep.Some? ==> Rank(p.ep.value) == TargetRank(p.side) && EpAvailable(p.board, p.side, p.ep.value)
  }

  ghost predicate NoPawnsOnEdges(b: Board) {
    forall s | s in b && b[s].kind.Pawn? :: 1 <= Rank(s) <= 6
  }

  ghost predicate Valid(p: Pos) {
    && OneKing(p.board, White) && OneKing(p.board, Black)
    && KingSafe(p.board, p.side.Opposite())
    && NoPawnsOnEdges(p.board)
    && CastlingValid(p)
    && EpValid(p)
    && p.halfmove >= 0
  }

  // ---- play

  /** Every move of ms is legal in the position its predecessors lead to. */
  ghost predicate LegalLine(p: Pos, ms: seq<Move>)
    decreases |ms|
  {
    ms == [] || (Movable(p, ms[0]) && Legal(p, ms[0]) && LegalLine(Apply(p, ms[0]), ms[1..]))
  }

  ghost function Play(p: Pos, ms: seq<Move>): Pos
    requires LegalLine(p, ms)
    decreases |ms|
  {
    if ms == [] then p else Play(Apply(p, ms[0]), ms[1..])
  }
}
