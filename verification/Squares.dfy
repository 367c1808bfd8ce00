/** Colours, pieces and squares (types.go), and the plane geometry the attack tables encode.

    A square is its index, file + 8 * rank, with a1 = 0 and h8 = 63. Everything that follows is said in
    file and rank coordinates; the index arithmetic of the engine is related to them once, in Attacks. */
module Squares {
  datatype Option<+T> = None | Some(value: T)

  datatype Color = White | Black {
    function Opposite(): Color { if White? then Black else White }
  }

  datatype Kind = Pawn | Knight | Bishop | Rook | Queen | King

  datatype Piece = Piece(color: Color, kind: Kind)

  type Square = s: int | 0 <= s < 64

  type Bitboard = set<Square>

  function File(s: Square): (f: int)
    ensures 0 <= f < 8
  {
    s % 8
  }

  function Rank(s: Square): (r: int)
    ensures 0 <= r < 8
  {
    s / 8
  }

  predicate OnBoard(file: int, rank: int) {
    0 <= file < 8 && 0 <= rank < 8
  }

  function MakeSquare(file: int, rank: int): (s: Square)
    requires OnBoard(file, rank)
    ensures File(s) == file && Rank(s) == rank
  {
    rank * 8 + file
  }

  function Abs(x: int): int { if x < 0 then -x else x }

  function Sgn(x: int): int { if x < 0 then -1 else if x == 0 then 0 else 1 }

  function Max(x: int, y: int): int { if x < y then y else x }

  /** How far b lies from a, in files and in ranks. */
  function DF(a: Square, b: Square): int { File(b) - File(a) }

  function DR(a: Square, b: Square): int { Rank(b) - Rank(a) }

  /** The number of king steps from a to b. */
  function Dist(a: Square, b: Square): int { Max(Abs(DF(a, b)), Abs(DR(a, b))) }

  predicate KnightStep(a: Square, b: Square) {
    (Abs(DF(a, b)) == 1 && Abs(DR(a, b)) == 2) || (Abs(DF(a, b)) == 2 && Abs(DR(a, b)) == 1)
  }

  predicate KingStep(a: Square, b: Square) { Dist(a, b) == 1 }

  /** The rank direction in which pawns of a colour advance. */
  function Forward(c: Color): int { if c.White? then 1 else -1 }

  predicate PawnStep(c: Color, a: Square, b: Square) {
    Abs(DF(a, b)) == 1 && DR(a, b) == Forward(c)
  }

  predicate OnRookLine(a: Square, b: Square) { a != b && (DF(a, b) == 0 || DR(a, b) == 0) }

  predicate OnBishopLine(a: Square, b: Square) { a != b && Abs(DF(a, b)) == Abs(DR(a, b)) }

  predicate Aligned(a: Square, b: Square) { OnRookLine(a, b) || OnBishopLine(a, b) }

  /** Seen from a, the squares b and c lie in the same one of the eight compass directions. */
  predicate SameDirection(a: Square, b: Square, c: Square) {
    Aligned(a, b) && Aligned(a, c) &&
    Sgn(DF(a, b)) == Sgn(DF(a, c)) && Sgn(DR(a, b)) == Sgn(DR(a, c))
  }

  predicate OppositeDirection(a: Square, b: Square, c: Square) {
    Aligned(a, b) && Aligned(a, c) &&
    Sgn(DF(a, b)) == -Sgn(DF(a, c)) && Sgn(DR(a, b)) == -Sgn(DR(a, c))
  }

  /** u lies strictly between a and b on a common rank, file or diagonal. */
  predicate Between(a: Square, u: Square, b: Square) {
    SameDirection(a, b, u) && Dist(a, u) < Dist(a, b)
  }

  /** c lies on the whole line through the aligned squares a and b. */
  predicate OnLine(a: Square, b: Square, c: Square) {
    Aligned(a, b) && (c == a || SameDirection(a, b, c) || OppositeDirection(a, b, c))
  }

  /** Nothing of occ stands strictly between a and b. */
  predicate Clear(a: Square, b: Square, occ: Bitboard) {
    forall u | u in occ :: !Between(a, u, b)
  }

  predicate RookSees(a: Square, b: Square, occ: Bitboard) { OnRookLine(a, b) && Clear(a, b, occ) }

  predicate BishopSees(a: Square, b: Square, occ: Bitboard) { OnBishopLine(a, b) && Clear(a, b, occ) }

  /** What it means for a piece standing on a to attack b (FIDE Laws, articles 3.2 to 3.8). */
  predicate Attacks(pc: Piece, a: Square, b: Square, occ: Bitboard) {
    match pc.kind
    case Pawn => PawnStep(pc.color, a, b)
    case Knight => KnightStep(a, b)
    case Bishop => BishopSees(a, b, occ)
    case Rook => RookSees(a, b, occ)
    case Queen => RookSees(a, b, occ) || BishopSees(a, b, occ)
    case King => KingStep(a, b)
  }

  predicate IsSlider(k: Kind) { k.Bishop? || k.Rook? || k.Queen? }

  /** A slider of this kind moves along the line from a to b when nothing is in the way. */
  predicate SlidesAlong(k: Kind, a: Square, b: Square) {
    ((k.Rook? || k.Queen?) && OnRookLine(a, b)) || ((k.Bishop? || k.Queen?) && OnBishopLine(a, b))
  }

  // ---- attack sets, as the engine's tables hold them

  function RookAttacks(s: Square, occ: Bitboard): Bitboard { set t: Square | RookSees(s, t, occ) }

  function BishopAttacks(s: Square, occ: Bitboard): Bitboard { set t: Square | BishopSees(s, t, occ) }

  function KnightAttacks(s: Square): Bitboard { set t: Square | KnightStep(s, t) }

  function KingAttacks(s: Square): Bitboard { set t: Square | KingStep(s, t) }

  function PawnAttacks(c: Color, s: Square): Bitboard { set t: Square | PawnStep(c, s, t) }
}
