/** Sums over the men on a board, and how one move changes them. Both the progress measure behind
    repetition detection and the accumulators of the network are such sums. */
module BoardSums {
  import opened Squares
  import opened Rules
  import opened PositionState

  type Weight = (Piece, Square) -> int

  function At(f: Weight, b: Board, s: Square): int { if s in b then f(b[s], s) else 0 }

  function Sum(f: Weight, b: Board, n: nat): int
    requires n <= 64
  {
    if n == 0 then 0 else Sum(f, b, n - 1) + At(f, b, n - 1)
  }

  function Total(f: Weight, b: Board): int { Sum(f, b, 64) }

  lemma {:induction false} SumsAgree(f: Weight, b: Board, c: Board, n: nat)
    requires n <= 64
    requires forall s: Square | s < n :: At(f, b, s) == At(f, c, s)
    ensures Sum(f, b, n) == Sum(f, c, n)
  {
    if n > 0 {
      SumsAgree(f, b, c, n - 1);
    }
  }

  lemma {:induction false} OneSquareDiffers(f: Weight, b: Board, c: Board, s: Square, n: nat)
    requires s < n <= 64
    requires forall t: Square | t != s :: At(f, b, t) == At(f, c, t)
    ensures Sum(f, c, n) == Sum(f, b, n) - At(f, b, s) + At(f, c, s)
  {
    if n == s + 1 {
      SumsAgree(f, b, c, s);
    } else {
      OneSquareDiffers(f, b, c, s, n - 1);
    }
  }

  lemma TotalPut(f: Weight, b: Board, s: Square, pc: Piece)
    requires s !in b
    ensures Total(f, b[s := pc]) == Total(f, b) + f(pc, s)
  {
    OneSquareDiffers(f, b, b[s := pc], s, 64);
  }

  lemma TotalRemove(f: Weight, b: Board, s: Square)
    requires s in b
    ensures Total(f, b - {s}) == Total(f, b) - f(b[s], s)
  {
    OneSquareDiffers(f, b, b - {s}, s, 64);
  }

  /** What a move adds to a sum: men that appear minus men that vanish. */
  function Change(f: Weight, b: Board, us: Color, m: Move): int
    requires m.from in b && (m.Castling? ==> m.to in b) && (m.EnPassant? ==> Before(us, m.to) in b)
  {
    match m
    case Normal(from, to) => f(b[from], to) - f(b[from], from) - At(f, b, to)
    case Promotion(from, to, promo) => f(Piece(us, promo), to) - f(b[from], from) - At(f, b, to)
    case EnPassant(from, to) => f(b[from], to) - f(b[from], from) - At(f, b, Before(us, to))
    case Castling(from, to) =>
      var r := RightOf(us, m);
      f(Piece(us, King), KingTo(r)) + f(Piece(us, Rook), RookTo(r)) - f(b[from], from) - f(b[to], to)
  }

  /** Lifting men, then setting men down on squares that are empty by then. */
  lemma TotalCarried(f: Weight, b: Board, from: Square, to: Square, pc: Piece)
    requires from in b && from != to
    ensures Total(f, (b - {from})[to := pc]) == Total(f, b) + f(pc, to) - f(b[from], from) - At(f, b, to)
  {
    TotalRemove(f, b, from);
    if to in b {
      TotalRemove(f, b - {from}, to);
      TotalPut(f, b - {from} - {to}, to, pc);
      assert (b - {from} - {to})[to := pc] == (b - {from})[to := pc];
    } else {
      TotalPut(f, b - {from}, to, pc);
    }
  }

  lemma TotalEnPassant(f: Weight, b: Board, us: Color, from: Square, to: Square)
    requires Liftable(b, us, EnPassant(from, to))
    ensures Total(f, BoardAfter(b, us, EnPassant(from, to))) == Total(f, b) + Change(f, b, us, EnPassant(from, to))
  {
    var cap := Before(us, to);
    TotalRemove(f, b, cap);
    TotalRemove(f, b - {cap}, from);
    assert b - {cap} - {from} == b - {from, cap};
    TotalPut(f, b - {from, cap}, to, b[from]);
  }

  lemma TotalCastling(f: Weight, b: Board, us: Color, from: Square, to: Square)
    requires Liftable(b, us, Castling(from, to))
    ensures Total(f, BoardAfter(b, us, Castling(from, to))) == Total(f, b) + Change(f, b, us, Castling(from, to))
  {
    var r := RightOf(us, Castling(from, to));
    TotalRemove(f, b, from);
    TotalRemove(f, b - {from}, to);
    assert b - {from} - {to} == b - {from, to};
    TotalPut(f, b - {from, to}, KingTo(r), Piece(us, King));
    TotalPut(f, (b - {from, to})[KingTo(r) := Piece(us, King)], RookTo(r), Piece(us, Rook));
  }

  /** A move changes a sum by the men it touches and nothing else, overlapping castling squares included. */
  lemma TotalAfter(f: Weight, b: Board, us: Color, m: Move)
    requires Liftable(b, us, m)
    ensures Total(f, BoardAfter(b, us, m)) == Total(f, b) + Change(f, b, us, m)
  {
    match m
    case Normal(from, to) => TotalCarried(f, b, from, to, b[from]);
    case Promotion(from, to, promo) => TotalCarried(f, b, from, to, Piece(us, promo));
    case EnPassant(from, to) => TotalEnPassant(f, b, us, from, to);
    case Castling(from, to) => TotalCastling(f, b, us, from, to);
  }
}
