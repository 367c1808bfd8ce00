/** Zobrist keys (zobrist.go): one word for every man on every square, for the rights held, for the file of
    an en passant target and for the side to move, combined by exclusive or. The tables are arbitrary. */
module Zobrist {
  import opened Squares
  import opened Rules

  type Bit = i: int | 0 <= i < 64

  /** A 64-bit word is the set of its one bits; exclusive or is symmetric difference. */
  type Word = set<Bit>

  function Xor(a: Word, b: Word): Word { (a - b) + (b - a) }

  lemma XorRegroup(a: Word, b: Word, c: Word)
    ensures Xor(Xor(a, b), c) == Xor(Xor(a, c), b)
  {
  }

  lemma XorCancel(a: Word, b: Word)
    ensures Xor(Xor(a, b), b) == a
  {
  }

  lemma XorAssociates(a: Word, b: Word, c: Word)
    ensures Xor(a, Xor(b, c)) == Xor(Xor(a, b), c)
  {
  }

  datatype Tables = Tables(
    pieces: (Piece, Square) -> Word,
    castling: set<Right> -> Word,
    epFile: int -> Word,
    side: Word)

  function OnSquare(z: Tables, b: Board, s: Square): Word {
    if s in b then z.pieces(b[s], s) else {}
  }

  /** The contribution of squares 0 to n - 1. */
  function BoardKey(z: Tables, b: Board, n: nat): Word
    requires n <= 64
  {
    if n == 0 then {} else Xor(BoardKey(z, b, n - 1), OnSquare(z, b, n - 1))
  }

  function EpKey(z: Tables, ep: Option<Square>): Word {
    if ep.Some? then z.epFile(File(ep.value)) else {}
  }

  function SideKey(z: Tables, side: Color): Word {
    if side.Black? then z.side else {}
  }

  /** The key of a position, from nothing but the position. */
  function KeyOf(z: Tables, b: Board, castling: set<Right>, ep: Option<Square>, side: Color): Word {
    Xor(Xor(Xor(BoardKey(z, b, 64), z.castling(castling)), EpKey(z, ep)), SideKey(z, side))
  }

  function PosKey(z: Tables, p: Pos): Word { KeyOf(z, p.board, p.castling, p.ep, p.side) }

  /** computeKey walks the squares once. */
  method ComputeKey(z: Tables, b: Board, castling: set<Right>, ep: Option<Square>, side: Color) returns (key: Word)
    ensures key == KeyOf(z, b, castling, ep, side)
  {
    key := {};
    for s := 0 to 64
      invariant key == BoardKey(z, b, s)
    {
      if s in b {
        key := Xor(key, z.pieces(b[s], s));
      }
    }
    key := Xor(key, z.castling(castling));
    if ep.Some? {
      key := Xor(key, z.epFile(File(ep.value)));
    }
    if side.Black? {
      key := Xor(key, z.side);
    }
  }

  lemma {:induction false} SameBelow(z: Tables, b: Board, c: Board, n: nat)
    requires n <= 64
    requires forall s: Square | s < n :: (s in b <==> s in c) && (s in b ==> b[s] == c[s])
    ensures BoardKey(z, b, n) == BoardKey(z, c, n)
  {
    if n > 0 {
      SameBelow(z, b, c, n - 1);
    }
  }

  /** Changing one square changes the key by what left it and what arrived. */
  lemma {:induction false} OneSquareChanged(z: Tables, b: Board, c: Board, s: Square, n: nat)
    requires s < n <= 64
    requires forall t: Square | t != s :: (t in b <==> t in c) && (t in b ==> b[t] == c[t])
    ensures BoardKey(z, c, n) == Xor(Xor(BoardKey(z, b, n), OnSquare(z, b, s)), OnSquare(z, c, s))
  {
    if n == s + 1 {
      SameBelow(z, b, c, s);
      XorCancel(BoardKey(z, b, s), OnSquare(z, b, s));
    } else {
      OneSquareChanged(z, b, c, s, n - 1);
      var rest := BoardKey(z, b, n - 1);
      var last := OnSquare(z, b, n - 1);
      XorRegroup(Xor(rest, OnSquare(z, b, s)), OnSquare(z, c, s), last);
      XorRegroup(rest, OnSquare(z, b, s), last);
    }
  }

  lemma XorKey(a: Word, x: Word, c: Word, e: Word, s: Word)
    ensures Xor(Xor(Xor(Xor(a, x), c), e), s) == Xor(Xor(Xor(Xor(a, c), e), s), x)
  {
    XorRegroup(a, x, c);
    XorRegroup(Xor(a, c), x, e);
    XorRegroup(Xor(Xor(a, c), e), x, s);
  }

  lemma PutChangesKey(z: Tables, b: Board, s: Square, pc: Piece, castling: set<Right>, ep: Option<Square>, side: Color)
    requires s !in b
    ensures KeyOf(z, b[s := pc], castling, ep, side) == Xor(KeyOf(z, b, castling, ep, side), z.pieces(pc, s))
  {
    OneSquareChanged(z, b, b[s := pc], s, 64);
    assert Xor(BoardKey(z, b, 64), {}) == BoardKey(z, b, 64);
    XorKey(BoardKey(z, b, 64), z.pieces(pc, s), z.castling(castling), EpKey(z, ep), SideKey(z, side));
  }

  lemma RemoveChangesKey(z: Tables, b: Board, s: Square, castling: set<Right>, ep: Option<Square>, side: Color)
    requires s in b
    ensures KeyOf(z, b - {s}, castling, ep, side) == Xor(KeyOf(z, b, castling, ep, side), z.pieces(b[s], s))
  {
    OneSquareChanged(z, b, b - {s}, s, 64);
    var w := Xor(BoardKey(z, b, 64), z.pieces(b[s], s));
    assert Xor(w, {}) == w;
    XorKey(BoardKey(z, b, 64), z.pieces(b[s], s), z.castling(castling), EpKey(z, ep), SideKey(z, side));
  }

  lemma EpChangesKey(z: Tables, b: Board, castling: set<Right>, t: Square, side: Color)
    ensures KeyOf(z, b, castling, None, side) == Xor(KeyOf(z, b, castling, Some(t), side), z.epFile(File(t)))
    ensures KeyOf(z, b, castling, Some(t), side) == Xor(KeyOf(z, b, castling, None, side), z.epFile(File(t)))
  {
    var w := Xor(BoardKey(z, b, 64), z.castling(castling));
    var e, s := z.epFile(File(t)), SideKey(z, side);
    assert Xor(w, {}) == w;
    XorRegroup(w, e, s);
    XorCancel(Xor(w, s), e);
  }

  lemma RightsChangeKey(z: Tables, b: Board, before: set<Right>, after: set<Right>, ep: Option<Square>, side: Color)
    ensures KeyOf(z, b, after, ep, side) ==
      Xor(KeyOf(z, b, before, ep, side), Xor(z.castling(before), z.castling(after)))
  {
    var w, c, d := BoardKey(z, b, 64), z.castling(before), z.castling(after);
    var delta := Xor(c, d);
    assert Xor(Xor(w, c), delta) == Xor(w, d);
    XorRegroup(Xor(w, c), delta, EpKey(z, ep));
    XorRegroup(Xor(Xor(w, c), EpKey(z, ep)), delta, SideKey(z, side));
  }

  lemma SideChangesKey(z: Tables, b: Board, castling: set<Right>, ep: Option<Square>, side: Color)
    ensures KeyOf(z, b, castling, ep, side.Opposite()) == Xor(KeyOf(z, b, castling, ep, side), z.side)
  {
    var w := Xor(Xor(BoardKey(z, b, 64), z.castling(castling)), EpKey(z, ep));
    assert Xor(w, {}) == w;
    XorCancel(w, z.side);
  }
}
