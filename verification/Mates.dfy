/** Which material can still mate: the exact reach of the test for insufficient material (rules.go). */
module Mates {
  import opened Squares
  import opened Geometry
  import opened Rules
  import opened PositionState
  import opened LegalMoves
  import opened DeadPosition

  // ---- what can be set up from a set of men

  /** The man x standing on from can be seen again as y standing on to: the same man, a bishop on squares of its own
      colour, or what a pawn has been promoted to. */
  predicate Becomes(x: Piece, from: Square, y: Piece, to: Square) {
    && x.color == y.color
    && if x.kind.Pawn? then y.kind.Pawn? || PromotionKind(y.kind)
       else x.kind == y.kind && (x.kind.Bishop? ==> (File(from) + Rank(from)) % 2 == (File(to) + Rank(to)) % 2)
  }

  /** Every man of one board comes from a man of the other, no two from the same. */
  ghost predicate Supplied(small: Board, big: Board, source: map<Square, Square>) {
    && source.Keys == small.Keys
    && (forall s | s in source :: source[s] in big && Becomes(big[source[s]], source[s], small[s], s))
    && (forall s, t | s in source && t in source && source[s] == source[t] :: s == t)
  }

  /** Some mate can be set up with no more men than these. */
  ghost predicate MateSupplied(b: Board) {
    exists p: Pos, source :: Valid(p) && Checkmate(p) && Supplied(p.board, b, source)
  }

  lemma AtMostOne(s: Bitboard)
    requires forall x, y | x in s && y in s :: x == y
    ensures |s| <= 1
  {
    if x :| x in s {
      assert s == {x};
    }
  }

  /** Fewer men of insufficient material are insufficient. */
  lemma SuppliedStaysInsufficient(small: Board, big: Board, source: map<Square, Square>)
    requires Supplied(small, big, source) && InsufficientMaterial(big)
    ensures InsufficientMaterial(small)
  {
    hide Becomes, Minors, OneComplex, MenOfKind;
    forall s | s in small ensures source[s] in big && SameLightMan(big[source[s]], source[s], small[s], s) {
      assert s in source;
      LightManStays(big[source[s]], source[s], small[s], s);
    }
    if |Minors(big)| <= 1 {
      FewMinors(small, big, source);
    } else {
      OnlyBishops(small, big, source);
    }
  }

  predicate SameLightMan(x: Piece, from: Square, y: Piece, to: Square) {
    x.kind == y.kind && (x.kind.Bishop? ==> Dark(from) == Dark(to))
  }

  lemma LightManStays(x: Piece, from: Square, y: Piece, to: Square)
    requires Becomes(x, from, y, to) && !x.kind.Pawn?
    ensures SameLightMan(x, from, y, to)
  {
    hide File, Rank;
  }

  lemma FewMinors(small: Board, big: Board, source: map<Square, Square>)
    requires |Minors(big)| <= 1 && source.Keys == small.Keys
    requires forall s, t | s in source && t in source && source[s] == source[t] :: s == t
    requires forall s | s in small :: source[s] in big && big[source[s]].kind == small[s].kind
    ensures |Minors(small)| <= 1
  {
    forall s, t | s in Minors(small) && t in Minors(small) ensures s == t {
      assert source[s] in Minors(big) && source[t] in Minors(big);
      OnlyMember(Minors(big), source[s], source[t]);
    }
    AtMostOne(Minors(small));
  }

  lemma OnlyBishops(small: Board, big: Board, source: map<Square, Square>)
    requires source.Keys == small.Keys && MenOfKind(big, Knight) == {} && OneComplex(MenOfKind(big, Bishop))
    requires forall s | s in small :: source[s] in big && SameLightMan(big[source[s]], source[s], small[s], s)
    ensures MenOfKind(small, Knight) == {} && OneComplex(MenOfKind(small, Bishop))
  {
    hide Dark;
    forall s | s in small ensures !small[s].kind.Knight? {
      assert source[s] !in MenOfKind(big, Knight);
    }
    forall s | s in MenOfKind(small, Bishop) ensures source[s] in MenOfKind(big, Bishop) && Dark(s) == Dark(source[s]) {
    }
  }

  // ---- mates in a corner

  /** Squares of a board that is turned so that the mating side is White and the corner is h8. */
  function At(c: Color, left: bool, file: int, rank: int): Square
    requires OnBoard(file, rank)
  {
    MakeSquare(if left then 7 - file else file, if c.White? then rank else 7 - rank)
  }

  function Corner(c: Color, left: bool): Square { At(c, left, 7, 7) }

  function Beside(c: Color, left: bool): Square { At(c, left, 6, 7) }

  lemma CornerSteps(c: Color, left: bool, t: Square)
    ensures KingStep(Corner(c, left), t) <==> t in {Beside(c, left), At(c, left, 6, 6), At(c, left, 7, 6)}
  {
    hide File, Rank, MakeSquare;
    SquareIsItsCoordinates(t, Beside(c, left));
    SquareIsItsCoordinates(t, At(c, left, 6, 6));
    SquareIsItsCoordinates(t, At(c, left, 7, 6));
  }

  function Standing(b: Board, side: Color): Pos { EmptyPos().(board := b, side := side) }

  /** The mated king stands in the corner, alone or with a minor piece on the square beside it; w covers the two
      squares in front of it, x gives check, and a square beside that is free is covered too. */
  ghost predicate CornerNet(b: Board, c: Color, left: bool, w: Square, x: Square) {
    var k, e, us := Corner(c, left), Beside(c, left), c.Opposite();
    && IsKing(b, us, k) && IsKing(b, c, w) && KingStep(w, At(c, left, 6, 6)) && KingStep(w, At(c, left, 7, 6))
    && !KingStep(k, w) && k != w
    && (forall s | s in b :: !b[s].kind.Pawn? && (b[s].kind.King? ==> s == k || s == w))
    && (forall s | s in b && b[s].color == us :: s == k || s == e)
    && x in b && b[x].color == c && Attacks(b[x], x, k, b.Keys)
    && if e in b then
         && b[e].color == us && (b[e].kind.Knight? || b[e].kind.Bishop?)
         && !Attacks(b[e], e, x, b.Keys) && !Attacks(b[e], e, w, b.Keys)
         && (b[x].kind.Knight? || Dist(x, k) <= 1)
       else exists y :: y in b && b[y].color == c && Attacks(b[y], y, e, b.Keys - {k})
  }

  lemma NetHasKings(b: Board, c: Color, left: bool, w: Square, x: Square)
    requires CornerNet(b, c, left, w, x)
    ensures OneKing(b, White) && OneKing(b, Black)
    ensures forall j :: IsKing(b, c.Opposite(), j) <==> j == Corner(c, left)
    ensures forall j :: IsKing(b, c, j) <==> j == w
  {
    hide Corner, Beside, At;
    var k := Corner(c, left);
    assert IsKing(b, c, w) && IsKing(b, c.Opposite(), k);
    assert c.White? || c.Black?;
  }

  lemma NetIsValid(b: Board, c: Color, left: bool, w: Square, x: Square)
    requires CornerNet(b, c, left, w, x)
    ensures Valid(Standing(b, c.Opposite()))
  {
    hide OneKing, Corner, Beside, At;
    NetHasKings(b, c, left, w, x);
    var k := Corner(c, left);
    forall e | e in b && b[e].color == c.Opposite() ensures !Attacks(b[e], e, w, b.Keys) {
    }
  }

  lemma NetGivesCheck(b: Board, c: Color, left: bool, w: Square, x: Square)
    requires CornerNet(b, c, left, w, x)
    ensures InCheck(Standing(b, c.Opposite()))
  {
    hide Corner, Beside, At, Attacks;
    var k := Corner(c, left);
    assert x in Attackers(b, k, c, b.Keys);
  }

  /** Each of the king's three squares is covered, or taken by its own man. */
  lemma KingIsCaught(b: Board, c: Color, left: bool, w: Square, x: Square, m: Move)
    requires CornerNet(b, c, left, w, x) && m.from == Corner(c, left)
    ensures !Legal(Standing(b, c.Opposite()), m)
  {
    hide Corner, Beside, At, KingSafe, PawnReaches, OneKing, BoardAfter;
    var k, us := Corner(c, left), c.Opposite();
    NetHasKings(b, c, left, w, x);
    if PseudoLegal(Standing(b, us), m) {
      assert m.Normal? && KingStep(k, m.to);
      CornerSteps(c, left, m.to);
      if m.to == Beside(c, left) {
        var y :| y in b && b[y].color == c && Attacks(b[y], y, m.to, b.Keys - {k});
        StepIsCaught(b, us, k, m.to, y);
      } else {
        StepIsCaught(b, us, k, m.to, w);
      }
    }
  }

  lemma StepIsCaught(b: Board, us: Color, k: Square, to: Square, y: Square)
    requires OneKing(b, us) && IsKing(b, us, k) && to != k && !(to in b && b[to].color == us)
    requires y in b && b[y].color == us.Opposite() && y != to && Attacks(b[y], y, to, b.Keys - {k})
    ensures !KingSafe(BoardAfter(b, us, Normal(k, to)), us)
  {
    hide KingSafe, OneKing, Attacks;
    KingStepIsMakeAndTest(b, us, k, to);
    assert y in Attackers(b, to, us.Opposite(), b.Keys - {k});
  }

  /** The man beside the king can neither take the checking man nor come between. */
  lemma HelperIsTooLate(b: Board, c: Color, left: bool, w: Square, x: Square, m: Move)
    requires CornerNet(b, c, left, w, x) && m.from != Corner(c, left)
    ensures !Legal(Standing(b, c.Opposite()), m)
  {
    hide Corner, Beside, At, PawnReaches, Attacks, MayCastle, KingStep;
    var k, us := Corner(c, left), c.Opposite();
    if PseudoLegal(Standing(b, us), m) {
      assert m.Normal? && Attacks(b[m.from], m.from, m.to, b.Keys);
      var after := BoardAfter(b, us, m);
      CheckStays(b[x], x, k, b.Keys, after.Keys);
      assert IsKing(after, us, k) && x in Attackers(after, k, c, after.Keys);
    }
  }

  lemma CheckStays(pc: Piece, x: Square, k: Square, occ: Bitboard, more: Bitboard)
    requires Attacks(pc, x, k, occ) && (pc.kind.Knight? || Dist(x, k) <= 1)
    ensures Attacks(pc, x, k, more)
  {
    hide Between;
    forall u ensures Dist(x, k) <= 1 ==> !Between(x, u, k) {
      if Dist(x, k) <= 1 { AdjacentNothingBetween(x, u, k); }
    }
  }

  lemma NetIsMate(b: Board, c: Color, left: bool, w: Square, x: Square)
    requires CornerNet(b, c, left, w, x)
    ensures Checkmate(Standing(b, c.Opposite()))
  {
    hide CornerNet, Corner, KingSafe, Legal, InCheck;
    var p := Standing(b, c.Opposite());
    NetGivesCheck(b, c, left, w, x);
    forall m ensures !Legal(p, m) {
      if m.from == Corner(c, left) {
        KingIsCaught(b, c, left, w, x, m);
      } else {
        HelperIsTooLate(b, c, left, w, x, m);
      }
    }
  }

  // ---- one mate for each material

  lemma NetSuffices(b: Board, c: Color, left: bool, w: Square, x: Square, big: Board, source: map<Square, Square>)
    requires CornerNet(b, c, left, w, x) && Supplied(b, big, source)
    ensures MateSupplied(big)
  {
    hide CornerNet, Supplied, Valid, Checkmate;
    NetIsValid(b, c, left, w, x);
    NetIsMate(b, c, left, w, x);
    assert Supplied(Standing(b, c.Opposite()).board, big, source);
  }

  /** Both kings of the set, and one or two of its men, each on its square. */
  function Pick(c: Color, k: Square, w: Square, x: Square, man: Piece): Board {
    map[k := Piece(c.Opposite(), King), w := Piece(c, King), x := man]
  }

  lemma OneMoreIsSupplied(b: Board, big: Board, source: map<Square, Square>, y: Square, other: Piece, t: Square)
    requires Supplied(b, big, source) && y !in b && t in big && Becomes(big[t], t, other, y)
    requires forall s | s in source :: source[s] != t
    ensures Supplied(b[y := other], big, source[y := t])
  {
    hide Becomes;
  }

  lemma KingsAreSupplied(big: Board, c: Color, k: Square, w: Square) returns (source: map<Square, Square>)
    requires OneKing(big, White) && OneKing(big, Black) && k != w
    ensures Supplied(map[k := Piece(c.Opposite(), King), w := Piece(c, King)], big, source)
    ensures forall q | q in source :: big[source[q]].kind.King?
  {
    hide OneKing;
    assert c.White? || c.Black?;
    source := map[k := KingSquare(big, c.Opposite()), w := KingSquare(big, c)];
  }

  lemma PickIsSupplied(big: Board, c: Color, k: Square, w: Square, x: Square, man: Piece, s: Square)
      returns (source: map<Square, Square>)
    requires OneKing(big, White) && OneKing(big, Black) && k != w && k != x && w != x
    requires s in big && !big[s].kind.King? && Becomes(big[s], s, man, x)
    ensures Supplied(Pick(c, k, w, x, man), big, source)
    ensures forall q | q in source :: source[q] == s || big[source[q]].kind.King?
  {
    hide OneKing, Becomes, Supplied;
    var kings := map[k := Piece(c.Opposite(), King), w := Piece(c, King)];
    var two := KingsAreSupplied(big, c, k, w);
    SuppliedKeys(kings, big, two);
    OneMoreIsSupplied(kings, big, two, x, man, s);
    assert kings[x := man] == Pick(c, k, w, x, man);
    source := two[x := s];
    SuppliedKeys(kings[x := man], big, source);
  }

  lemma SuppliedKeys(small: Board, big: Board, source: map<Square, Square>)
    requires Supplied(small, big, source)
    ensures source.Keys == small.Keys && forall q | q in source :: source[q] in big
  {
  }

  predicate Officer(k: Kind) { k.Knight? || k.Bishop? || k.Rook? || k.Queen? }

  /** The white king stands on w and covers both squares in front of the cornered king. */
  predicate Covers(c: Color, left: bool, w: Square) {
    && KingStep(w, At(c, left, 6, 6)) && KingStep(w, At(c, left, 7, 6))
    && !KingStep(Corner(c, left), w) && Corner(c, left) != w
  }

  lemma NetOfTwo(c: Color, left: bool, w: Square, x: Square, man: Kind, y: Square, other: Kind)
    requires var k, e := Corner(c, left), Beside(c, left);
      && Covers(c, left, w) && x !in {k, w, e} && y !in {k, w, x, e}
      && Officer(man) && Officer(other)
      && Attacks(Piece(c, man), x, k, {k, w, x, y}) && w != e && k != e && Attacks(Piece(c, other), y, e, {w, x, y})
    ensures CornerNet(Pick(c, Corner(c, left), w, x, Piece(c, man))[y := Piece(c, other)], c, left, w, x)
  {
    hide Corner, Beside, At, Attacks, KingStep;
    var k := Corner(c, left);
    var b := Pick(c, k, w, x, Piece(c, man))[y := Piece(c, other)];
    assert b.Keys == {k, w, x, y} && b.Keys - {k} == {w, x, y};
    assert y in b && b[y] == Piece(c, other);
  }

  lemma NetWithHelper(c: Color, left: bool, w: Square, x: Square, man: Kind, other: Kind)
    requires var k, e := Corner(c, left), Beside(c, left);
      && Covers(c, left, w) && x !in {k, w, e} && w != e && k != e
      && Officer(man) && (other.Knight? || other.Bishop?) && Attacks(Piece(c, man), x, k, {k, w, x, e})
      && !Attacks(Piece(c.Opposite(), other), e, x, {k, w, x, e})
      && !Attacks(Piece(c.Opposite(), other), e, w, {k, w, x, e}) && (man.Knight? || Dist(x, k) <= 1)
    ensures CornerNet(Pick(c, Corner(c, left), w, x, Piece(c, man))[Beside(c, left) := Piece(c.Opposite(), other)],
      c, left, w, x)
  {
    hide Corner, Beside, At, Attacks, KingStep, Dist;
    var k, e := Corner(c, left), Beside(c, left);
    var b := Pick(c, k, w, x, Piece(c, man))[e := Piece(c.Opposite(), other)];
    assert b.Keys == {k, w, x, e};
  }

  lemma Coverers(c: Color, left: bool)
    ensures Covers(c, left, At(c, left, 7, 5)) && Covers(c, left, At(c, left, 6, 5))
    ensures Corner(c, left) != Beside(c, left)
  {
    hide File, Rank, MakeSquare;
    SquareIsItsCoordinates(Corner(c, left), At(c, left, 7, 5));
    SquareIsItsCoordinates(Corner(c, left), At(c, left, 6, 5));
  }

  lemma NetOfOne(c: Color, left: bool, w: Square, x: Square, man: Kind)
    requires var k, e := Corner(c, left), Beside(c, left);
      && Covers(c, left, w) && x !in {k, w, e} && w != e && k != e && Officer(man)
      && Attacks(Piece(c, man), x, k, {k, w, x}) && Attacks(Piece(c, man), x, e, {w, x})
    ensures CornerNet(Pick(c, Corner(c, left), w, x, Piece(c, man)), c, left, w, x)
  {
    hide Corner, Beside, At, Attacks, KingStep;
    var k := Corner(c, left);
    var b := Pick(c, k, w, x, Piece(c, man));
    assert b.Keys == {k, w, x} && b.Keys - {k} == {w, x};
    assert x in b && b[x] == Piece(c, man);
  }

  /** A rook or queen on the back rank. */
  lemma HeavyNet(c: Color, kind: Kind)
    requires kind.Rook? || kind.Queen?
    ensures CornerNet(Pick(c, Corner(c, false), At(c, false, 7, 5), At(c, false, 5, 7), Piece(c, kind)), c, false,
      At(c, false, 7, 5), At(c, false, 5, 7))
  {
    hide File, Rank, MakeSquare, Covers, CornerNet;
    Coverers(c, false);
    NetOfOne(c, false, At(c, false, 7, 5), At(c, false, 5, 7), kind);
  }

  /** A knight in front of the king, a second covering the square beside it. */
  lemma KnightsNet(c: Color, left: bool)
    ensures CornerNet(
      Pick(c, Corner(c, left), At(c, left, 7, 5), At(c, left, 5, 6), Piece(c, Knight))
        [At(c, left, 5, 5) := Piece(c, Knight)],
      c, left, At(c, left, 7, 5), At(c, left, 5, 6))
  {
    hide File, Rank, MakeSquare, Covers, CornerNet;
    Coverers(c, left);
    NetOfTwo(c, left, At(c, left, 7, 5), At(c, left, 5, 6), Knight, At(c, left, 5, 5), Knight);
  }

  /** A bishop on the long diagonal and a man covering the square beside the king: a knight or the other bishop. */
  lemma BishopNet(c: Color, left: bool, other: Kind)
    requires other.Knight? || other.Bishop?
    ensures CornerNet(
      Pick(c, Corner(c, left), At(c, left, 7, 5), At(c, left, 5, 5), Piece(c, Bishop))
        [At(c, left, 4, if other.Knight? then 6 else 5) := Piece(c, other)],
      c, left, At(c, left, 7, 5), At(c, left, 5, 5))
  {
    hide File, Rank, MakeSquare, Covers, CornerNet;
    Coverers(c, left);
    NetOfTwo(c, left, At(c, left, 7, 5), At(c, left, 5, 5), Bishop, At(c, left, 4, if other.Knight? then 6 else 5),
      other);
  }

  /** A bishop right in front of the king, whose own minor piece stands beside it. */
  lemma SmotheringBishopNet(c: Color, left: bool, other: Kind)
    requires other.Knight? || other.Bishop?
    ensures CornerNet(
      Pick(c, Corner(c, left), At(c, left, 6, 5), At(c, left, 6, 6), Piece(c, Bishop))
        [Beside(c, left) := Piece(c.Opposite(), other)],
      c, left, At(c, left, 6, 5), At(c, left, 6, 6))
  {
    hide File, Rank, MakeSquare, Covers, CornerNet;
    Coverers(c, left);
    NetWithHelper(c, left, At(c, left, 6, 5), At(c, left, 6, 6), Bishop, other);
  }

  /** A knight's check where the king's own knight or bishop stands beside it: the smothered mate. */
  lemma SmotheringKnightNet(c: Color, left: bool, other: Kind)
    requires other.Knight? || other.Bishop?
    ensures var (w, x) := if other.Knight? then (At(c, left, 6, 5), At(c, left, 5, 6))
      else (At(c, left, 7, 5), At(c, left, 6, 5));
      CornerNet(Pick(c, Corner(c, left), w, x, Piece(c, Knight))[Beside(c, left) := Piece(c.Opposite(), other)],
        c, left, w, x)
  {
    hide File, Rank, MakeSquare, Covers, CornerNet;
    Coverers(c, left);
    if other.Knight? {
      NetWithHelper(c, left, At(c, left, 6, 5), At(c, left, 5, 6), Knight, other);
    } else {
      NetWithHelper(c, left, At(c, left, 7, 5), At(c, left, 6, 5), Knight, other);
    }
  }

  // ---- every other material

  /** Which way the board has to be turned for a bishop that starts on s to reach a square of the corner's colour. */
  function Turned(c: Color, s: Square): bool { (File(s) + Rank(s)) % 2 == if c.White? then 1 else 0 }

  lemma ShadeOf(c: Color, left: bool, file: int, rank: int)
    requires OnBoard(file, rank)
    ensures var t := At(c, left, file, rank);
      (File(t) + Rank(t)) % 2 == (file + rank + (if left then 1 else 0) + if c.White? then 0 else 1) % 2
  {
    hide File, Rank, MakeSquare;
  }

  lemma Apart(c: Color, left: bool, f: int, r: int, g: int, q: int)
    requires OnBoard(f, r) && OnBoard(g, q)
    ensures At(c, left, f, r) == At(c, left, g, q) <==> f == g && r == q
  {
    hide File, Rank, MakeSquare;
    SquareIsItsCoordinates(At(c, left, f, r), At(c, left, g, q));
  }

  lemma MatesWithOne(big: Board, c: Color, left: bool, w: Square, x: Square, man: Piece, s: Square)
    requires OneKing(big, White) && OneKing(big, Black) && Corner(c, left) != w && Corner(c, left) != x && w != x
    requires CornerNet(Pick(c, Corner(c, left), w, x, man), c, left, w, x)
    requires s in big && !big[s].kind.King? && Becomes(big[s], s, man, x)
    ensures MateSupplied(big)
  {
    hide OneKing, Corner, CornerNet, Supplied, Becomes, MateSupplied, Pick;
    var source := PickIsSupplied(big, c, Corner(c, left), w, x, man, s);
    NetSuffices(Pick(c, Corner(c, left), w, x, man), c, left, w, x, big, source);
  }

  lemma MatesWithTwo(big: Board, c: Color, left: bool, w: Square, x: Square, man: Piece, s: Square, y: Square,
      other: Piece, t: Square)
    requires OneKing(big, White) && OneKing(big, Black) && Corner(c, left) != w && Corner(c, left) != x && w != x
    requires y !in {Corner(c, left), w, x} && s != t
    requires CornerNet(Pick(c, Corner(c, left), w, x, man)[y := other], c, left, w, x)
    requires s in big && !big[s].kind.King? && Becomes(big[s], s, man, x)
    requires t in big && !big[t].kind.King? && Becomes(big[t], t, other, y)
    ensures MateSupplied(big)
  {
    hide OneKing, Corner, CornerNet, Supplied, Becomes, MateSupplied;
    var b := Pick(c, Corner(c, left), w, x, man);
    var source := PickIsSupplied(big, c, Corner(c, left), w, x, man, s);
    OneMoreIsSupplied(b, big, source, y, other, t);
    NetSuffices(b[y := other], c, left, w, x, big, source[y := t]);
  }

  lemma HeavyMates(b: Board, s: Square)
    requires OneKing(b, White) && OneKing(b, Black)
    requires s in b && (b[s].kind.Pawn? || b[s].kind.Rook? || b[s].kind.Queen?)
    ensures MateSupplied(b)
  {
    hide OneKing, At, CornerNet, Supplied, MateSupplied, Pick;
    var c, kind := b[s].color, if b[s].kind.Rook? then Rook else Queen;
    HeavyNet(c, kind);
    Apart(c, false, 7, 7, 7, 5);
    Apart(c, false, 7, 7, 5, 7);
    Apart(c, false, 7, 5, 5, 7);
    MatesWithOne(b, c, false, At(c, false, 7, 5), At(c, false, 5, 7), Piece(c, kind), s);
  }

  /** Two minor pieces with a knight among them, or bishops on both colours. */
  ghost predicate MatingPair(b: Board, s: Square, t: Square) {
    && s in b && t in b && s != t
    && (b[s].kind.Knight? || b[s].kind.Bishop?) && (b[t].kind.Knight? || b[t].kind.Bishop?)
    && (b[s].kind.Bishop? && b[t].kind.Bishop? ==> (File(s) + Rank(s)) % 2 != (File(t) + Rank(t)) % 2)
  }

  /** The pair belongs to one side; a bishop, if there is one, is named first. */
  lemma PairMates(b: Board, s: Square, t: Square)
    requires OneKing(b, White) && OneKing(b, Black) && MatingPair(b, s, t)
    requires b[s].color == b[t].color && (b[t].kind.Bishop? ==> b[s].kind.Bishop?)
    ensures MateSupplied(b)
  {
    hide OneKing, At, CornerNet, Supplied, MateSupplied, Pick, File, Rank;
    var c := b[s].color;
    var left := Turned(c, s);
    Apart(c, left, 7, 7, 7, 5);
    if b[s].kind.Knight? {
      KnightsNet(c, left);
      Apart(c, left, 7, 7, 5, 6);
      Apart(c, left, 7, 5, 5, 6);
      Apart(c, left, 5, 5, 7, 7);
      Apart(c, left, 5, 5, 7, 5);
      Apart(c, left, 5, 5, 5, 6);
      MatesWithTwo(b, c, left, At(c, left, 7, 5), At(c, left, 5, 6), b[s], s, At(c, left, 5, 5), b[t], t);
    } else {
      var r := if b[t].kind.Knight? then 6 else 5;
      BishopNet(c, left, b[t].kind);
      Apart(c, left, 7, 7, 5, 5);
      Apart(c, left, 7, 5, 5, 5);
      Apart(c, left, 4, r, 7, 7);
      Apart(c, left, 4, r, 7, 5);
      Apart(c, left, 4, r, 5, 5);
      ShadeOf(c, left, 5, 5);
      ShadeOf(c, left, 4, r);
      MatesWithTwo(b, c, left, At(c, left, 7, 5), At(c, left, 5, 5), b[s], s, At(c, left, 4, r), b[t], t);
    }
  }

  /** The pair is divided: one side's man mates, the other's gets in its own king's way. */
  lemma DividedPairMates(b: Board, s: Square, t: Square)
    requires OneKing(b, White) && OneKing(b, Black) && MatingPair(b, s, t) && b[s].color != b[t].color
    ensures MateSupplied(b)
  {
    hide OneKing, At, CornerNet, Supplied, MateSupplied, Pick, File, Rank;
    var c := b[s].color;
    assert b[t].color == c.Opposite();
    if b[s].kind.Bishop? {
      var left := Turned(c, s);
      SmotheringBishopNet(c, left, b[t].kind);
      Apart(c, left, 7, 7, 6, 5);
      Apart(c, left, 7, 7, 6, 6);
      Apart(c, left, 6, 5, 6, 6);
      Apart(c, left, 6, 7, 7, 7);
      Apart(c, left, 6, 7, 6, 5);
      Apart(c, left, 6, 7, 6, 6);
      ShadeOf(c, left, 6, 6);
      ShadeOf(c, left, 6, 7);
      MatesWithTwo(b, c, left, At(c, left, 6, 5), At(c, left, 6, 6), b[s], s, Beside(c, left), b[t], t);
    } else {
      var left := !Turned(c, t);
      SmotheringKnightNet(c, left, b[t].kind);
      var (f, g, q) := if b[t].kind.Knight? then (6, 5, 6) else (7, 6, 5);
      Apart(c, left, 7, 7, f, 5);
      Apart(c, left, 7, 7, g, q);
      Apart(c, left, f, 5, g, q);
      Apart(c, left, 6, 7, 7, 7);
      Apart(c, left, 6, 7, f, 5);
      Apart(c, left, 6, 7, g, q);
      ShadeOf(c, left, 6, 7);
      MatesWithTwo(b, c, left, At(c, left, f, 5), At(c, left, g, q), b[s], s, Beside(c, left), b[t], t);
    }
  }

  /** Material that is not called insufficient has a pawn, rook or queen, or a mating pair. */
  lemma SufficientHas(b: Board) returns (s: Square, t: Square)
    requires !InsufficientMaterial(b)
    ensures s in b && (b[s].kind.Pawn? || b[s].kind.Rook? || b[s].kind.Queen? || MatingPair(b, s, t))
  {
    hide File, Rank;
    if exists q :: q in b && (b[q].kind.Pawn? || b[q].kind.Rook? || b[q].kind.Queen?) {
      s :| s in b && (b[s].kind.Pawn? || b[s].kind.Rook? || b[s].kind.Queen?);
      t := s;
    } else if knight :| knight in MenOfKind(b, Knight) {
      s := knight;
      if forall q | q in Minors(b) :: q == s { AtMostOne(Minors(b)); }
      t :| t in Minors(b) && t != s;
    } else {
      s :| s in MenOfKind(b, Bishop) && Dark(s);
      t :| t in MenOfKind(b, Bishop) && !Dark(t);
    }
  }

  /** Said of the men themselves: besides kings there is nothing at all, one knight or bishop, or bishops only, all on
      squares of one colour. */
  lemma InsufficientSets(b: Board)
    ensures InsufficientMaterial(b) <==>
      && (forall s | s in b :: b[s].kind in {Knight, Bishop, King})
      && ((forall s, t | s in b && t in b && !b[s].kind.King? && !b[t].kind.King? :: s == t) ||
          (forall s, t | s in b && t in b && !b[s].kind.King? && !b[t].kind.King? ::
             b[s].kind.Bishop? && (File(s) + Rank(s)) % 2 == (File(t) + Rank(t)) % 2))
  {
    hide File, Rank;
    if forall s | s in b :: b[s].kind in {Knight, Bishop, King} {
      forall s | s in b ensures s in Minors(b) <==> !b[s].kind.King? {
      }
      if |Minors(b)| <= 1 {
        forall s, t | s in Minors(b) && t in Minors(b) ensures s == t { OnlyMember(Minors(b), s, t); }
      } else if forall s, t | s in Minors(b) && t in Minors(b) :: s == t {
        AtMostOne(Minors(b));
      } else {
        OnlyBishopsExactly(b);
      }
    }
  }

  lemma OnlyBishopsExactly(b: Board)
    requires forall s | s in b :: b[s].kind in {Knight, Bishop, King}
    requires !forall s, t | s in Minors(b) && t in Minors(b) :: s == t
    ensures MenOfKind(b, Knight) == {} && OneComplex(MenOfKind(b, Bishop)) <==>
      forall s, t | s in b && t in b && !b[s].kind.King? && !b[t].kind.King? ::
        b[s].kind.Bishop? && (File(s) + Rank(s)) % 2 == (File(t) + Rank(t)) % 2
  {
    hide File, Rank;
    forall s | s in b ensures !b[s].kind.King? <==> s in MenOfKind(b, Knight) || s in MenOfKind(b, Bishop) {
    }
  }

  /** The test for insufficient material is exact: it answers yes for just those sets of men, whoever owns them, from
      which no mate at all can be set up. */
  lemma InsufficientExactlyWithoutMate(b: Board)
    requires OneKing(b, White) && OneKing(b, Black)
    ensures InsufficientMaterial(b) <==> !MateSupplied(b)
  {
    hide OneKing, InsufficientMaterial, Supplied, Valid, Checkmate;
    if InsufficientMaterial(b) {
      forall p: Pos, source | Supplied(p.board, b, source) && Valid(p) ensures !Checkmate(p) {
        SuppliedStaysInsufficient(p.board, b, source);
        InsufficientIsNotMate(p);
      }
    } else {
      var s, t := SufficientHas(b);
      if b[s].kind.Pawn? || b[s].kind.Rook? || b[s].kind.Queen? {
        HeavyMates(b, s);
      } else if b[s].color != b[t].color {
        DividedPairMates(b, s, t);
      } else if b[t].kind.Bishop? {
        PairMates(b, t, s);
      } else {
        PairMates(b, s, t);
      }
    }
  }
}
