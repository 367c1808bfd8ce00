/** The attack tables (attacks.go): index arithmetic against geometry, ray walks, the line tables, and magic
    lookup, which is proved to equal the ray walk for every square and every occupancy. */
module Attacks {
  import opened Squares
  import opened Geometry
  import opened Words
  import opened PositionState
  import opened MoveGen

  // ---- single steps in index arithmetic

  /** safeDestination: delta squares further on, unless that falls off the board or wraps around its edge. */
  function SafeDestination(s: Square, delta: int): Option<Square> {
    var to := s + delta;
    if to < 0 || to >= 64 then None
    else if Abs(File(to) - File(s)) > 2 then None
    else Some(to)
  }

  /** The file test is exact for every step of a king, a pawn or a knight. */
  lemma StepIsGeometric(s: Square, df: int, dr: int)
    requires Abs(df) <= 2 && Abs(dr) <= 2
    ensures SafeDestination(s, df + 8 * dr) ==
      if OnBoard(File(s) + df, Rank(s) + dr) then Some(MakeSquare(File(s) + df, Rank(s) + dr)) else None
  {
    var file := File(s) + df;
    var rank := Rank(s) + dr;
    assert s + df + 8 * dr == 8 * rank + file;
    if 0 <= 8 * rank + file < 64 {
      Wrapped(rank, file);
    }
  }

  /** File and rank of an index written with a file up to two off the board. */
  lemma Wrapped(rank: int, file: int)
    requires -2 <= file < 10 && 0 <= 8 * rank + file < 64
    ensures File(8 * rank + file) == if file < 0 then file + 8 else if file >= 8 then file - 8 else file
    ensures 0 <= file < 8 ==> Rank(8 * rank + file) == rank && 0 <= rank < 8
  {
  }

  /** Collects the destinations of a list of steps, as the leaper tables are filled. */
  method Leaps(s: Square, deltas: seq<int>) returns (b: Bitboard)
    ensures forall t: Square :: t in b <==> exists i | 0 <= i < |deltas| :: SafeDestination(s, deltas[i]) == Some(t)
  {
    b := {};
    for i := 0 to |deltas|
      invariant forall t: Square :: t in b <==> exists j | 0 <= j < i :: SafeDestination(s, deltas[j]) == Some(t)
    {
      var d := SafeDestination(s, deltas[i]);
      if d.Some? {
        b := b + {d.value};
      }
    }
  }

  lemma ReachedByStep(s: Square, t: Square, delta: int)
    ensures SafeDestination(s, delta) == Some(t) <==> t == s + delta && Abs(DF(s, t)) <= 2
  {
  }

  lemma DifferenceOfSquares(s: Square, t: Square)
    ensures t - s == DF(s, t) + 8 * DR(s, t)
  {
  }

  /** The eight king deltas reach exactly the squares one step away. */
  method InitKingAttacks(s: Square) returns (b: Bitboard)
    ensures b == KingAttacks(s)
  {
    var deltas := [-9, -8, -7, -1, 1, 7, 8, 9];
    b := Leaps(s, deltas);
    forall t: Square ensures t in b <==> KingStep(s, t) {
      KingDeltas(s, t, deltas);
    }
  }

  lemma KingDeltas(s: Square, t: Square, deltas: seq<int>)
    requires deltas == [-9, -8, -7, -1, 1, 7, 8, 9]
    ensures (exists i | 0 <= i < |deltas| :: SafeDestination(s, deltas[i]) == Some(t)) <==> KingStep(s, t)
  {
    hide SafeDestination, DF, DR;
    forall i | 0 <= i < |deltas|
      ensures SafeDestination(s, deltas[i]) == Some(t) <==> t == s + deltas[i] && Abs(DF(s, t)) <= 2
    {
      ReachedByStep(s, t, deltas[i]);
    }
    DifferenceOfSquares(s, t);
    if KingStep(s, t) {
      assert t - s in deltas;
      var i :| 0 <= i < |deltas| && deltas[i] == t - s;
      assert SafeDestination(s, deltas[i]) == Some(t);
    }
    FileAndRankRange(s, t);
  }

  lemma FileAndRankRange(s: Square, t: Square)
    ensures -7 <= DF(s, t) <= 7 && -7 <= DR(s, t) <= 7
  {
  }

  method InitKnightAttacks(s: Square) returns (b: Bitboard)
    ensures b == KnightAttacks(s)
  {
    var deltas := [-17, -15, -10, -6, 6, 10, 15, 17];
    b := Leaps(s, deltas);
    forall t: Square ensures t in b <==> KnightStep(s, t) {
      KnightDeltas(s, t, deltas);
    }
  }

  lemma KnightDeltas(s: Square, t: Square, deltas: seq<int>)
    requires deltas == [-17, -15, -10, -6, 6, 10, 15, 17]
    ensures (exists i | 0 <= i < |deltas| :: SafeDestination(s, deltas[i]) == Some(t)) <==> KnightStep(s, t)
  {
    hide SafeDestination, DF, DR;
    forall i | 0 <= i < |deltas|
      ensures SafeDestination(s, deltas[i]) == Some(t) <==> t == s + deltas[i] && Abs(DF(s, t)) <= 2
    {
      ReachedByStep(s, t, deltas[i]);
    }
    DifferenceOfSquares(s, t);
    if KnightStep(s, t) {
      assert t - s in deltas;
      var i :| 0 <= i < |deltas| && deltas[i] == t - s;
      assert SafeDestination(s, deltas[i]) == Some(t);
    }
    FileAndRankRange(s, t);
  }

  // ---- rays

  /** A compass direction. */
  datatype Dir = Dir(df: int, dr: int)

  predicate IsDir(d: Dir) { -1 <= d.df <= 1 && -1 <= d.dr <= 1 && (d.df != 0 || d.dr != 0) }

  predicate OnRay(s: Square, d: Dir, t: Square) {
    Aligned(s, t) && Sgn(DF(s, t)) == d.df && Sgn(DR(s, t)) == d.dr
  }

  /** t is seen along direction d from s: on the ray with nothing of occ in between. */
  predicate SeenAlong(s: Square, d: Dir, t: Square, occ: Bitboard) {
    OnRay(s, d, t) && Clear(s, t, occ)
  }

  lemma NextOnRay(s: Square, d: Dir, cur: Square)
    requires IsDir(d) && (cur == s || OnRay(s, d, cur))
    ensures var next := SafeDestination(cur, d.df + 8 * d.dr);
      && (next.Some? ==> OnRay(s, d, next.value) && Dist(s, next.value) == Dist(s, cur) + 1)
      && (next.None? ==> forall t | OnRay(s, d, t) :: Dist(s, t) <= Dist(s, cur))
  {
    hide SafeDestination, File, Rank;
    StepIsGeometric(cur, d.df, d.dr);
    SquareIsItsCoordinates(s, cur);
    var next := SafeDestination(cur, d.df + 8 * d.dr);
    if next.Some? {
      SquareIsItsCoordinates(s, next.value);
    }
  }

  lemma OneSquarePerDistance(s: Square, d: Dir, t: Square, u: Square)
    requires IsDir(d) && OnRay(s, d, t) && OnRay(s, d, u) && Dist(s, t) == Dist(s, u)
    ensures t == u
  {
    SquareIsItsCoordinates(t, u);
  }

  lemma NearerIsBetween(s: Square, d: Dir, t: Square, u: Square)
    requires OnRay(s, d, t) && OnRay(s, d, u)
    ensures Between(s, u, t) <==> Dist(s, u) < Dist(s, t)
  {
  }

  lemma BetweenIsOnRay(s: Square, d: Dir, t: Square, u: Square)
    requires OnRay(s, d, t) && Between(s, u, t)
    ensures OnRay(s, d, u)
  {
  }

  /** The inner loop of slidingAttacks: walk until the edge or the first occupied square, which is included. */
  method WalkRay(s: Square, d: Dir, occ: Bitboard) returns (seen: Bitboard)
    requires IsDir(d)
    ensures forall t: Square :: t in seen <==> SeenAlong(s, d, t, occ)
  {
    seen := {};
    var cur := s;
    DistToSelf(s);
    while true
      invariant cur == s || OnRay(s, d, cur)
      invariant forall t: Square :: t in seen <==> OnRay(s, d, t) && Dist(s, t) <= Dist(s, cur)
      invariant forall u | u in occ && OnRay(s, d, u) :: Dist(s, u) > Dist(s, cur)
      decreases 8 - Dist(s, cur)
    {
      hide OnRay, Dist, SafeDestination;
      NextOnRay(s, d, cur);
      DistInRange(s, cur);
      var next := SafeDestination(cur, d.df + 8 * d.dr);
      if next.None? {
        RayWalked(s, d, cur, occ);
        break;
      }
      cur := next.value;
      DistInRange(s, cur);
      forall t: Square | OnRay(s, d, t) && Dist(s, t) == Dist(s, cur) ensures t == cur {
        OneSquarePerDistance(s, d, t, cur);
      }
      seen := seen + {cur};
      if cur in occ {
        RayStopped(s, d, cur, occ);
        break;
      }
    }
  }

  lemma DistToSelf(s: Square)
    ensures Dist(s, s) == 0
    ensures forall d: Dir, t | OnRay(s, d, t) :: Dist(s, t) > 0
  {
    forall d: Dir, t | OnRay(s, d, t) ensures Dist(s, t) > 0 {
      SquareIsItsCoordinates(s, t);
    }
  }

  lemma DistInRange(s: Square, t: Square)
    ensures 0 <= Dist(s, t) <= 7
  {
  }

  lemma RayWalked(s: Square, d: Dir, cur: Square, occ: Bitboard)
    requires forall t | OnRay(s, d, t) :: Dist(s, t) <= Dist(s, cur)
    requires forall u | u in occ && OnRay(s, d, u) :: Dist(s, u) > Dist(s, cur)
    ensures forall t: Square :: SeenAlong(s, d, t, occ) <==> OnRay(s, d, t) && Dist(s, t) <= Dist(s, cur)
  {
    hide OnRay, Between, Dist;
    forall t: Square | OnRay(s, d, t) ensures Clear(s, t, occ) {
      forall u | u in occ ensures !Between(s, u, t) {
        if Between(s, u, t) { BetweenIsOnRay(s, d, t, u); }
      }
    }
  }

  lemma RayStopped(s: Square, d: Dir, cur: Square, occ: Bitboard)
    requires OnRay(s, d, cur) && cur in occ
    requires forall u | u in occ && OnRay(s, d, u) :: Dist(s, u) >= Dist(s, cur)
    ensures forall t: Square :: SeenAlong(s, d, t, occ) <==> OnRay(s, d, t) && Dist(s, t) <= Dist(s, cur)
  {
    hide OnRay, Between, Dist;
    forall t: Square | OnRay(s, d, t) ensures Clear(s, t, occ) <==> Dist(s, t) <= Dist(s, cur) {
      NearerIsBetween(s, d, t, cur);
      forall u | u in occ && Between(s, u, t) ensures Dist(s, t) > Dist(s, cur) {
        BetweenIsOnRay(s, d, t, u);
        NearerIsBetween(s, d, t, u);
      }
    }
  }

  const ROOK_DIRS := [Dir(0, 1), Dir(0, -1), Dir(1, 0), Dir(-1, 0)]
  const BISHOP_DIRS := [Dir(1, 1), Dir(-1, 1), Dir(1, -1), Dir(-1, -1)]

  predicate Directions(dirs: seq<Dir>) { dirs == ROOK_DIRS || dirs == BISHOP_DIRS }

  /** What the slider with these directions attacks from s. */
  function SliderAttacks(s: Square, occ: Bitboard, dirs: seq<Dir>): Bitboard {
    if dirs == ROOK_DIRS then RookAttacks(s, occ) else BishopAttacks(s, occ)
  }

  lemma LinesAreRays(s: Square, t: Square)
    ensures OnRookLine(s, t) <==> exists i | 0 <= i < 4 :: OnRay(s, ROOK_DIRS[i], t)
    ensures OnBishopLine(s, t) <==> exists i | 0 <= i < 4 :: OnRay(s, BISHOP_DIRS[i], t)
  {
    SquareIsItsCoordinates(s, t);
    if OnRookLine(s, t) {
      assert OnRay(s, ROOK_DIRS[0], t) || OnRay(s, ROOK_DIRS[1], t) || OnRay(s, ROOK_DIRS[2], t) ||
        OnRay(s, ROOK_DIRS[3], t);
    }
    if OnBishopLine(s, t) {
      assert OnRay(s, BISHOP_DIRS[0], t) || OnRay(s, BISHOP_DIRS[1], t) || OnRay(s, BISHOP_DIRS[2], t) ||
        OnRay(s, BISHOP_DIRS[3], t);
    }
  }

  /** slidingAttacks: the four rays together are the slider's attacks. */
  method SlidingAttacks(s: Square, occ: Bitboard, dirs: seq<Dir>) returns (attacks: Bitboard)
    requires Directions(dirs)
    ensures attacks == SliderAttacks(s, occ, dirs)
  {
    attacks := {};
    for i := 0 to 4
      invariant forall t: Square :: t in attacks <==> exists j | 0 <= j < i :: SeenAlong(s, dirs[j], t, occ)
    {
      hide SeenAlong;
      var seen := WalkRay(s, dirs[i], occ);
      attacks := attacks + seen;
    }
    forall t: Square ensures t in attacks <==> t in SliderAttacks(s, occ, dirs) {
      LinesAreRays(s, t);
    }
  }

  // ---- lines and the squares between

  /** Two slider rays that meet on the empty board meet only on the common line. */
  lemma LineFromRays(a: Square, b: Square, c: Square, dirs: seq<Dir>)
    requires Directions(dirs) && b in SliderAttacks(a, {}, dirs)
    ensures (c in SliderAttacks(a, {}, dirs) && c in SliderAttacks(b, {}, dirs)) || c == a || c == b
      <==> OnLine(a, b, c)
  {
    hide SliderAttacks;
    SeenOnEmptyBoard(a, b, dirs);
    SeenOnEmptyBoard(a, c, dirs);
    SeenOnEmptyBoard(b, c, dirs);
    if dirs == ROOK_DIRS { RookLines(a, b, c); } else { BishopLines(a, b, c); }
  }

  lemma SeenOnEmptyBoard(a: Square, b: Square, dirs: seq<Dir>)
    requires Directions(dirs)
    ensures b in SliderAttacks(a, {}, dirs) <==> if dirs == ROOK_DIRS then OnRookLine(a, b) else OnBishopLine(a, b)
  {
  }

  lemma RookLines(a: Square, b: Square, c: Square)
    requires OnRookLine(a, b)
    ensures (OnRookLine(a, c) && OnRookLine(b, c)) || c == a || c == b <==> OnLine(a, b, c)
  {
    SquareIsItsCoordinates(a, c);
    SquareIsItsCoordinates(b, c);
    SquareIsItsCoordinates(a, b);
  }

  lemma BishopLines(a: Square, b: Square, c: Square)
    requires OnBishopLine(a, b)
    ensures (OnBishopLine(a, c) && OnBishopLine(b, c)) || c == a || c == b <==> OnLine(a, b, c)
  {
    SquareIsItsCoordinates(a, c);
    SquareIsItsCoordinates(b, c);
    if OnBishopLine(a, c) && OnBishopLine(b, c) {
      assert DF(a, b) == DR(a, b) <==> DF(a, c) == DR(a, c);
    }
  }

  /** What each end sees when blocked at the other is what lies between them. */
  lemma BetweenFromRays(a: Square, b: Square, c: Square, dirs: seq<Dir>)
    requires Directions(dirs) && b in SliderAttacks(a, {}, dirs)
    ensures c in SliderAttacks(a, {b}, dirs) && c in SliderAttacks(b, {a}, dirs) <==> Between(a, c, b)
  {
    hide Between, OnRookLine, OnBishopLine;
    if dirs == ROOK_DIRS { RookBetween(a, b, c); } else { BishopBetween(a, b, c); }
  }

  lemma RookBetween(a: Square, b: Square, c: Square)
    requires OnRookLine(a, b)
    ensures OnRookLine(a, c) && !Between(a, b, c) && OnRookLine(b, c) && !Between(b, a, c) <==> Between(a, c, b)
  {
    SquareIsItsCoordinates(a, c);
    SquareIsItsCoordinates(b, c);
  }

  lemma BishopBetween(a: Square, b: Square, c: Square)
    requires OnBishopLine(a, b)
    ensures OnBishopLine(a, c) && !Between(a, b, c) && OnBishopLine(b, c) && !Between(b, a, c) <==> Between(a, c, b)
  {
    SquareIsItsCoordinates(a, c);
    SquareIsItsCoordinates(b, c);
    if OnBishopLine(a, c) && OnBishopLine(b, c) {
      assert DF(a, b) == DR(a, b) <==> DF(a, c) == DR(a, c);
    }
  }

  lemma LineEntries(a: Square, b: Square, dirs: seq<Dir>)
    requires Directions(dirs) && b in SliderAttacks(a, {}, dirs)
    ensures (SliderAttacks(a, {}, dirs) * SliderAttacks(b, {}, dirs)) + {a, b} == LineBB(a, b)
    ensures SliderAttacks(a, {b}, dirs) * SliderAttacks(b, {a}, dirs) == BetweenBB(a, b)
  {
    hide SliderAttacks, OnLine, Between;
    var line := (SliderAttacks(a, {}, dirs) * SliderAttacks(b, {}, dirs)) + {a, b};
    var between := SliderAttacks(a, {b}, dirs) * SliderAttacks(b, {a}, dirs);
    forall c: Square ensures c in line <==> OnLine(a, b, c) { LineFromRays(a, b, c, dirs); }
    forall c: Square ensures c in between <==> Between(a, c, b) { BetweenFromRays(a, b, c, dirs); }
  }

  /** initLineTables, for one square a: both tables start empty and are filled along the slider rays. */
  method InitLineTables(a: Square) returns (line: map<Square, Bitboard>, between: map<Square, Bitboard>)
    ensures forall b: Square :: b in line && line[b] == LineBB(a, b)
    ensures forall b: Square :: b in between && between[b] == BetweenBB(a, b)
  {
    line := map b: Square | OnBoard(File(b), Rank(b)) :: {};
    between := line;
    line, between := FillLines(a, BISHOP_DIRS, line, between);
    line, between := FillLines(a, ROOK_DIRS, line, between);
    forall b: Square ensures line[b] == LineBB(a, b) && between[b] == BetweenBB(a, b) {
      AlignedEitherWay(a, b);
    }
  }

  lemma AlignedEitherWay(a: Square, b: Square)
    ensures !(OnRookLine(a, b) && OnBishopLine(a, b))
    ensures b in SliderAttacks(a, {}, ROOK_DIRS) <==> OnRookLine(a, b)
    ensures b in SliderAttacks(a, {}, BISHOP_DIRS) <==> OnBishopLine(a, b)
    ensures !Aligned(a, b) ==> LineBB(a, b) == {} && BetweenBB(a, b) == {}
  {
    SquareIsItsCoordinates(a, b);
    assert BISHOP_DIRS[0] != ROOK_DIRS[0];
  }

  method FillLines(a: Square, dirs: seq<Dir>, line0: map<Square, Bitboard>, between0: map<Square, Bitboard>)
      returns (line: map<Square, Bitboard>, between: map<Square, Bitboard>)
    requires Directions(dirs) && (forall b: Square :: b in line0 && b in between0)
    ensures forall b: Square :: b in line && b in between
    ensures forall b: Square :: line[b] == if b in SliderAttacks(a, {}, dirs) then LineBB(a, b) else line0[b]
    ensures forall b: Square :: between[b] == if b in SliderAttacks(a, {}, dirs) then BetweenBB(a, b) else between0[b]
  {
    hide SliderAttacks, LineBB, BetweenBB, Directions, Overlaid;
    line, between := line0, between0;
    var fromA := SlidingAttacks(a, {}, dirs);
    var bb := fromA;
    NothingOverlaid(line, b => LineBB(a, b));
    NothingOverlaid(between, b => BetweenBB(a, b));
    while bb != {}
      invariant bb <= fromA
      invariant Overlaid(line, line0, fromA - bb, b => LineBB(a, b)) &&
        Overlaid(between, between0, fromA - bb, b => BetweenBB(a, b))
      decreases bb
    {
      var b := First(bb);
      OneMoreOverlaid(line, line0, fromA - bb, b => LineBB(a, b), b);
      OneMoreOverlaid(between, between0, fromA - bb, b => BetweenBB(a, b), b);
      assert fromA - bb + {b} == fromA - (bb - {b});
      bb := bb - {b};
      var through, strictly := LinePair(a, b, fromA, dirs);
      line := line[b := through];
      between := between[b := strictly];
    }
    assert fromA - bb == fromA;
    AllOverlaid(line, line0, fromA, b => LineBB(a, b));
    AllOverlaid(between, between0, fromA, b => BetweenBB(a, b));
  }

  /** A table that differs from an earlier one in the entries of some squares. */
  ghost predicate Overlaid(t: map<Square, Bitboard>, t0: map<Square, Bitboard>, done: Bitboard,
      entry: Square -> Bitboard)
  {
    forall b: Square :: b in t && b in t0 && t[b] == if b in done then entry(b) else t0[b]
  }

  lemma NothingOverlaid(t: map<Square, Bitboard>, entry: Square -> Bitboard)
    requires forall b: Square :: b in t
    ensures forall done: Bitboard | done == {} :: Overlaid(t, t, done, entry)
  {
  }

  lemma OneMoreOverlaid(t: map<Square, Bitboard>, t0: map<Square, Bitboard>, done: Bitboard, entry: Square -> Bitboard,
      b: Square)
    requires Overlaid(t, t0, done, entry)
    ensures Overlaid(t[b := entry(b)], t0, done + {b}, entry)
  {
  }

  lemma AllOverlaid(t: map<Square, Bitboard>, t0: map<Square, Bitboard>, done: Bitboard, entry: Square -> Bitboard)
    requires Overlaid(t, t0, done, entry)
    ensures forall b: Square :: b in t && b in t0 && t[b] == if b in done then entry(b) else t0[b]
  {
  }

  /** The entries of both tables for one pair of squares on a common ray. */
  method LinePair(a: Square, b: Square, fromA: Bitboard, dirs: seq<Dir>) returns (line: Bitboard, between: Bitboard)
    requires Directions(dirs) && fromA == SliderAttacks(a, {}, dirs) && b in fromA
    ensures line == LineBB(a, b) && between == BetweenBB(a, b)
  {
    hide SliderAttacks, LineBB, BetweenBB, Directions;
    var fromB := SlidingAttacks(b, {}, dirs);
    var towardsB := SlidingAttacks(a, {b}, dirs);
    var towardsA := SlidingAttacks(b, {a}, dirs);
    LineEntries(a, b, dirs);
    return (fromA * fromB) + {a, b}, towardsB * towardsA;
  }

  // ---- magic lookup

  function ToBits(b: Bitboard): (w: Bits)
    ensures |w| == 64 && forall i: Square :: w[i] <==> i in b
  {
    seq(64, i requires 0 <= i < 64 => i in b)
  }

  function FromBits(w: Bits): Bitboard
    requires |w| == 64
  {
    set s: Square | w[s]
  }

  /** PopFirst on the word takes the lowest square off the set. */
  lemma PopFirstIsRemoval(b: Bitboard)
    requires b != {}
    ensures FromBits(And(ToBits(b), MinusOne(ToBits(b)))) == b - {First(b)}
  {
    hide MinusOne;
    var w := ToBits(b);
    var c := And(w, MinusOne(w));
    forall s: Square ensures c[s] <==> s in b && s != First(b) {
      DecrementClearsLowest(w, s);
      if s in b && s != First(b) {
        assert w[First(b)] && First(b) < s;
      }
    }
  }

  /** Edge squares of the lines through s, unless s itself stands on that edge. */
  function Edges(s: Square): Bitboard {
    ((RankBB(0) + RankBB(7)) - RankBB(Rank(s))) + ((FileBB(0) + FileBB(7)) - FileBB(File(s)))
  }

  /** The relevant occupancy: what the slider sees on an empty board, edges dropped. */
  function RelevantMask(s: Square, dirs: seq<Dir>): Bitboard { SliderAttacks(s, {}, dirs) - Edges(s) }

  lemma BetweenIsRelevant(s: Square, u: Square, t: Square)
    requires Between(s, u, t)
    ensures u !in Edges(s)
    ensures OnRookLine(s, t) ==> OnRookLine(s, u)
    ensures OnBishopLine(s, t) ==> OnBishopLine(s, u)
  {
    SquareIsItsCoordinates(s, u);
  }

  /** Men outside the relevant mask hide nothing: a man on the far edge has nothing behind it. */
  lemma EdgesAreIrrelevant(s: Square, occ: Bitboard, dirs: seq<Dir>)
    requires Directions(dirs)
    ensures SliderAttacks(s, occ * RelevantMask(s, dirs), dirs) == SliderAttacks(s, occ, dirs)
  {
    hide Edges, Between, OnRookLine, OnBishopLine;
    var mask := RelevantMask(s, dirs);
    forall t: Square ensures t in SliderAttacks(s, occ * mask, dirs) <==> t in SliderAttacks(s, occ, dirs) {
      forall u: Square | Between(s, u, t) && t in SliderAttacks(s, {}, dirs) ensures u in mask {
        BetweenIsRelevant(s, u, t);
      }
    }
  }

  datatype Magic = Magic(mask: Bitboard, multiplier: nat, bits: nat, attacks: seq<Bitboard>)

  predicate MagicShaped(m: Magic) {
    m.bits <= 64 && |m.attacks| == Pow2(m.bits)
  }

  /** index and lookup, as RookAttacks and BishopAttacks do them. */
  function Lookup(m: Magic, occ: Bitboard): Bitboard
    requires MagicShaped(m)
  {
    MagicIndexInRange(And(ToBits(occ), ToBits(m.mask)), m.multiplier, m.bits);
    m.attacks[MagicIndex(And(ToBits(occ), ToBits(m.mask)), m.multiplier, m.bits)]
  }

  /** Lookup in m is the ray walk from s, for every occupancy. */
  ghost predicate Answers(m: Magic, s: Square, dirs: seq<Dir>) {
    Directions(dirs) && MagicShaped(m) && forall occ :: Lookup(m, occ) == SliderAttacks(s, occ, dirs)
  }

  /** Tries one multiplier: slots of an earlier, failed attempt are recognised by their epoch, and two
      subsets may share a slot only if they see the same squares. */
  method TryMultiplier(multiplier: nat, bits: nat, occupancies: seq<Bits>, references: seq<Bitboard>,
      attacks: array<Bitboard>, epoch: array<int>, currentEpoch: int) returns (ok: bool)
    requires |occupancies| == |references| == attacks.Length == Pow2(bits) <= epoch.Length && bits <= 64
    requires forall i | 0 <= i < |occupancies| :: |occupancies[i]| == 64
    requires forall k | 0 <= k < epoch.Length :: epoch[k] < currentEpoch
    requires attacks as object != epoch
    modifies attacks, epoch
    ensures forall k | 0 <= k < epoch.Length :: epoch[k] <= currentEpoch
    ensures ok ==> forall i | 0 <= i < |occupancies| ::
      MagicIndex(occupancies[i], multiplier, bits) < attacks.Length &&
      attacks[MagicIndex(occupancies[i], multiplier, bits)] == references[i]
  {
    hide MagicIndex;
    for i := 0 to |occupancies|
      invariant forall k | 0 <= k < epoch.Length :: epoch[k] <= currentEpoch
      invariant forall j | 0 <= j < i ::
        var idx := MagicIndex(occupancies[j], multiplier, bits);
        idx < attacks.Length && epoch[idx] == currentEpoch && attacks[idx] == references[j]
    {
      MagicIndexInRange(occupancies[i], multiplier, bits);
      var idx := MagicIndex(occupancies[i], multiplier, bits);
      if epoch[idx] != currentEpoch {
        epoch[idx] := currentEpoch;
        attacks[idx] := references[i];
      } else if attacks[idx] != references[i] {
        return false;
      }
    }
    return true;
  }

  /** The table that an accepted multiplier leaves answers every occupancy: its masked part is one of the
      enumerated subsets, whose slot holds its ray walk. */
  lemma AcceptedTableIsExact(s: Square, dirs: seq<Dir>, m: Magic, all: seq<Bits>, occ: Bitboard)
    requires Directions(dirs) && MagicShaped(m) && m.mask == RelevantMask(s, dirs)
    requires forall o | SubsetOf(o, ToBits(m.mask)) :: o in all
    requires forall i | 0 <= i < |all| ::
      |all[i]| == 64 && MagicIndex(all[i], m.multiplier, m.bits) < |m.attacks| &&
      m.attacks[MagicIndex(all[i], m.multiplier, m.bits)] == SliderAttacks(s, FromBits(all[i]), dirs)
    ensures Lookup(m, occ) == SliderAttacks(s, occ, dirs)
  {
    hide SliderAttacks, MagicIndex, RelevantMask;
    var o := And(ToBits(occ), ToBits(m.mask));
    assert o in all;
    assert FromBits(o) == occ * m.mask;
    EdgesAreIrrelevant(s, occ, dirs);
  }

  function BitCount(x: nat): nat { if x == 0 then 0 else x % 2 + BitCount(x / 2) }

  /** The cheap test before a full trial: the multiplier must spread the mask into the top byte. */
  function Scatters(mask: Bitboard, multiplier: nat): bool {
    BitCount(ShiftRight(WordProduct(Value(ToBits(mask)), multiplier, 64), 56)) >= 6
  }

  /** initMagics for one square, over the multipliers the generator happens to produce: once one is
      accepted, lookup equals the ray walk for every occupancy there is. */
  method InitMagic(s: Square, dirs: seq<Dir>, candidates: seq<nat>, epoch: array<int>, firstEpoch: int)
      returns (found: bool, m: Magic, lastEpoch: int)
    requires Directions(dirs) && epoch.Length == 4096
    requires forall k | 0 <= k < epoch.Length :: epoch[k] <= firstEpoch
    modifies epoch
    ensures forall k | 0 <= k < epoch.Length :: epoch[k] <= lastEpoch
    ensures found ==> Answers(m, s, dirs)
  {
    hide SliderAttacks, MagicIndex, Edges, Compress, Ones, Lookup;
    var onEmpty := SlidingAttacks(s, {}, dirs);
    var mask := onEmpty - Edges(s);
    var bits := Ones(ToBits(mask));
    TablesSuffice(s, dirs);
    var occupancies := Subsets(ToBits(mask));
    var references: seq<Bitboard> := [];
    for i := 0 to |occupancies|
      invariant forall k | 0 <= k < epoch.Length :: epoch[k] <= firstEpoch
      invariant |references| == i
      invariant forall j | 0 <= j < i :: references[j] == SliderAttacks(s, FromBits(occupancies[j]), dirs)
    {
      var walked := SlidingAttacks(s, FromBits(occupancies[i]), dirs);
      references := references + [walked];
    }
    var attacks := new Bitboard[|occupancies|](i => {});
    lastEpoch := firstEpoch;
    found := false;
    m := Magic(mask, 0, bits, attacks[..]);
    for i := 0 to |candidates|
      invariant forall k | 0 <= k < epoch.Length :: epoch[k] <= lastEpoch
      invariant !found
    {
      if !Scatters(mask, candidates[i]) {
        continue;
      }
      lastEpoch := lastEpoch + 1;
      var ok := TryMultiplier(candidates[i], bits, occupancies, references, attacks, epoch, lastEpoch);
      if ok {
        m := Magic(mask, candidates[i], bits, attacks[..]);
        forall occ ensures Lookup(m, occ) == SliderAttacks(s, occ, dirs) {
          AcceptedTableIsExact(s, dirs, m, occupancies, occ);
        }
        return true, m, lastEpoch;
      }
    }
  }

  /** initMagics: all squares in turn, the epochs of failed attempts running on from square to square. */
  method InitMagics(dirs: seq<Dir>, candidates: seq<seq<nat>>) returns (found: bool, table: seq<Magic>)
    requires Directions(dirs) && |candidates| == 64
    ensures found ==> |table| == 64 && forall s: Square :: Answers(table[s], s, dirs)
  {
    hide Answers;
    table := [];
    var epoch := new int[4096](i => 0);
    var currentEpoch := 0;
    for i := 0 to 64
      invariant fresh(epoch) && epoch.Length == 4096 && forall k | 0 <= k < epoch.Length :: epoch[k] <= currentEpoch
      invariant |table| == i && forall s: Square | s < i :: Answers(table[s], s, dirs)
    {
      var ok, m;
      ok, m, currentEpoch := InitMagic(i, dirs, candidates[i], epoch, currentEpoch);
      if !ok {
        return false, table;
      }
      table := table + [m];
    }
    return true, table;
  }

  // ---- the fixed tables are large enough

  /** Squares told apart by their file, all on inner files, are at most six. */
  lemma {:induction false} AtMostOnePerFile(b: Bitboard, files: set<int>)
    requires forall s | s in b :: File(s) in files
    requires forall s, t | s in b && t in b && File(s) == File(t) :: s == t
    ensures |b| <= |files|
    decreases |b|
  {
    if b != {} {
      var s :| s in b;
      AtMostOnePerFile(b - {s}, files - {File(s)});
    }
  }

  lemma {:induction false} AtMostOnePerRank(b: Bitboard, ranks: set<int>)
    requires forall s | s in b :: Rank(s) in ranks
    requires forall s, t | s in b && t in b && Rank(s) == Rank(t) :: s == t
    ensures |b| <= |ranks|
    decreases |b|
  {
    if b != {} {
      var s :| s in b;
      AtMostOnePerRank(b - {s}, ranks - {Rank(s)});
    }
  }

  /** A relevant mask has at most twelve squares, six on each of two lines. */
  lemma MaskIsSmall(s: Square, dirs: seq<Dir>)
    requires Directions(dirs)
    ensures |RelevantMask(s, dirs)| <= 12
  {
    hide RelevantMask, Edges, SliderAttacks, DF, DR, File, Rank;
    if dirs == ROOK_DIRS {
      RookMaskIsSmall(s, RelevantMask(s, dirs));
    } else {
      BishopMaskIsSmall(s, RelevantMask(s, dirs));
    }
  }

  lemma RookMaskIsSmall(s: Square, mask: Bitboard)
    requires mask == RelevantMask(s, ROOK_DIRS)
    ensures |mask| <= 12
  {
    hide RelevantMask, File, Rank;
    var first := set t | t in mask && Rank(t) == Rank(s);
    var second := set t | t in mask && Rank(t) != Rank(s);
    assert mask == first + second;
    RowOfMask(s, mask, first);
    ColumnOfMask(s, mask, second);
  }

  lemma RowOfMask(s: Square, mask: Bitboard, row: Bitboard)
    requires mask == RelevantMask(s, ROOK_DIRS)
    requires forall t | t in row :: t in mask && Rank(t) == Rank(s)
    ensures |row| <= 6
  {
    hide RelevantMask, File, Rank;
    RookMaskSplits(s, mask);
    AtMostOnePerFile(row, {1, 2, 3, 4, 5, 6});
  }

  lemma ColumnOfMask(s: Square, mask: Bitboard, column: Bitboard)
    requires mask == RelevantMask(s, ROOK_DIRS)
    requires forall t | t in column :: t in mask && Rank(t) != Rank(s)
    ensures |column| <= 6
  {
    hide RelevantMask, File, Rank;
    RookMaskSplits(s, mask);
    AtMostOnePerRank(column, {1, 2, 3, 4, 5, 6});
  }

  lemma BishopMaskIsSmall(s: Square, mask: Bitboard)
    requires mask == RelevantMask(s, BISHOP_DIRS)
    ensures |mask| <= 12
  {
    hide RelevantMask, DF, DR;
    var first := set t | t in mask && DF(s, t) == DR(s, t);
    var second := set t | t in mask && DF(s, t) != DR(s, t);
    assert mask == first + second;
    DiagonalOfMask(s, mask, first, true);
    DiagonalOfMask(s, mask, second, false);
  }

  lemma DiagonalOfMask(s: Square, mask: Bitboard, diagonal: Bitboard, rising: bool)
    requires mask == RelevantMask(s, BISHOP_DIRS)
    requires forall t | t in diagonal :: t in mask && (rising <==> DF(s, t) == DR(s, t))
    ensures |diagonal| <= 6
  {
    hide RelevantMask, DF, DR, File;
    BishopMaskSplits(s, mask);
    AtMostOnePerFile(diagonal, {1, 2, 3, 4, 5, 6});
  }

  lemma RookMaskSplits(s: Square, mask: Bitboard)
    requires mask == RelevantMask(s, ROOK_DIRS)
    ensures forall t | t in mask ::
      (Rank(t) == Rank(s) && 1 <= File(t) <= 6) || (File(t) == File(s) && Rank(t) != Rank(s) && 1 <= Rank(t) <= 6)
    ensures forall t, u | t in mask && u in mask && Rank(t) == Rank(u) && File(t) == File(u) :: t == u
  {
    forall t | t in mask
      ensures (Rank(t) == Rank(s) && 1 <= File(t) <= 6) ||
        (File(t) == File(s) && Rank(t) != Rank(s) && 1 <= Rank(t) <= 6)
    {
      SquareIsItsCoordinates(s, t);
    }
    forall t, u | t in mask && u in mask && Rank(t) == Rank(u) && File(t) == File(u) ensures t == u {
      SquareIsItsCoordinates(t, u);
    }
  }

  lemma BishopMaskSplits(s: Square, mask: Bitboard)
    requires mask == RelevantMask(s, BISHOP_DIRS)
    ensures forall t | t in mask :: Abs(DF(s, t)) == Abs(DR(s, t)) && 1 <= File(t) <= 6
    ensures forall t, u | t in mask && u in mask && File(t) == File(u) &&
      (DF(s, t) == DR(s, t) <==> DF(s, u) == DR(s, u)) :: t == u
  {
    forall t | t in mask ensures Abs(DF(s, t)) == Abs(DR(s, t)) && 1 <= File(t) <= 6 {
      SquareIsItsCoordinates(s, t);
      assert BISHOP_DIRS != ROOK_DIRS by { assert BISHOP_DIRS[0] != ROOK_DIRS[0]; }
    }
    forall t, u | t in mask && u in mask && File(t) == File(u) && (DF(s, t) == DR(s, t) <==> DF(s, u) == DR(s, u))
      ensures t == u
    {
      SquareIsItsCoordinates(t, u);
    }
  }

  /** The number of one bits is the number of squares. */
  lemma {:induction false} OnesAreMembers(w: Bits, offset: nat, b: Bitboard)
    requires offset + |w| == 64
    requires forall i | 0 <= i < |w| :: w[i] <==> (offset + i) in b
    requires forall s | s in b :: s >= offset
    ensures Ones(w) == |b|
    decreases |w|
  {
    if w == [] {
      assert b == {};
    } else {
      OnesAreMembers(w[1..], offset + 1, b - {offset});
      if w[0] {
        assert b == (b - {offset}) + {offset};
      } else {
        assert b - {offset} == b;
      }
    }
  }

  lemma {:induction false} PowersGrow(a: nat, b: nat)
    requires a <= b
    ensures Pow2(a) <= Pow2(b)
  {
    if a < b {
      PowersGrow(a, b - 1);
    }
  }

  /** The arrays of 4096 entries that initMagics reuses never run out. */
  lemma TablesSuffice(s: Square, dirs: seq<Dir>)
    requires Directions(dirs)
    ensures Ones(ToBits(RelevantMask(s, dirs))) <= 12 && Pow2(Ones(ToBits(RelevantMask(s, dirs)))) <= 4096
  {
    hide RelevantMask;
    MaskIsSmall(s, dirs);
    OnesAreMembers(ToBits(RelevantMask(s, dirs)), 0, RelevantMask(s, dirs));
    PowersGrow(Ones(ToBits(RelevantMask(s, dirs))), 12);
    assert Pow2(12) == 4096;
  }
}
