/** The hand-crafted evaluation (hce.go, tables.go) over arbitrary weights, and its mirror symmetry. */
module HandCrafted {
  import opened Squares
  import opened Geometry
  import opened Rules
  import opened MoveGen
  import opened DeadPosition
  import opened GameRules
  import opened PositionState
  import opened Network
  import opened Mirror

  const MAX_PHASE := 24
  const KINDS: seq<Kind> := [Pawn, Knight, Bishop, Rook, Queen, King]

  datatype Weights = Weights(
    mgMaterial: Kind -> int, egMaterial: Kind -> int,
    mgTable: (Kind, Square) -> int, egTable: (Kind, Square) -> int,
    mgMobility: Kind -> int, egMobility: Kind -> int,
    kingAttack: Kind -> int, phase: Kind -> int,
    mgPassed: int -> int, egPassed: int -> int,
    bishopPair: int, tempo: int, isolated: int, doubled: int, rookOpen: int, rookSemiOpen: int)

  /** Running totals: middlegame, endgame, phase, pressure on the enemy king. */
  datatype Part = Part(mg: int, eg: int, phase: int, king: int) {
    function Plus(o: Part): Part { Part(mg + o.mg, eg + o.eg, phase + o.phase, king + o.king) }
  }

  const NOTHING := Part(0, 0, 0, 0)

  // ---- masks

  function AdjacentFiles(f: int): Bitboard { set s: Square | File(s) == f - 1 || File(s) == f + 1 }

  predicate AheadOf(c: Color, s: Square, t: Square) { if c.White? then Rank(t) > Rank(s) else Rank(t) < Rank(s) }

  function ForwardFile(c: Color, s: Square): Bitboard { set t: Square | File(t) == File(s) && AheadOf(c, s, t) }

  /** What the table holds: the pawn's own file and the one to its left. The file to the right is read before
      it has been filled. */
  function PassedMask(c: Color, s: Square): Bitboard {
    set t: Square | (File(t) == File(s) || File(t) == File(s) - 1) && AheadOf(c, s, t)
  }

  function KingRing(s: Square): Bitboard { KingAttacks(s) + {s} }

  datatype Masks = Masks(
    adjacent: map<int, Bitboard>,
    whiteForward: map<Square, Bitboard>, blackForward: map<Square, Bitboard>,
    whitePassed: map<Square, Bitboard>, blackPassed: map<Square, Bitboard>)

  /** A table entry; entries start out empty. */
  function Filled(m: map<Square, Bitboard>, s: Square): Bitboard { if s in m then m[s] else {} }

  /** Correct up to a square, and empty from there on. */
  ghost predicate ForwardUpTo(m: map<Square, Bitboard>, c: Color, n: int) {
    forall s: Square :: Filled(m, s) == if s < n then ForwardFile(c, s) else {}
  }

  ghost predicate PassedUpTo(m: map<Square, Bitboard>, c: Color, n: int) {
    forall s: Square | s < n :: Filled(m, s) == PassedMask(c, s)
  }

  /** The squares ahead on one file, as the two inner loops collect them. */
  method Span(c: Color, s: Square) returns (b: Bitboard)
    ensures b == ForwardFile(c, s)
  {
    b := {};
    var file, rank := File(s), Rank(s);
    if c.White? {
      for r := rank + 1 to 8
        invariant b == set t: Square | File(t) == file && rank < Rank(t) < r
      {
        assert forall t: Square :: File(t) == file && Rank(t) == r ==> t == MakeSquare(file, r);
        b := b + {MakeSquare(file, r)};
      }
    } else {
      for r := rank downto 0
        invariant b == set t: Square | File(t) == file && r <= Rank(t) < rank
      {
        assert forall t: Square :: File(t) == file && Rank(t) == r ==> t == MakeSquare(file, r);
        b := b + {MakeSquare(file, r)};
      }
    }
  }

  /** init: squares in ascending order, each square's masks from what has been filled by then. */
  method InitMasks() returns (m: Masks)
    ensures forall f | 0 <= f < 8 :: f in m.adjacent && m.adjacent[f] == AdjacentFiles(f)
    ensures ForwardUpTo(m.whiteForward, White, 64) && ForwardUpTo(m.blackForward, Black, 64)
    ensures PassedUpTo(m.whitePassed, White, 64) && PassedUpTo(m.blackPassed, Black, 64)
  {
    hide ForwardFile, PassedMask, AdjacentFiles, Widened, ForwardUpTo, PassedUpTo;
    var adjacent := AdjacentTable();
    NothingFilled();
    m := Masks(adjacent, map[], map[], map[], map[]);
    for i := 0 to 64
      invariant m.adjacent == adjacent
      invariant ForwardUpTo(m.whiteForward, White, i) && ForwardUpTo(m.blackForward, Black, i)
      invariant PassedUpTo(m.whitePassed, White, i) && PassedUpTo(m.blackPassed, Black, i)
    {
      var s: Square := i;
      var white := Span(White, s);
      var black := Span(Black, s);
      OneMoreSpan(m.whiteForward, White, s);
      OneMoreSpan(m.blackForward, Black, s);
      m := m.(whiteForward := m.whiteForward[s := white], blackForward := m.blackForward[s := black]);
      WidenedIsPassed(m.whiteForward, White, s);
      WidenedIsPassed(m.blackForward, Black, s);
      OneMorePassed(m.whitePassed, White, s);
      OneMorePassed(m.blackPassed, Black, s);
      m := m.(whitePassed := m.whitePassed[s := Widened(m.whiteForward, s)],
        blackPassed := m.blackPassed[s := Widened(m.blackForward, s)]);
    }
  }

  lemma NothingFilled()
    ensures forall c: Color :: ForwardUpTo(map[], c, 0) && PassedUpTo(map[], c, 0)
  {
  }

  lemma OneMoreSpan(m: map<Square, Bitboard>, c: Color, s: Square)
    requires ForwardUpTo(m, c, s)
    ensures ForwardUpTo(m[s := ForwardFile(c, s)], c, s + 1)
  {
    hide ForwardFile;
    var n := m[s := ForwardFile(c, s)];
    forall t: Square ensures Filled(n, t) == if t == s then ForwardFile(c, s) else Filled(m, t) {
    }
  }

  lemma OneMorePassed(m: map<Square, Bitboard>, c: Color, s: Square)
    requires PassedUpTo(m, c, s)
    ensures PassedUpTo(m[s := PassedMask(c, s)], c, s + 1)
  {
    hide PassedMask;
    var n := m[s := PassedMask(c, s)];
    forall t: Square ensures Filled(n, t) == if t == s then PassedMask(c, s) else Filled(m, t) {
    }
  }

  function Widened(forward: map<Square, Bitboard>, s: Square): Bitboard {
    Filled(forward, s) +
    (if File(s) > 0 then Filled(forward, MakeSquare(File(s) - 1, Rank(s))) else {}) +
    (if File(s) < 7 then Filled(forward, MakeSquare(File(s) + 1, Rank(s))) else {})
  }

  lemma WidenedIsPassed(forward: map<Square, Bitboard>, c: Color, s: Square)
    requires ForwardUpTo(forward, c, s + 1)
    ensures Widened(forward, s) == PassedMask(c, s)
  {
    hide Filled;
    if File(s) > 0 {
      assert MakeSquare(File(s) - 1, Rank(s)) <= s;
    }
    if File(s) < 7 {
      assert MakeSquare(File(s) + 1, Rank(s)) > s;
    }
  }

  method AdjacentTable() returns (adjacent: map<int, Bitboard>)
    ensures forall f | 0 <= f < 8 :: f in adjacent && adjacent[f] == AdjacentFiles(f)
  {
    adjacent := map[];
    for f := 0 to 8
      invariant forall g | 0 <= g < f :: g in adjacent && adjacent[g] == AdjacentFiles(g)
    {
      var files: Bitboard := {};
      if f > 0 {
        files := files + FileBB(f - 1);
      }
      if f < 7 {
        files := files + FileBB(f + 1);
      }
      assert files == AdjacentFiles(f);
      adjacent := adjacent[f := files];
    }
  }

  /** The mask as described: every square ahead on the own file and both adjacent ones. */
  function DescribedMask(c: Color, s: Square): Bitboard {
    set t: Square | Abs(File(t) - File(s)) <= 1 && AheadOf(c, s, t)
  }

  /** No rank lies ahead of s. */
  predicate OnLastRank(c: Color, s: Square) { Rank(s) == if c.White? then 7 else 0 }

  /** The table holds the mask described exactly on the h-file and where nothing lies ahead. */
  lemma MaskIsDescribedExactlyWhen(c: Color, s: Square)
    ensures PassedMask(c, s) == DescribedMask(c, s) <==> File(s) == 7 || OnLastRank(c, s)
  {
    if File(s) < 7 && !OnLastRank(c, s) {
      var t := MakeSquare(File(s) + 1, Rank(s) + Forward(c));
      assert t in DescribedMask(c, s) && t !in PassedMask(c, s);
    }
  }

  /** An enemy pawn ahead on the file to the right: the one kind of blocker that the table overlooks. */
  predicate RightBlocker(theirs: Bitboard, c: Color, s: Square) {
    exists t :: t in theirs && File(t) == File(s) + 1 && AheadOf(c, s, t)
  }

  /** The code's test for a passed pawn gives the described answer unless that kind of blocker is the only one;
      then the pawn is taken for passed though it is not. */
  lemma PassedTestIsRightExactlyWhen(theirs: Bitboard, c: Color, s: Square)
    ensures (theirs * PassedMask(c, s) == {} <==> theirs * DescribedMask(c, s) == {}) <==>
      !(theirs * PassedMask(c, s) == {} && RightBlocker(theirs, c, s))
    ensures theirs * DescribedMask(c, s) == {} ==> theirs * PassedMask(c, s) == {}
  {
    if RightBlocker(theirs, c, s) {
      var t :| t in theirs && File(t) == File(s) + 1 && AheadOf(c, s, t);
      assert t in theirs * DescribedMask(c, s);
    }
    forall t | t in theirs * DescribedMask(c, s) && !RightBlocker(theirs, c, s) ensures t in theirs * PassedMask(c, s) {
    }
  }

  /** For one: a White pawn on d4 with a Black pawn on e5. */
  lemma PassedPawnOverlooksRight()
    ensures RightBlocker({MakeSquare(4, 4)}, White, MakeSquare(3, 3))
    ensures {MakeSquare(4, 4)} * PassedMask(White, MakeSquare(3, 3)) == {}
  {
    assert MakeSquare(4, 4) in {MakeSquare(4, 4)};
  }

  // ---- terms

  function Pieces(b: Board, c: Color, k: Kind): Bitboard { set s | s in b && b[s] == Piece(c, k) }

  function Targets(kind: Kind, s: Square, occ: Bitboard): Bitboard {
    set t: Square | Attacks(Piece(White, kind), s, t, occ)
  }

  function RookFile(w: Weights, ours: Bitboard, theirs: Bitboard, file: Bitboard): Part {
    if ours * file == {} && theirs * file == {} then Part(w.rookOpen, TruncDiv(w.rookOpen, 2), 0, 0)
    else if ours * file == {} then Part(w.rookSemiOpen, TruncDiv(w.rookSemiOpen, 2), 0, 0)
    else NOTHING
  }

  /** The table square of a man: tables are written from White's side, rank 8 first. */
  function TableSquare(c: Color, s: Square): Square { if c.White? then Flip(s) else s }

  /** Safe squares reached, and squares around the enemy king attacked. */
  function Activity(w: Weights, k: Kind, safe: int, attacked: int): Part {
    Part(w.mgMobility(k) * safe, w.egMobility(k) * safe, 0, w.kingAttack(k) * attacked)
  }

  /** What one man contributes. */
  function Term(w: Weights, b: Board, c: Color, k: Kind, ring: Bitboard, s: Square): Part {
    var base := Part(w.mgMaterial(k) + w.mgTable(k, TableSquare(c, s)),
      w.egMaterial(k) + w.egTable(k, TableSquare(c, s)), w.phase(k), 0);
    if k.Pawn? || k.King? then base
    else
      var attacks := Targets(k, s, b.Keys);
      var n := |attacks - PawnAttackSpan(Pieces(b, c.Opposite(), Pawn), c.Opposite()) - Men(b, c)|;
      var active := base.Plus(Activity(w, k, n, |attacks * ring|));
      if k.Rook? then active.Plus(RookFile(w, Pieces(b, c, Pawn), Pieces(b, c.Opposite(), Pawn), FileBB(File(s))))
        else active
  }

  function PawnParts(w: Weights, isolated: bool, doubled: bool, passed: bool, rank: int): Part {
    (if isolated then Part(-w.isolated, -w.isolated, 0, 0) else NOTHING)
    .Plus(if doubled then Part(-w.doubled, -w.doubled, 0, 0) else NOTHING)
    .Plus(if passed then Part(w.mgPassed(rank), w.egPassed(rank), 0, 0) else NOTHING)
  }

  function PawnTerm(w: Weights, ours: Bitboard, theirs: Bitboard, c: Color, s: Square): Part {
    PawnParts(w, ours * AdjacentFiles(File(s)) == {}, ours * ForwardFile(c, s) != {}, theirs * PassedMask(c, s) == {},
      if c.White? then Rank(s) else 7 - Rank(s))
  }

  function SumOver(bb: Bitboard, f: Square -> Part): Part
    decreases |bb|
  {
    if bb == {} then NOTHING else f(First(bb)).Plus(SumOver(bb - {First(bb)}, f))
  }

  function TermOf(w: Weights, b: Board, c: Color, k: Kind, ring: Bitboard): Square -> Part {
    (s: Square) => Term(w, b, c, k, ring, s)
  }

  function PawnTermOf(w: Weights, ours: Bitboard, theirs: Bitboard, c: Color): Square -> Part {
    (s: Square) => PawnTerm(w, ours, theirs, c, s)
  }

  function KindsSum(w: Weights, b: Board, c: Color, ring: Bitboard, n: nat): Part
    requires n <= 6
  {
    if n == 0 then NOTHING
    else KindsSum(w, b, c, ring, n - 1).Plus(SumOver(Pieces(b, c, KINDS[n - 1]), TermOf(w, b, c, KINDS[n - 1], ring)))
  }

  function PairBonus(w: Weights, b: Board, c: Color): Part {
    if |Pieces(b, c, Bishop)| >= 2 then Part(w.bishopPair, w.bishopPair, 0, 0) else NOTHING
  }

  ghost function Side(w: Weights, b: Board, c: Color): Part
    requires OneKing(b, c.Opposite())
  {
    var ring := KingRing(KingSquare(b, c.Opposite()));
    var sum := KindsSum(w, b, c, ring, 6).Plus(PairBonus(w, b, c))
      .Plus(SumOver(Pieces(b, c, Pawn), PawnTermOf(w, Pieces(b, c, Pawn), Pieces(b, c.Opposite(), Pawn), c)));
    Part(sum.mg + TruncDiv(sum.king, 4), sum.eg, sum.phase, 0)
  }

  ghost function HandValue(w: Weights, b: Board, stm: Color): int
    requires OneKing(b, White) && OneKing(b, Black)
  {
    var white, black := Side(w, b, White), Side(w, b, Black);
    var phase := if white.phase + black.phase > MAX_PHASE then MAX_PHASE else white.phase + black.phase;
    var score := TruncDiv((white.mg - black.mg) * phase + (white.eg - black.eg) * (MAX_PHASE - phase), MAX_PHASE);
    if stm.White? then score + w.tempo else -(score - w.tempo)
  }

  // ---- what the terms and the blend mean

  /** The three pawn terms in words: no own pawn on a neighbouring file, an own pawn in front on the same file, and
      the table's test for a passed pawn, rewarded by the ranks covered. */
  lemma PawnTermReads(w: Weights, ours: Bitboard, theirs: Bitboard, c: Color, s: Square)
    ensures var isolated := forall t | t in ours :: Abs(File(t) - File(s)) != 1;
      var doubled := exists t ::
        t in ours && File(t) == File(s) && (if c.White? then Rank(s) < Rank(t) else Rank(t) < Rank(s));
      var passed := theirs * PassedMask(c, s) == {};
      var covered := if c.White? then Rank(s) else 7 - Rank(s);
      var penalty := (if isolated then w.isolated else 0) + if doubled then w.doubled else 0;
      PawnTerm(w, ours, theirs, c, s) ==
        Part((if passed then w.mgPassed(covered) else 0) - penalty,
          (if passed then w.egPassed(covered) else 0) - penalty, 0, 0)
  {
    hide PassedMask, AdjacentFiles, ForwardFile, Part.Plus;
    NoNeighbour(ours, s);
    PawnInFront(ours, c, s);
    PartsAddUp(w, ours * AdjacentFiles(File(s)) == {}, ours * ForwardFile(c, s) != {}, theirs * PassedMask(c, s) == {},
      if c.White? then Rank(s) else 7 - Rank(s));
  }

  lemma NoNeighbour(ours: Bitboard, s: Square)
    ensures ours * AdjacentFiles(File(s)) == {} <==> forall t | t in ours :: Abs(File(t) - File(s)) != 1
  {
    forall t | t in ours ensures t in ours * AdjacentFiles(File(s)) <==> Abs(File(t) - File(s)) == 1 {
    }
  }

  lemma PawnInFront(ours: Bitboard, c: Color, s: Square)
    ensures ours * ForwardFile(c, s) != {} <==>
      exists t :: t in ours && File(t) == File(s) && (if c.White? then Rank(s) < Rank(t) else Rank(t) < Rank(s))
  {
    forall t | t in ours ensures t in ours * ForwardFile(c, s) <==> File(t) == File(s) && AheadOf(c, s, t) {
    }
  }

  lemma PartsAddUp(w: Weights, isolated: bool, doubled: bool, passed: bool, covered: int)
    ensures var penalty := (if isolated then w.isolated else 0) + if doubled then w.doubled else 0;
      PawnParts(w, isolated, doubled, passed, covered) ==
        Part((if passed then w.mgPassed(covered) else 0) - penalty,
          (if passed then w.egPassed(covered) else 0) - penalty, 0, 0)
  {
  }

  /** The squares a man of this kind reaches that hold no man of its own side and are attacked by no enemy pawn. */
  function SafeSquares(b: Board, c: Color, k: Kind, s: Square): Bitboard {
    set t: Square | Attacks(Piece(c, k), s, t, b.Keys) && !(t in b && b[t].color == c) &&
      !PawnAttacked(Pawns(b, c.Opposite()), c.Opposite(), t)
  }

  /** A knight, bishop, rook or queen in words: material and table, mobility by safe squares, pressure by the squares
      around the enemy king it reaches, and for a rook a file without own pawns, open or half open. */
  lemma OfficerTermReads(w: Weights, b: Board, c: Color, k: Kind, ring: Bitboard, s: Square)
    requires !k.Pawn? && !k.King?
    ensures var n := |SafeSquares(b, c, k, s)|;
      var near := set t: Square | Attacks(Piece(c, k), s, t, b.Keys) && t in ring;
      var own := exists t :: t in b && b[t] == Piece(c, Pawn) && File(t) == File(s);
      var theirs := exists t :: t in b && b[t] == Piece(c.Opposite(), Pawn) && File(t) == File(s);
      var file := if !k.Rook? || own then 0 else if theirs then w.rookSemiOpen else w.rookOpen;
      Term(w, b, c, k, ring, s) ==
        Part(w.mgMaterial(k) + w.mgTable(k, TableSquare(c, s)) + w.mgMobility(k) * n + file,
          w.egMaterial(k) + w.egTable(k, TableSquare(c, s)) + w.egMobility(k) * n + TruncDiv(file, 2),
          w.phase(k), w.kingAttack(k) * |near|)
  {
    hide Attacks, PawnAttackSpan, TableSquare, Men, RookFile, FileBB, Pieces, Targets, SafeSquares, TruncDiv;
    SafeExactly(b, c, k, s);
    NearExactly(b, c, k, s, ring);
    RookFileReads(w, b, c, s);
    NothingHalved();
  }

  lemma NothingHalved()
    ensures TruncDiv(0, 2) == 0
  {
  }

  lemma NearExactly(b: Board, c: Color, k: Kind, s: Square, ring: Bitboard)
    requires !k.Pawn?
    ensures Targets(k, s, b.Keys) * ring == set t: Square | Attacks(Piece(c, k), s, t, b.Keys) && t in ring
  {
    hide Attacks;
    forall t: Square ensures Attacks(Piece(White, k), s, t, b.Keys) <==> Attacks(Piece(c, k), s, t, b.Keys) {
      EitherColor(c, k, s, t, b.Keys);
    }
  }

  lemma RookFileReads(w: Weights, b: Board, c: Color, s: Square)
    ensures var own := exists t :: t in b && b[t] == Piece(c, Pawn) && File(t) == File(s);
      var theirs := exists t :: t in b && b[t] == Piece(c.Opposite(), Pawn) && File(t) == File(s);
      var file := if own then 0 else if theirs then w.rookSemiOpen else w.rookOpen;
      RookFile(w, Pieces(b, c, Pawn), Pieces(b, c.Opposite(), Pawn), FileBB(File(s))) ==
        Part(file, TruncDiv(file, 2), 0, 0)
  {
    hide Pieces, FileBB, TruncDiv;
    OnFile(b, c, s);
    OnFile(b, c.Opposite(), s);
    NothingHalved();
  }

  lemma RingReads(s: Square, t: Square)
    ensures t in KingRing(s) <==> Dist(s, t) <= 1
  {
    SquareIsItsCoordinates(s, t);
  }

  lemma EitherColor(c: Color, k: Kind, s: Square, t: Square, occ: Bitboard)
    requires !k.Pawn?
    ensures Attacks(Piece(White, k), s, t, occ) <==> Attacks(Piece(c, k), s, t, occ)
  {
    ColorBlind(k, s, t, occ);
  }

  lemma SafeExactly(b: Board, c: Color, k: Kind, s: Square)
    requires !k.Pawn?
    ensures Targets(k, s, b.Keys) - PawnAttackSpan(Pieces(b, c.Opposite(), Pawn), c.Opposite()) - Men(b, c) ==
      SafeSquares(b, c, k, s)
  {
    hide Attacks, PawnAttacked, PawnAttackSpan;
    assert Pieces(b, c.Opposite(), Pawn) == Pawns(b, c.Opposite());
    SpanExactly(b, c.Opposite());
    forall t: Square ensures t in Targets(k, s, b.Keys) <==> Attacks(Piece(c, k), s, t, b.Keys) {
      EitherColor(c, k, s, t, b.Keys);
    }
  }

  lemma OnFile(b: Board, c: Color, s: Square)
    ensures Pieces(b, c, Pawn) * FileBB(File(s)) == {} <==>
      !exists t :: t in b && b[t] == Piece(c, Pawn) && File(t) == File(s)
  {
    hide File;
    forall t ensures t in Pieces(b, c, Pawn) * FileBB(File(s)) <==>
      t in b && b[t] == Piece(c, Pawn) && File(t) == File(s)
    {
    }
  }

  /** One side in words: its men and pawns, the pair bonus if it has two bishops, and a quarter of the pressure on the
      enemy king, cut towards zero, in the middlegame number only. */
  lemma SideReads(w: Weights, b: Board, c: Color)
    requires OneKing(b, c.Opposite())
    ensures var ring := set t: Square | Dist(KingSquare(b, c.Opposite()), t) <= 1;
      var ours, theirs := Pieces(b, c, Pawn), Pieces(b, c.Opposite(), Pawn);
      var men := KindsSum(w, b, c, ring, 6).Plus(SumOver(ours, PawnTermOf(w, ours, theirs, c)));
      var two := exists s, t :: s in Pieces(b, c, Bishop) && t in Pieces(b, c, Bishop) && s != t;
      var pair := if two then w.bishopPair else 0;
      var side := Side(w, b, c);
      var quarter := side.mg - men.mg - pair;
      && side.eg == men.eg + pair && side.phase == men.phase
      && if men.king >= 0 then quarter * 4 <= men.king < quarter * 4 + 4 else quarter * 4 - 4 < men.king <= quarter * 4
  {
    hide Pieces, KindsSum, SumOver, OneKing, KingRing, PawnTermOf, Side, Dist;
    var k := KingSquare(b, c.Opposite());
    forall t: Square ensures t in KingRing(k) <==> Dist(k, t) <= 1 { RingReads(k, t); }
    assert KingRing(k) == set t: Square | Dist(k, t) <= 1;
    TwoMembers(Pieces(b, c, Bishop));
    SideAdds(w, b, c);
  }

  lemma SideAdds(w: Weights, b: Board, c: Color)
    requires OneKing(b, c.Opposite())
    ensures var ours, theirs := Pieces(b, c, Pawn), Pieces(b, c.Opposite(), Pawn);
      var men := KindsSum(w, b, c, KingRing(KingSquare(b, c.Opposite())), 6)
        .Plus(SumOver(ours, PawnTermOf(w, ours, theirs, c)));
      var pair := if |Pieces(b, c, Bishop)| >= 2 then w.bishopPair else 0;
      var side := Side(w, b, c);
      var quarter := side.mg - men.mg - pair;
      && side.eg == men.eg + pair && side.phase == men.phase
      && if men.king >= 0 then quarter * 4 <= men.king < quarter * 4 + 4 else quarter * 4 - 4 < men.king <= quarter * 4
  {
    hide Pieces, KindsSum, SumOver, OneKing, KingRing, TruncDiv, PawnTermOf;
    var ours, theirs := Pieces(b, c, Pawn), Pieces(b, c.Opposite(), Pawn);
    NoPawnPressure(w, ours, theirs, c, ours);
    Quarter(KindsSum(w, b, c, KingRing(KingSquare(b, c.Opposite())), 6).king);
  }

  lemma TwoMembers(bb: Bitboard)
    ensures |bb| >= 2 <==> exists s, t :: s in bb && t in bb && s != t
  {
    if |bb| >= 2 {
      var s :| s in bb;
      assert |bb - {s}| == |bb| - 1;
      var t :| t in bb - {s};
      assert s in bb && t in bb && s != t;
    } else if s, t :| s in bb && t in bb && s != t {
      SubsetSize({s, t}, bb);
    }
  }

  lemma {:induction false} NoPawnPressure(w: Weights, ours: Bitboard, theirs: Bitboard, c: Color, bb: Bitboard)
    ensures SumOver(bb, PawnTermOf(w, ours, theirs, c)).king == 0
    decreases |bb|
  {
    hide First, AdjacentFiles, ForwardFile, PassedMask;
    if bb != {} {
      NoPawnPressure(w, ours, theirs, c, bb - {First(bb)});
    }
  }

  lemma Quarter(x: int)
    ensures var q := TruncDiv(x, 4); if x >= 0 then q * 4 <= x < q * 4 + 4 else q * 4 - 4 < x <= q * 4
  {
  }

  ghost function Phase(w: Weights, b: Board): int
    requires OneKing(b, White) && OneKing(b, Black)
  {
    Side(w, b, White).phase + Side(w, b, Black).phase
  }

  /** With 24 points of phase or more the value is the middlegame difference, with none the endgame difference, and
      between them the blend in parts of 24, cut towards zero; the tempo is the mover's throughout. */
  lemma ValueByPhase(w: Weights, b: Board, stm: Color)
    requires OneKing(b, White) && OneKing(b, Black)
    ensures var own, foe := Side(w, b, stm), Side(w, b, stm.Opposite());
      var phase := own.phase + foe.phase;
      var value := HandValue(w, b, stm) - w.tempo;
      && (phase >= 24 ==> value == own.mg - foe.mg)
      && (phase == 0 ==> value == own.eg - foe.eg)
      && (0 <= phase <= 24 ==>
            var x := phase * (own.mg - foe.mg) + (24 - phase) * (own.eg - foe.eg);
            if x >= 0 then value * 24 <= x < value * 24 + 24 else value * 24 - 24 < x <= value * 24)
  {
    hide Side, OneKing, TruncDiv;
    var white, black := Side(w, b, White), Side(w, b, Black);
    var phase := if white.phase + black.phase > 24 then 24 else white.phase + black.phase;
    BlendReads(white.mg - black.mg, white.eg - black.eg, phase);
    NegatedProducts(white.mg - black.mg, white.eg - black.eg, phase);
    assert black.mg - white.mg == -(white.mg - black.mg) && black.eg - white.eg == -(white.eg - black.eg);
  }

  lemma BlendReads(mg: int, eg: int, phase: int)
    ensures var v := TruncDiv(mg * phase + eg * (24 - phase), 24);
      var x := phase * mg + (24 - phase) * eg;
      && (phase == 24 ==> v == mg) && (phase == 0 ==> v == eg)
      && if x >= 0 then v * 24 <= x < v * 24 + 24 else v * 24 - 24 < x <= v * 24
  {
    hide TruncDiv;
    CutByPhase(mg * phase + eg * (24 - phase));
    assert mg * phase == phase * mg && eg * (24 - phase) == (24 - phase) * eg;
  }

  lemma CutByPhase(x: int)
    ensures var v := TruncDiv(x, 24); if x >= 0 then v * 24 <= x < v * 24 + 24 else v * 24 - 24 < x <= v * 24
  {
  }

  lemma NegatedProducts(mg: int, eg: int, phase: int)
    ensures phase * (-mg) + (24 - phase) * (-eg) == -(phase * mg + (24 - phase) * eg)
  {
  }

  /** The weights differ in endgame numbers only. */
  ghost predicate SameMiddlegame(w: Weights, v: Weights) {
    && v == w.(egMaterial := v.egMaterial, egTable := v.egTable, egMobility := v.egMobility, egPassed := v.egPassed)
  }

  /** The weights differ in middlegame numbers only; pressure on the king is one of them. */
  ghost predicate SameEndgame(w: Weights, v: Weights) {
    && v == w.(mgMaterial := v.mgMaterial, mgTable := v.mgTable, mgMobility := v.mgMobility, mgPassed := v.mgPassed,
      kingAttack := v.kingAttack)
  }

  predicate AgreeMiddle(p: Part, q: Part) { p.mg == q.mg && p.king == q.king && p.phase == q.phase }

  predicate AgreeEnd(p: Part, q: Part) { p.eg == q.eg && p.phase == q.phase }

  lemma {:induction false} SumsAgree(bb: Bitboard, f: Square -> Part, g: Square -> Part)
    ensures (forall s | s in bb :: AgreeMiddle(f(s), g(s))) ==> AgreeMiddle(SumOver(bb, f), SumOver(bb, g))
    ensures (forall s | s in bb :: AgreeEnd(f(s), g(s))) ==> AgreeEnd(SumOver(bb, f), SumOver(bb, g))
    decreases |bb|
  {
    hide First;
    if bb != {} {
      SumsAgree(bb - {First(bb)}, f, g);
    }
  }

  lemma {:induction false} KindsAgree(w: Weights, v: Weights, b: Board, c: Color, ring: Bitboard, n: nat)
    requires n <= 6
    ensures SameMiddlegame(w, v) ==> AgreeMiddle(KindsSum(w, b, c, ring, n), KindsSum(v, b, c, ring, n))
    ensures SameEndgame(w, v) ==> AgreeEnd(KindsSum(w, b, c, ring, n), KindsSum(v, b, c, ring, n))
  {
    hide Pieces, Term, SumOver, AgreeMiddle, AgreeEnd, SameMiddlegame, SameEndgame;
    if n == 0 {
      NothingAgrees();
    } else {
      KindsAgree(w, v, b, c, ring, n - 1);
      var k := KINDS[n - 1];
      var f, g := TermOf(w, b, c, k, ring), TermOf(v, b, c, k, ring);
      forall s: Square
        ensures SameMiddlegame(w, v) ==> AgreeMiddle(f(s), g(s))
        ensures SameEndgame(w, v) ==> AgreeEnd(f(s), g(s))
      {
        TermsAgree(w, v, b, c, k, ring, s);
      }
      SumsAgree(Pieces(b, c, k), f, g);
      PlusAgrees(KindsSum(w, b, c, ring, n - 1), KindsSum(v, b, c, ring, n - 1),
        SumOver(Pieces(b, c, k), f), SumOver(Pieces(b, c, k), g));
    }
  }

  lemma NothingAgrees()
    ensures AgreeMiddle(NOTHING, NOTHING) && AgreeEnd(NOTHING, NOTHING)
  {
  }

  lemma PlusAgrees(p: Part, q: Part, x: Part, y: Part)
    ensures AgreeMiddle(p, q) && AgreeMiddle(x, y) ==> AgreeMiddle(p.Plus(x), q.Plus(y))
    ensures AgreeEnd(p, q) && AgreeEnd(x, y) ==> AgreeEnd(p.Plus(x), q.Plus(y))
  {
  }

  lemma TermsAgree(w: Weights, v: Weights, b: Board, c: Color, k: Kind, ring: Bitboard, s: Square)
    ensures SameMiddlegame(w, v) ==> AgreeMiddle(Term(w, b, c, k, ring, s), Term(v, b, c, k, ring, s))
    ensures SameEndgame(w, v) ==> AgreeEnd(Term(w, b, c, k, ring, s), Term(v, b, c, k, ring, s))
  {
    hide Pieces, Targets, PawnAttackSpan, TableSquare, FileBB, TruncDiv, Men;
  }

  lemma PawnTermsAgree(w: Weights, v: Weights, ours: Bitboard, theirs: Bitboard, c: Color, s: Square)
    ensures SameMiddlegame(w, v) ==> AgreeMiddle(PawnTerm(w, ours, theirs, c, s), PawnTerm(v, ours, theirs, c, s))
    ensures SameEndgame(w, v) ==> AgreeEnd(PawnTerm(w, ours, theirs, c, s), PawnTerm(v, ours, theirs, c, s))
  {
    hide PassedMask, ForwardFile, AdjacentFiles, PawnParts, AgreeMiddle, AgreeEnd, SameMiddlegame, SameEndgame;
    PartsAgree(w, v, ours * AdjacentFiles(File(s)) == {}, ours * ForwardFile(c, s) != {},
      theirs * PassedMask(c, s) == {}, if c.White? then Rank(s) else 7 - Rank(s));
  }

  lemma PartsAgree(w: Weights, v: Weights, isolated: bool, doubled: bool, passed: bool, covered: int)
    ensures SameMiddlegame(w, v) ==>
      AgreeMiddle(PawnParts(w, isolated, doubled, passed, covered), PawnParts(v, isolated, doubled, passed, covered))
    ensures SameEndgame(w, v) ==>
      AgreeEnd(PawnParts(w, isolated, doubled, passed, covered), PawnParts(v, isolated, doubled, passed, covered))
  {
    hide PawnParts;
    PartsAddUp(w, isolated, doubled, passed, covered);
    PartsAddUp(v, isolated, doubled, passed, covered);
  }

  lemma SidesAgree(w: Weights, v: Weights, b: Board, c: Color)
    requires OneKing(b, c.Opposite())
    ensures SameMiddlegame(w, v) ==> Side(w, b, c).mg == Side(v, b, c).mg && Side(w, b, c).phase == Side(v, b, c).phase
    ensures SameEndgame(w, v) ==> AgreeEnd(Side(w, b, c), Side(v, b, c))
  {
    hide Pieces, KindsSum, SumOver, OneKing, PawnTerm, SameMiddlegame, SameEndgame, KingRing;
    KindsAgree(w, v, b, c, KingRing(KingSquare(b, c.Opposite())), 6);
    var ours, theirs := Pieces(b, c, Pawn), Pieces(b, c.Opposite(), Pawn);
    var f, g := PawnTermOf(w, ours, theirs, c), PawnTermOf(v, ours, theirs, c);
    forall s: Square
      ensures SameMiddlegame(w, v) ==> AgreeMiddle(f(s), g(s))
      ensures SameEndgame(w, v) ==> AgreeEnd(f(s), g(s))
    {
      PawnTermsAgree(w, v, ours, theirs, c, s);
    }
    SumsAgree(ours, f, g);
    if SameMiddlegame(w, v) || SameEndgame(w, v) { SameBonus(w, v); }
  }

  lemma SameBonus(w: Weights, v: Weights)
    requires SameMiddlegame(w, v) || SameEndgame(w, v)
    ensures w.bishopPair == v.bishopPair && w.tempo == v.tempo
  {
  }

  /** At full phase no endgame number matters, and without phase no middlegame number does. */
  lemma PhaseDecidesWhichNumbers(w: Weights, v: Weights, b: Board, stm: Color)
    requires OneKing(b, White) && OneKing(b, Black)
    ensures SameMiddlegame(w, v) && Phase(w, b) >= 24 ==> HandValue(w, b, stm) == HandValue(v, b, stm)
    ensures SameEndgame(w, v) && Phase(w, b) == 0 ==> HandValue(w, b, stm) == HandValue(v, b, stm)
  {
    hide Side, OneKing, HandValue;
    SidesAgree(w, v, b, White);
    SidesAgree(w, v, b, Black);
    ValueByPhase(w, b, stm);
    ValueByPhase(v, b, stm);
  }

  // ---- symmetry

  lemma {:induction false} SumWithout(bb: Bitboard, f: Square -> Part, s: Square)
    requires s in bb
    ensures SumOver(bb, f) == f(s).Plus(SumOver(bb - {s}, f))
    decreases |bb|
  {
    hide First;
    var first := First(bb);
    if s != first {
      SumWithout(bb - {first}, f, s);
      var rest := bb - {s};
      SumWithout(rest, f, first);
      assert rest - {first} == bb - {first} - {s};
    }
  }

  lemma FlipSetMinus(bb: Bitboard, s: Square)
    requires s in bb
    ensures Flip(s) in FlipSet(bb) && FlipSet(bb) - {Flip(s)} == FlipSet(bb - {s})
  {
    hide Flip;
    FlipTwice(s);
    forall t: Square ensures Flip(t) == s <==> t == Flip(s) {
      FlipTwice(t);
    }
  }

  lemma {:induction false} SumMirrors(bb: Bitboard, f: Square -> Part, g: Square -> Part)
    requires forall s | s in bb :: g(Flip(s)) == f(s)
    ensures SumOver(FlipSet(bb), g) == SumOver(bb, f) && |FlipSet(bb)| == |bb|
    decreases |bb|
  {
    hide Flip, First;
    if bb == {} {
      assert FlipSet(bb) == {};
    } else {
      var s := First(bb);
      assert s in bb;
      FlipSetMinus(bb, s);
      SumWithout(FlipSet(bb), g, Flip(s));
      SumMirrors(bb - {s}, f, g);
    }
  }

  lemma SizeMirrors(bb: Bitboard)
    ensures |FlipSet(bb)| == |bb|
  {
    SumMirrors(bb, s => NOTHING, s => NOTHING);
  }

  lemma MeetsMirrors(a: Bitboard, b: Bitboard)
    ensures FlipSet(a) * FlipSet(b) == FlipSet(a * b) && FlipSet(a) - FlipSet(b) == FlipSet(a - b)
    ensures FlipSet(a) == {} <==> a == {}
  {
    hide Flip;
    forall s | s in a ensures Flip(s) in FlipSet(a) { FlipTwice(s); }
  }

  lemma PiecesMirror(b: Board, c: Color, k: Kind)
    ensures Pieces(MirrorBoard(b), c.Opposite(), k) == FlipSet(Pieces(b, c, k))
    ensures Men(MirrorBoard(b), c.Opposite()) == FlipSet(Men(b, c))
  {
    hide Flip;
  }

  lemma SpanMirrors(pawns: Bitboard, c: Color)
    ensures PawnAttackSpan(FlipSet(pawns), c.Opposite()) == FlipSet(PawnAttackSpan(pawns, c))
  {
    hide Flip;
    forall t: Square
      ensures t in PawnAttackSpan(FlipSet(pawns), c.Opposite()) <==> Flip(t) in PawnAttackSpan(pawns, c)
    {
      FlipFacts(t);
      StepBack(pawns, c, t, 1);
      StepBack(pawns, c, t, -1);
    }
  }

  lemma StepBack(pawns: Bitboard, c: Color, t: Square, df: int)
    ensures t in Shifted(FlipSet(pawns), df, Forward(c.Opposite())) <==> Flip(t) in Shifted(pawns, df, Forward(c))
  {
    hide Flip, File, Rank, MakeSquare;
    FlipFacts(t);
    if OnBoard(File(t) - df, Rank(t) + Forward(c)) {
      SourceFlips(File(t) - df, Rank(t) + Forward(c));
    }
  }

  lemma SourceFlips(file: int, rank: int)
    requires OnBoard(file, rank)
    ensures Flip(MakeSquare(file, rank)) == MakeSquare(file, 7 - rank)
  {
  }

  lemma TargetsMirror(k: Kind, s: Square, occ: Bitboard)
    requires !k.Pawn?
    ensures Targets(k, Flip(s), FlipSet(occ)) == FlipSet(Targets(k, s, occ))
  {
    hide Flip, Attacks;
    forall t: Square
      ensures Attacks(Piece(White, k), Flip(s), t, FlipSet(occ)) <==> Attacks(Piece(White, k), s, Flip(t), occ)
    {
      FlipTwice(t);
      AttacksFlip(Piece(Black, k), s, Flip(t), occ);
      ColorBlind(k, s, Flip(t), occ);
    }
  }

  lemma ColorBlind(k: Kind, a: Square, b: Square, occ: Bitboard)
    requires !k.Pawn?
    ensures Attacks(Piece(White, k), a, b, occ) <==> Attacks(Piece(Black, k), a, b, occ)
  {
  }

  lemma MasksMirror(c: Color, s: Square)
    ensures FlipSet(AdjacentFiles(File(s))) == AdjacentFiles(File(Flip(s))) &&
      FlipSet(FileBB(File(s))) == FileBB(File(Flip(s)))
    ensures FlipSet(ForwardFile(c, s)) == ForwardFile(c.Opposite(), Flip(s))
    ensures FlipSet(PassedMask(c, s)) == PassedMask(c.Opposite(), Flip(s))
  {
    hide Flip;
    FlipFacts(s);
    forall t: Square ensures File(Flip(t)) == File(t) && Rank(Flip(t)) == 7 - Rank(t) { FlipFacts(t); }
  }

  lemma RingMirrors(s: Square)
    ensures KingRing(Flip(s)) == FlipSet(KingRing(s))
  {
    hide Flip, DF, DR;
    forall t: Square ensures t in KingRing(Flip(s)) <==> Flip(t) in KingRing(s) {
      FlipTwice(t);
      DifferencesFlip(s, Flip(t));
    }
  }

  lemma TermMirrors(w: Weights, b: Board, c: Color, k: Kind, ring: Bitboard, s: Square)
    ensures Term(w, MirrorBoard(b), c.Opposite(), k, FlipSet(ring), Flip(s)) == Term(w, b, c, k, ring, s)
  {
    hide Flip, MirrorBoard, FlipSet, Pieces, Men, PawnAttackSpan, Targets, FileBB, TruncDiv;
    FlipTwice(s);
    if !k.Pawn? && !k.King? {
      var attacks, span, men :=
        Targets(k, s, b.Keys), PawnAttackSpan(Pieces(b, c.Opposite(), Pawn), c.Opposite()), Men(b, c);
      KeysFlip(b);
      TargetsMirror(k, s, b.Keys);
      PiecesMirror(b, c, Pawn);
      PiecesMirror(b, c.Opposite(), Pawn);
      SpanMirrors(Pieces(b, c.Opposite(), Pawn), c.Opposite());
      MeetsMirrors(attacks, span);
      MeetsMirrors(attacks - span, men);
      SizeMirrors(attacks - span - men);
      MeetsMirrors(attacks, ring);
      SizeMirrors(attacks * ring);
      MasksMirror(c, s);
      RookFileMirrors(w, Pieces(b, c, Pawn), Pieces(b, c.Opposite(), Pawn), FileBB(File(s)));
    }
  }

  lemma RookFileMirrors(w: Weights, ours: Bitboard, theirs: Bitboard, file: Bitboard)
    ensures RookFile(w, FlipSet(ours), FlipSet(theirs), FlipSet(file)) == RookFile(w, ours, theirs, file)
  {
    hide FlipSet, TruncDiv;
    MissMirrors(ours, file);
    MissMirrors(theirs, file);
  }

  lemma PawnTermMirrors(w: Weights, ours: Bitboard, theirs: Bitboard, c: Color, s: Square)
    ensures PawnTerm(w, FlipSet(ours), FlipSet(theirs), c.Opposite(), Flip(s)) == PawnTerm(w, ours, theirs, c, s)
  {
    hide FlipSet, Flip, AdjacentFiles, ForwardFile, PassedMask, PawnParts;
    FlipFacts(s);
    MasksMirror(c, s);
    MissMirrors(ours, AdjacentFiles(File(s)));
    MissMirrors(ours, ForwardFile(c, s));
    MissMirrors(theirs, PassedMask(c, s));
  }

  lemma MissMirrors(a: Bitboard, b: Bitboard)
    ensures FlipSet(a) * FlipSet(b) == {} <==> a * b == {}
  {
    hide FlipSet;
    MeetsMirrors(a, b);
    MeetsMirrors(a * b, {});
  }

  lemma {:induction false} KindsMirror(w: Weights, b: Board, c: Color, ring: Bitboard, n: nat)
    requires n <= 6
    ensures KindsSum(w, MirrorBoard(b), c.Opposite(), FlipSet(ring), n) == KindsSum(w, b, c, ring, n)
  {
    hide FlipSet, Flip, MirrorBoard, Pieces, Term, SumOver;
    if n > 0 {
      var k := KINDS[n - 1];
      KindsMirror(w, b, c, ring, n - 1);
      PiecesMirror(b, c, k);
      var f, g := TermOf(w, b, c, k, ring), TermOf(w, MirrorBoard(b), c.Opposite(), k, FlipSet(ring));
      forall s: Square ensures g(Flip(s)) == f(s) { TermMirrors(w, b, c, k, ring, s); }
      SumMirrors(Pieces(b, c, k), f, g);
    }
  }

  lemma KingMirrors(b: Board, c: Color)
    requires OneKing(b, c)
    ensures OneKing(MirrorBoard(b), c.Opposite()) && KingSquare(MirrorBoard(b), c.Opposite()) == Flip(KingSquare(b, c))
  {
    hide Flip;
    var k := KingSquare(b, c);
    MirrorHas(b, k);
    forall j | IsKing(MirrorBoard(b), c.Opposite(), j) ensures j == Flip(k) {
      FlipTwice(j);
      MirrorHas(b, Flip(j));
      assert IsKing(b, c, Flip(j));
    }
    assert IsKing(MirrorBoard(b), c.Opposite(), Flip(k));
  }

  lemma SideMirrors(w: Weights, b: Board, c: Color)
    requires OneKing(b, c.Opposite())
    ensures OneKing(MirrorBoard(b), c) && Side(w, MirrorBoard(b), c.Opposite()) == Side(w, b, c)
  {
    hide FlipSet, Flip, MirrorBoard, Pieces, PawnTerm, SumOver, KindsSum, OneKing, KingRing, TruncDiv;
    var k := KingSquare(b, c.Opposite());
    KingMirrors(b, c.Opposite());
    RingMirrors(k);
    KindsMirror(w, b, c, KingRing(k), 6);
    var ours, theirs := Pieces(b, c, Pawn), Pieces(b, c.Opposite(), Pawn);
    PiecesMirror(b, c, Pawn);
    PiecesMirror(b, c.Opposite(), Pawn);
    PiecesMirror(b, c, Bishop);
    SizeMirrors(Pieces(b, c, Bishop));
    var f, g := PawnTermOf(w, ours, theirs, c), PawnTermOf(w, FlipSet(ours), FlipSet(theirs), c.Opposite());
    forall s: Square ensures g(Flip(s)) == f(s) { PawnTermMirrors(w, ours, theirs, c, s); }
    SumMirrors(ours, f, g);
  }

  /** Whatever the weights and tables, a position and its mirror image are worth the same to the side to move:
      division towards zero commutes with the change of sign. */
  lemma HandCraftedIsSymmetric(w: Weights, b: Board, stm: Color)
    requires OneKing(b, White) && OneKing(b, Black)
    ensures OneKing(MirrorBoard(b), White) && OneKing(MirrorBoard(b), Black)
    ensures HandValue(w, MirrorBoard(b), stm.Opposite()) == HandValue(w, b, stm)
  {
    hide Side, MirrorBoard, OneKing, TruncDiv;
    SideMirrors(w, b, White);
    SideMirrors(w, b, Black);
    var white, black := Side(w, b, White), Side(w, b, Black);
    var phase := if white.phase + black.phase > MAX_PHASE then MAX_PHASE else white.phase + black.phase;
    var x := (white.mg - black.mg) * phase + (white.eg - black.eg) * (MAX_PHASE - phase);
    var y := (black.mg - white.mg) * phase + (black.eg - white.eg) * (MAX_PHASE - phase);
    NegatedBlend(white.mg - black.mg, white.eg - black.eg, phase);
    assert y == -x;
    DivisionIsOdd(x);
  }

  lemma NegatedBlend(mg: int, eg: int, phase: int)
    ensures (-mg) * phase + (-eg) * (MAX_PHASE - phase) == -(mg * phase + eg * (MAX_PHASE - phase))
  {
  }

  lemma DivisionIsOdd(x: int)
    ensures TruncDiv(-x, MAX_PHASE) == -TruncDiv(x, MAX_PHASE)
  {
  }

  // ---- the loops

  method PawnStructure(w: Weights, m: Masks, ours: Bitboard, theirs: Bitboard, c: Color) returns (p: Part)
    requires forall f | 0 <= f < 8 :: f in m.adjacent && m.adjacent[f] == AdjacentFiles(f)
    requires ForwardUpTo(m.whiteForward, White, 64) && ForwardUpTo(m.blackForward, Black, 64)
    requires PassedUpTo(m.whitePassed, White, 64) && PassedUpTo(m.blackPassed, Black, 64)
    ensures p == SumOver(ours, PawnTermOf(w, ours, theirs, c))
  {
    hide AdjacentFiles, ForwardFile, PassedMask, First, PawnTermOf, SumOver, Part.Plus, ForwardUpTo, PassedUpTo;
    p := NOTHING;
    var bb := ours;
    SumLaws(p, bb, PawnTermOf(w, ours, theirs, c));
    while bb != {}
      invariant bb <= ours && p.Plus(SumOver(bb, PawnTermOf(w, ours, theirs, c))) ==
        SumOver(ours, PawnTermOf(w, ours, theirs, c))
      decreases bb
    {
      SumLaws(p, bb, PawnTermOf(w, ours, theirs, c));
      var s := First(bb);
      bb := bb - {s};
      p := AddPawn(w, m, ours, theirs, c, s, p);
    }
    SumLaws(p, bb, PawnTermOf(w, ours, theirs, c));
  }

  method AddPawn(w: Weights, m: Masks, ours: Bitboard, theirs: Bitboard, c: Color, s: Square, before: Part)
      returns (p: Part)
    requires forall f | 0 <= f < 8 :: f in m.adjacent && m.adjacent[f] == AdjacentFiles(f)
    requires ForwardUpTo(m.whiteForward, White, 64) && ForwardUpTo(m.blackForward, Black, 64)
    requires PassedUpTo(m.whitePassed, White, 64) && PassedUpTo(m.blackPassed, Black, 64)
    ensures p == before.Plus(PawnTermOf(w, ours, theirs, c)(s))
  {
    hide AdjacentFiles, ForwardFile, PassedMask, Filled, PawnParts, Part.Plus, ForwardUpTo, PassedUpTo;
    var forward := Filled(if c.White? then m.whiteForward else m.blackForward, s);
    var passed := Filled(if c.White? then m.whitePassed else m.blackPassed, s);
    FullTables(if c.White? then m.whiteForward else m.blackForward,
      if c.White? then m.whitePassed else m.blackPassed, c, s);
    p := AddParts(w, ours * m.adjacent[File(s)] == {}, ours * forward != {}, theirs * passed == {}, c, Rank(s), before);
  }

  lemma FullTables(forward: map<Square, Bitboard>, passed: map<Square, Bitboard>, c: Color, s: Square)
    requires ForwardUpTo(forward, c, 64) && PassedUpTo(passed, c, 64)
    ensures Filled(forward, s) == ForwardFile(c, s) && Filled(passed, s) == PassedMask(c, s)
  {
  }

  method AddParts(w: Weights, isolated: bool, doubled: bool, passed: bool, c: Color, rank: int, before: Part)
      returns (p: Part)
    ensures p == before.Plus(PawnParts(w, isolated, doubled, passed, if c.White? then rank else 7 - rank))
  {
    p := before;
    if isolated {
      p := p.(mg := p.mg - w.isolated, eg := p.eg - w.isolated);
    }
    if doubled {
      p := p.(mg := p.mg - w.doubled, eg := p.eg - w.doubled);
    }
    if passed {
      var travelled := if c.Black? then 7 - rank else rank;
      p := p.(mg := p.mg + w.mgPassed(travelled), eg := p.eg + w.egPassed(travelled));
    }
  }

  /** One step of a running sum, and its two ends. */
  lemma SumLaws(p: Part, bb: Bitboard, f: Square -> Part)
    ensures NOTHING.Plus(SumOver(bb, f)) == SumOver(bb, f)
    ensures bb == {} ==> p.Plus(SumOver(bb, f)) == p
    ensures bb != {} ==> p.Plus(SumOver(bb, f)) == p.Plus(f(First(bb))).Plus(SumOver(bb - {First(bb)}, f))
  {
    hide First;
  }

  method EvaluateSide(w: Weights, m: Masks, pos: Position, c: Color) returns (mg: int, eg: int, phase: int)
    requires pos.Views() && OneKing(pos.board, c.Opposite())
    requires forall f | 0 <= f < 8 :: f in m.adjacent && m.adjacent[f] == AdjacentFiles(f)
    requires ForwardUpTo(m.whiteForward, White, 64) && ForwardUpTo(m.blackForward, Black, 64)
    requires PassedUpTo(m.whitePassed, White, 64) && PassedUpTo(m.blackPassed, Black, 64)
    ensures Part(mg, eg, phase, 0) == Side(w, pos.board, c)
  {
    hide ViewsOf, ForwardUpTo, PassedUpTo, AdjacentFiles, Term, PawnTermOf, KingRing, TruncDiv, Pieces, KindsSum;
    hide OneKing, First, SumOver;
    var them := c.Opposite();
    var ring := KingRing(pos.KingSquareOf(them));
    var sum := NOTHING;
    NoKinds(w, pos.board, c, ring);
    for pt := 0 to 6
      invariant sum == KindsSum(w, pos.board, c, ring, pt)
    {
      var k := KINDS[pt];
      PiecesAreViews(pos, c, k);
      OneMoreKind(w, pos.board, c, ring, pt);
      var part := SumKind(w, pos, c, k, ring, pos.PiecesOf(c, k));
      sum := sum.Plus(part);
    }
    PiecesAreViews(pos, c, Bishop);
    PiecesAreViews(pos, c, Pawn);
    PiecesAreViews(pos, them, Pawn);
    if |pos.PiecesOf(c, Bishop)| >= 2 {
      sum := sum.Plus(Part(w.bishopPair, w.bishopPair, 0, 0));
    } else {
      sum := sum.Plus(NOTHING);
    }
    var pawns := PawnStructure(w, m, pos.PiecesOf(c, Pawn), pos.PiecesOf(them, Pawn), c);
    sum := sum.Plus(pawns);
    mg, eg, phase := sum.mg + TruncDiv(sum.king, 4), sum.eg, sum.phase;
  }

  lemma NoKinds(w: Weights, b: Board, c: Color, ring: Bitboard)
    ensures KindsSum(w, b, c, ring, 0) == NOTHING
  {
  }

  lemma OneMoreKind(w: Weights, b: Board, c: Color, ring: Bitboard, n: nat)
    requires n < 6
    ensures KindsSum(w, b, c, ring, n + 1) ==
      KindsSum(w, b, c, ring, n).Plus(SumOver(Pieces(b, c, KINDS[n]), TermOf(w, b, c, KINDS[n], ring)))
  {
  }

  lemma PiecesAreViews(pos: Position, c: Color, k: Kind)
    requires pos.Views()
    ensures c in pos.byColor && k in pos.byType && pos.PiecesOf(c, k) == Pieces(pos.board, c, k)
    ensures c.Opposite() in pos.byColor && pos.byColor[c] == Men(pos.board, c)
  {
  }

  /** The inner loop: men of one kind, material and table, then mobility, king pressure and rook files. */
  method SumKind(w: Weights, pos: Position, c: Color, k: Kind, ring: Bitboard, men: Bitboard) returns (sum: Part)
    requires pos.Views()
    ensures sum == SumOver(men, TermOf(w, pos.board, c, k, ring))
  {
    hide ViewsOf, Term, First, SumOver, Part.Plus;
    sum := NOTHING;
    var bb := men;
    SumLaws(sum, bb, TermOf(w, pos.board, c, k, ring));
    while bb != {}
      invariant bb <= men && sum.Plus(SumOver(bb, TermOf(w, pos.board, c, k, ring))) ==
        SumOver(men, TermOf(w, pos.board, c, k, ring))
      decreases bb
    {
      SumLaws(sum, bb, TermOf(w, pos.board, c, k, ring));
      var s := First(bb);
      bb := bb - {s};
      var part := OneMan(w, pos, c, k, ring, s);
      sum := sum.Plus(part);
    }
    SumLaws(sum, bb, TermOf(w, pos.board, c, k, ring));
  }

  method AddActivity(w: Weights, k: Kind, n: int, attacked: int, before: Part) returns (part: Part)
    ensures part == before.Plus(Activity(w, k, n, attacked))
  {
    part := before.(mg := before.mg + w.mgMobility(k) * n, eg := before.eg + w.egMobility(k) * n);
    part := part.(king := part.king + w.kingAttack(k) * attacked);
  }

  method OneMan(w: Weights, pos: Position, c: Color, k: Kind, ring: Bitboard, s: Square) returns (part: Part)
    requires pos.Views()
    ensures part == Term(w, pos.board, c, k, ring, s)
  {
    hide ViewsOf, Pieces, PawnAttackSpan, Targets, TruncDiv, FileBB, TableSquare, Men, RookFile, Activity, Part.Plus;
    hide Position.PiecesOf, Position.Occupied;
    part := Part(w.mgMaterial(k) + w.mgTable(k, TableSquare(c, s)), w.egMaterial(k) + w.egTable(k, TableSquare(c, s)),
      w.phase(k), 0);
    if k.Pawn? || k.King? {
      return;
    }
    var them := c.Opposite();
    PiecesAreViews(pos, c, Pawn);
    PiecesAreViews(pos, them, Pawn);
    pos.OccupiedIsBoard();
    ViewsTotal(pos);
    var attacks := Targets(k, s, pos.Occupied());
    var safe := attacks - PawnAttackSpan(pos.PiecesOf(them, Pawn), them) - pos.byColor[c];
    var n := |safe|;
    part := AddActivity(w, k, n, |attacks * ring|, part);
    if k.Rook? {
      part := part.Plus(RookFile(w, pos.PiecesOf(c, Pawn), pos.PiecesOf(them, Pawn), FileBB(File(s))));
    }
  }

  /** Evaluate: White's terms minus Black's, blended by phase, seen from the side to move. */
  method Evaluate(w: Weights, m: Masks, pos: Position) returns (score: int)
    requires pos.Views() && OneKing(pos.board, White) && OneKing(pos.board, Black)
    requires forall f | 0 <= f < 8 :: f in m.adjacent && m.adjacent[f] == AdjacentFiles(f)
    requires ForwardUpTo(m.whiteForward, White, 64) && ForwardUpTo(m.blackForward, Black, 64)
    requires PassedUpTo(m.whitePassed, White, 64) && PassedUpTo(m.blackPassed, Black, 64)
    ensures score == HandValue(w, pos.board, pos.side)
  {
    hide ViewsOf, Side, ForwardUpTo, PassedUpTo, AdjacentFiles, OneKing, TruncDiv;
    var wmg, weg, wphase := EvaluateSide(w, m, pos, White);
    var bmg, beg, bphase := EvaluateSide(w, m, pos, Black);
    var mg, eg, phase := wmg - bmg, weg - beg, wphase + bphase;
    if phase > MAX_PHASE {
      phase := MAX_PHASE;
    }
    score := TruncDiv(mg * phase + eg * (MAX_PHASE - phase), MAX_PHASE);
    if pos.side.White? {
      score := score + w.tempo;
    } else {
      score := score - w.tempo;
    }
    if pos.side.Black? {
      score := -score;
    }
  }
}
