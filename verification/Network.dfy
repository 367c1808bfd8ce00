/** The evaluation network (network.go, accumulator.go): feature indices, accumulators, and the output
    layer, with the integer widths of the engine written out. Weights are arbitrary 16-bit numbers. */
module Network {
  import opened Squares
  import opened Rules
  import opened BoardSums
  import opened PositionState

  const INPUT := 768
  const HIDDEN := 256
  const QA := 255
  const QB := 64
  const SCALE := 400
  const EVAL_LIMIT := 20000

  predicate Int16(x: int) { -0x8000 <= x < 0x8000 }

  predicate Int32(x: int) { -0x8000_0000 <= x < 0x8000_0000 }

  /** What a 32-bit addition leaves of its exact result. */
  function Wrap32(x: int): int { (x + 0x8000_0000) % 0x1_0000_0000 - 0x8000_0000 }

  /** What a 64-bit operation leaves of its exact result. */
  function Wrap64(x: int): int { (x + 0x8000_0000_0000_0000) % 0x1_0000_0000_0000_0000 - 0x8000_0000_0000_0000 }

  /** Division as the machine does it, towards zero. */
  function TruncDiv(x: int, d: int): int
    requires d > 0
  {
    if x >= 0 then x / d else -((-x) / d)
  }

  datatype Net = Net(features: seq<int>, bias: seq<int>, output: seq<int>, outputBias: int)

  predicate WellShaped(n: Net) {
    && |n.features| == INPUT * HIDDEN && |n.bias| == HIDDEN && |n.output| == 2 * HIDDEN
    && (forall i | 0 <= i < |n.features| :: Int16(n.features[i]))
    && (forall i | 0 <= i < HIDDEN :: Int16(n.bias[i]))
    && (forall i | 0 <= i < 2 * HIDDEN :: Int16(n.output[i]))
    && Int32(n.outputBias)
  }

  function ColorIndex(c: Color): nat { if c.White? then 0 else 1 }

  function KindIndex(k: Kind): (i: nat)
    ensures i < 6
  {
    match k
    case Pawn => 0
    case Knight => 1
    case Bishop => 2
    case Rook => 3
    case Queen => 4
    case King => 5
  }

  /** Flips the rank and keeps the file (exclusive or with 56). */
  function Flip(s: Square): Square { MakeSquare(File(s), 7 - Rank(s)) }

  /** The input that a man on s switches on, seen from one side: for Black the board is turned around. */
  function FeatureIndex(view: Color, pc: Piece, s: Square): (i: nat)
    ensures i < INPUT
  {
    var color := if view.Black? then pc.color.Opposite() else pc.color;
    var square := if view.Black? then Flip(s) else s;
    (ColorIndex(color) * 6 + KindIndex(pc.kind)) * 64 + square
  }

  lemma FlipTwice(s: Square)
    ensures Flip(Flip(s)) == s
  {
  }

  /** Different men or squares never share an input. */
  lemma FeatureIndexInjective(view: Color, pc: Piece, s: Square, pc': Piece, s': Square)
    requires FeatureIndex(view, pc, s) == FeatureIndex(view, pc', s')
    ensures pc == pc' && s == s'
  {
    hide Flip;
    FlipTwice(s);
    FlipTwice(s');
    var color := if view.Black? then pc.color.Opposite() else pc.color;
    var color' := if view.Black? then pc'.color.Opposite() else pc'.color;
    var row, row' := ColorIndex(color) * 6 + KindIndex(pc.kind), ColorIndex(color') * 6 + KindIndex(pc'.kind);
    assert row == row';
    assert ColorIndex(color) == ColorIndex(color');
  }

  /** Own men come first, each kind has a block of 64, and a square is counted from the side's own first rank. */
  lemma InputLayout(view: Color, pc: Piece, s: Square)
    ensures var i := FeatureIndex(view, pc, s);
      && (i < 384 <==> pc.color == view)
      && i / 64 % 6 == (match pc.kind case Pawn => 0 case Knight => 1 case Bishop => 2 case Rook => 3 case Queen => 4
         case King => 5)
      && i % 8 == File(s) && i / 8 % 8 == if view.White? then Rank(s) else 7 - Rank(s)
  {
    hide Flip;
    var color := if view.Black? then pc.color.Opposite() else pc.color;
    BlockOf(ColorIndex(color) * 6 + KindIndex(pc.kind), if view.Black? then Flip(s) else s);
    FlipTurns(s);
  }

  lemma BlockOf(row: nat, t: Square)
    ensures (row * 64 + t) / 64 == row && (row * 64 + t) % 8 == File(t) && (row * 64 + t) / 8 % 8 == Rank(t)
  {
    assert (row * 64 + t) / 8 == row * 8 + t / 8;
  }

  lemma FlipTurns(s: Square)
    ensures File(Flip(s)) == File(s) && Rank(Flip(s)) == 7 - Rank(s)
  {
  }

  /** The weight one man contributes to entry i of one half. */
  function RowWeight(n: Net, view: Color, i: nat): Weight
    requires WellShaped(n) && i < HIDDEN
  {
    (pc: Piece, s: Square) => FeatureWeight(n, FeatureIndex(view, pc, s), i)
  }

  function FeatureWeight(n: Net, index: nat, i: nat): (w: int)
    requires WellShaped(n) && i < HIDDEN && index < INPUT
    ensures Int16(w)
  {
    assert index * HIDDEN + i < INPUT * HIDDEN;
    n.features[index * HIDDEN + i]
  }

  type Half = h: seq<int> | |h| == HIDDEN witness seq(HIDDEN, i => 0)

  /** One half per side. In the engine this is a struct of arrays, copied by value. */
  datatype Accumulator = Accumulator(white: Half, black: Half) {
    function Of(c: Color): Half { if c.White? then white else black }
  }

  /** Entry i of the half of one side, computed from the board alone. */
  function FreshEntry(n: Net, b: Board, view: Color, i: nat): int
    requires WellShaped(n) && i < HIDDEN
  {
    n.bias[i] + Total(RowWeight(n, view, i), b)
  }

  /** acc is the accumulator of board b. */
  ghost predicate IsFresh(n: Net, b: Board, acc: Accumulator)
    requires WellShaped(n)
  {
    forall c: Color, i: nat | i < HIDDEN :: acc.Of(c)[i] == FreshEntry(n, b, c, i)
  }

  lemma {:induction false} SumInRange(n: Net, view: Color, i: nat, b: Board, k: nat)
    requires WellShaped(n) && i < HIDDEN && k <= 64
    ensures -0x8000 * k <= Sum(RowWeight(n, view, i), b, k) <= 0x8000 * k
  {
    if k > 0 {
      SumInRange(n, view, i, b, k - 1);
    }
  }

  /** No accumulator of any board comes near the limits of 32 bits. */
  lemma FreshFits(n: Net, b: Board, view: Color, i: nat)
    requires WellShaped(n) && i < HIDDEN
    ensures Int32(FreshEntry(n, b, view, i)) && Wrap32(FreshEntry(n, b, view, i)) == FreshEntry(n, b, view, i)
  {
    SumInRange(n, view, i, b, 64);
  }

  // ---- switching features on and off

  /** Adds sign times a feature row to one half, entry by entry, in 32-bit arithmetic. */
  method AddRow(n: Net, half: Half, index: nat, sign: int) returns (out: Half)
    requires WellShaped(n) && index < INPUT && (sign == 1 || sign == -1)
    ensures forall i: nat | i < HIDDEN :: out[i] == Wrap32(half[i] + sign * FeatureWeight(n, index, i))
  {
    out := half;
    for i := 0 to HIDDEN
      invariant forall j: nat | j < i :: out[j] == Wrap32(half[j] + sign * FeatureWeight(n, index, j))
      invariant forall j: nat | i <= j < HIDDEN :: out[j] == half[j]
    {
      out := out[i := Wrap32(out[i] + sign * FeatureWeight(n, index, i))];
    }
  }

  lemma EntryAdded(n: Net, b: Board, pc: Piece, s: Square, c: Color, i: nat)
    requires WellShaped(n) && i < HIDDEN && s !in b
    ensures Wrap32(FreshEntry(n, b, c, i) + FeatureWeight(n, FeatureIndex(c, pc, s), i)) ==
      FreshEntry(n, b[s := pc], c, i)
  {
    hide FeatureIndex, Total, Wrap32;
    TotalPut(RowWeight(n, c, i), b, s, pc);
    FreshFits(n, b[s := pc], c, i);
  }

  lemma EntryRemoved(n: Net, b: Board, s: Square, c: Color, i: nat)
    requires WellShaped(n) && i < HIDDEN && s in b
    ensures Wrap32(FreshEntry(n, b, c, i) - FeatureWeight(n, FeatureIndex(c, b[s], s), i)) ==
      FreshEntry(n, b - {s}, c, i)
  {
    hide FeatureIndex, Total, Wrap32;
    TotalRemove(RowWeight(n, c, i), b, s);
    FreshFits(n, b - {s}, c, i);
  }

  /** What a neuron adds up: its bias for an empty board, and for each man one number of the table, a row for every
      input and a column for every neuron. */
  lemma NeuronAddsUp(n: Net, b: Board, pc: Piece, s: Square, view: Color, i: nat)
    requires WellShaped(n) && i < HIDDEN && s !in b
    ensures FreshEntry(n, map[], view, i) == n.bias[i]
    ensures FeatureIndex(view, pc, s) * 256 + i < |n.features|
    ensures FreshEntry(n, b[s := pc], view, i) ==
      FreshEntry(n, b, view, i) + n.features[FeatureIndex(view, pc, s) * 256 + i]
  {
    hide FeatureIndex, Total, Wrap32;
    TotalPut(RowWeight(n, view, i), b, s, pc);
    NoMenNoSum(RowWeight(n, view, i));
  }

  lemma NoMenNoSum(f: Weight)
    ensures Total(f, map[]) == 0
  {
    SumOfNothing(f, 64);
  }

  lemma EntryMoved(n: Net, b: Board, from: Square, to: Square, c: Color, i: nat)
    requires WellShaped(n) && i < HIDDEN && from in b && to !in b
    ensures Wrap32(FreshEntry(n, b, c, i) +
        Wrap32(FeatureWeight(n, FeatureIndex(c, b[from], to), i) - FeatureWeight(n, FeatureIndex(c, b[from], from), i)))
      == FreshEntry(n, (b - {from})[to := b[from]], c, i)
  {
    hide FeatureIndex, Total;
    TotalRemove(RowWeight(n, c, i), b, from);
    TotalPut(RowWeight(n, c, i), b - {from}, to, b[from]);
    FreshFits(n, (b - {from})[to := b[from]], c, i);
  }

  /** Add: a man appears on an empty square. */
  method Add(n: Net, acc: Accumulator, pc: Piece, s: Square, ghost b: Board) returns (out: Accumulator)
    requires WellShaped(n) && IsFresh(n, b, acc) && s !in b
    ensures IsFresh(n, b[s := pc], out)
  {
    hide Wrap32, FreshEntry, FeatureIndex, FeatureWeight;
    var white := AddRow(n, acc.white, FeatureIndex(White, pc, s), 1);
    var black := AddRow(n, acc.black, FeatureIndex(Black, pc, s), 1);
    out := Accumulator(white, black);
    forall c: Color, i: nat | i < HIDDEN ensures out.Of(c)[i] == FreshEntry(n, b[s := pc], c, i) {
      EntryAdded(n, b, pc, s, c, i);
    }
  }

  /** Remove: a man leaves its square. */
  method Remove(n: Net, acc: Accumulator, pc: Piece, s: Square, ghost b: Board) returns (out: Accumulator)
    requires WellShaped(n) && IsFresh(n, b, acc) && Has(b, s, pc)
    ensures IsFresh(n, b - {s}, out)
  {
    hide Wrap32, FreshEntry, FeatureIndex, FeatureWeight;
    var white := AddRow(n, acc.white, FeatureIndex(White, pc, s), -1);
    var black := AddRow(n, acc.black, FeatureIndex(Black, pc, s), -1);
    out := Accumulator(white, black);
    forall c: Color, i: nat | i < HIDDEN ensures out.Of(c)[i] == FreshEntry(n, b - {s}, c, i) {
      EntryRemoved(n, b, s, c, i);
    }
  }

  /** Relocates a man in one half: one pass, adding the difference of two rows. */
  method MoveRow(n: Net, half: Half, from: nat, to: nat) returns (out: Half)
    requires WellShaped(n) && from < INPUT && to < INPUT
    ensures forall i: nat | i < HIDDEN ::
      out[i] == Wrap32(half[i] + Wrap32(FeatureWeight(n, to, i) - FeatureWeight(n, from, i)))
  {
    out := half;
    for i := 0 to HIDDEN
      invariant forall j: nat | j < i ::
        out[j] == Wrap32(half[j] + Wrap32(FeatureWeight(n, to, j) - FeatureWeight(n, from, j)))
      invariant forall j: nat | i <= j < HIDDEN :: out[j] == half[j]
    {
      out := out[i := Wrap32(out[i] + Wrap32(FeatureWeight(n, to, i) - FeatureWeight(n, from, i)))];
    }
  }

  method Relocate(n: Net, acc: Accumulator, pc: Piece, from: Square, to: Square, ghost b: Board)
      returns (out: Accumulator)
    requires WellShaped(n) && IsFresh(n, b, acc) && Has(b, from, pc) && to !in b
    ensures IsFresh(n, (b - {from})[to := pc], out)
  {
    hide Wrap32, FreshEntry, FeatureIndex, FeatureWeight;
    var white := MoveRow(n, acc.white, FeatureIndex(White, pc, from), FeatureIndex(White, pc, to));
    var black := MoveRow(n, acc.black, FeatureIndex(Black, pc, from), FeatureIndex(Black, pc, to));
    out := Accumulator(white, black);
    forall c: Color, i: nat | i < HIDDEN ensures out.Of(c)[i] == FreshEntry(n, (b - {from})[to := pc], c, i) {
      EntryMoved(n, b, from, to, c, i);
    }
  }

  // ---- from scratch

  lemma {:induction false} SumOfNothing(f: Weight, n: nat)
    requires n <= 64
    ensures Sum(f, map[], n) == 0
  {
    if n > 0 {
      SumOfNothing(f, n - 1);
    }
  }

  /** Refresh: start from the bias and switch on one man after another. */
  method Refresh(n: Net, board: Board) returns (acc: Accumulator)
    requires WellShaped(n)
    ensures IsFresh(n, board, acc)
  {
    acc := Accumulator(n.bias, n.bias);
    var bb := board.Keys;
    ghost var done: Board := map[];
    forall c: Color, i: nat | i < HIDDEN ensures acc.Of(c)[i] == FreshEntry(n, done, c, i) {
      SumOfNothing(RowWeight(n, c, i), 64);
    }
    while bb != {}
      invariant bb <= board.Keys && IsFresh(n, done, acc)
      invariant done == map s | s in board && s !in bb :: board[s]
      decreases bb
    {
      hide FreshEntry;
      var sq: Square :| sq in bb && forall t | t in bb :: sq <= t by { LeastExists(bb); }
      bb := bb - {sq};
      acc := Add(n, acc, board[sq], sq, done);
      done := done[sq := board[sq]];
    }
    assert done == board;
  }

  // ---- the output layer

  /** Clipped rectifier: an activation lies between 0 and QA. */
  function Clip(v: int): (r: int)
    ensures 0 <= r <= QA
  {
    if v <= 0 then 0 else if v >= QA then QA else v
  }

  /** The first k products of one half with its output weights, which start at offset. */
  function Dot(n: Net, half: Half, offset: nat, k: nat): int
    requires WellShaped(n) && k <= HIDDEN && offset + k <= 2 * HIDDEN
  {
    if k == 0 then 0 else Dot(n, half, offset, k - 1) + Clip(half[k - 1]) * n.output[offset + k - 1]
  }

  function Clamp(v: int): (r: int)
    ensures -EVAL_LIMIT <= r <= EVAL_LIMIT
  {
    if v > EVAL_LIMIT then EVAL_LIMIT else if v < -EVAL_LIMIT then -EVAL_LIMIT else v
  }

  /** The network's score with the mover's half first. */
  function Score(n: Net, us: Half, them: Half): int
    requires WellShaped(n)
  {
    Clamp(TruncDiv((Dot(n, us, 0, HIDDEN) + Dot(n, them, HIDDEN, HIDDEN) + n.outputBias) * SCALE, QA * QB))
  }

  lemma ProductBound(a: int, w: int)
    requires 0 <= a <= QA && Int16(w)
    ensures -QA * 0x8000 <= a * w <= QA * 0x8000
  {
    ProductGrows(a, w, 0x8000);
    ProductGrows(a, -0x8000, w);
  }

  lemma ProductGrows(a: int, x: int, y: int)
    requires a >= 0 && x <= y
    ensures a * x <= a * y
  {
  }

  lemma {:induction false} DotBound(n: Net, half: Half, offset: nat, k: nat)
    requires WellShaped(n) && k <= HIDDEN && offset + k <= 2 * HIDDEN
    ensures -QA * 0x8000 * k <= Dot(n, half, offset, k) <= QA * 0x8000 * k
  {
    if k > 0 {
      DotBound(n, half, offset, k - 1);
      ProductBound(Clip(half[k - 1]), n.output[offset + k - 1]);
    }
  }

  lemma Fits64(x: int)
    requires -0x4000_0000_0000_0000 <= x < 0x4000_0000_0000_0000
    ensures Wrap64(x) == x
  {
  }

  lemma DotStep(n: Net, half: Half, offset: nat, i: nat, before: int)
    requires WellShaped(n) && i < HIDDEN && offset + i < 2 * HIDDEN
    requires -0x1_0000_0000_0000 <= before <= 0x1_0000_0000_0000
    ensures Wrap64(before + Dot(n, half, offset, i) + Wrap64(Clip(half[i]) * n.output[offset + i])) ==
      before + Dot(n, half, offset, i + 1)
  {
    hide Wrap64, Clip;
    DotBound(n, half, offset, i);
    ProductBound(Clip(half[i]), n.output[offset + i]);
    Fits64(Clip(half[i]) * n.output[offset + i]);
    Fits64(before + Dot(n, half, offset, i) + Clip(half[i]) * n.output[offset + i]);
  }

  /** Evaluate sums in 64 bits and never overflows them, whatever the weights. */
  method Evaluate(n: Net, acc: Accumulator, stm: Color) returns (cp: int)
    requires WellShaped(n)
    ensures cp == Score(n, acc.Of(stm), acc.Of(stm.Opposite()))
  {
    hide Wrap64, Clip, TruncDiv;
    var us, them := acc.Of(stm), acc.Of(stm.Opposite());
    var sum := 0;
    for i := 0 to HIDDEN
      invariant sum == Dot(n, us, 0, i)
    {
      DotStep(n, us, 0, i, 0);
      sum := Wrap64(sum + Wrap64(Clip(us[i]) * n.output[i]));
    }
    DotBound(n, us, 0, HIDDEN);
    ghost var ours := sum;
    for i := 0 to HIDDEN
      invariant sum == ours + Dot(n, them, HIDDEN, i)
    {
      DotStep(n, them, HIDDEN, i, ours);
      sum := Wrap64(sum + Wrap64(Clip(them[i]) * n.output[HIDDEN + i]));
    }
    DotBound(n, them, HIDDEN, HIDDEN);
    Fits64(sum + n.outputBias);
    sum := Wrap64(sum + n.outputBias);
    Fits64(sum * SCALE);
    cp := TruncDiv(Wrap64(sum * SCALE), QA * QB);
    if cp > EVAL_LIMIT {
      return EVAL_LIMIT;
    }
    if cp < -EVAL_LIMIT {
      return -EVAL_LIMIT;
    }
  }

  // ---- what the evaluation means

  ghost function FreshHalf(n: Net, b: Board, view: Color): Half
    requires WellShaped(n)
  {
    seq(HIDDEN, (i: nat) requires i < HIDDEN => FreshEntry(n, b, view, i))
  }

  /** The evaluation of a position, with no accumulator in sight. */
  ghost function Value(n: Net, b: Board, stm: Color): int
    requires WellShaped(n)
  {
    Score(n, FreshHalf(n, b, stm), FreshHalf(n, b, stm.Opposite()))
  }

  lemma FreshIsFreshHalf(n: Net, b: Board, acc: Accumulator)
    requires WellShaped(n) && IsFresh(n, b, acc)
    ensures forall c: Color :: acc.Of(c) == FreshHalf(n, b, c)
  {
  }

  // ---- which half speaks for whom

  lemma {:induction false} SilentDot(n: Net, half: Half, offset: nat, k: nat)
    requires WellShaped(n) && k <= HIDDEN && offset + k <= 2 * HIDDEN
    requires forall i | offset <= i < offset + k :: n.output[i] == 0
    ensures Dot(n, half, offset, k) == 0
  {
    if k > 0 {
      SilentDot(n, half, offset, k - 1);
    }
  }

  lemma {:induction false} OneVoiceDot(n: Net, half: Half, offset: nat, k: nat, at: nat)
    requires WellShaped(n) && k <= HIDDEN && offset + k <= 2 * HIDDEN && offset <= at < offset + k
    requires forall i | offset <= i < offset + k && i != at :: n.output[i] == 0
    ensures Dot(n, half, offset, k) == Clip(half[at - offset]) * n.output[at]
  {
    if at == offset + k - 1 {
      SilentDot(n, half, offset, k - 1);
    } else {
      OneVoiceDot(n, half, offset, k - 1, at);
    }
  }

  /** Without weights for the second half, only what the side to move sees counts. */
  lemma OpponentUnheard(n: Net, us: Half, them: Half, other: Half)
    requires WellShaped(n) && forall i | HIDDEN <= i < 2 * HIDDEN :: n.output[i] == 0
    ensures Score(n, us, them) == Score(n, us, other)
  {
    SilentDot(n, them, HIDDEN, HIDDEN);
    SilentDot(n, other, HIDDEN, HIDDEN);
  }

  lemma MoverUnheard(n: Net, us: Half, other: Half, them: Half)
    requires WellShaped(n) && forall i | 0 <= i < HIDDEN :: n.output[i] == 0
    ensures Score(n, us, them) == Score(n, other, them)
  {
    SilentDot(n, us, 0, HIDDEN);
    SilentDot(n, other, 0, HIDDEN);
  }

  /** v is x divided by d and cut towards zero, kept between -limit and limit. */
  predicate CutTowardsZero(v: int, x: int, d: int, limit: int) {
    if v >= limit then v == limit && x >= limit * d
    else if v <= -limit then v == -limit && x <= -limit * d
    else if x >= 0 then v * d <= x < v * d + d
    else v * d - d < x <= v * d
  }

  lemma ScoreIsCut(n: Net, us: Half, them: Half)
    requires WellShaped(n)
    ensures CutTowardsZero(Score(n, us, them),
      (Dot(n, us, 0, HIDDEN) + Dot(n, them, HIDDEN, HIDDEN) + n.outputBias) * 400, 16320, 20000)
  {
    hide Dot;
  }

  /** With a single output weight the value is one neuron of the side to move (first half) or of its opponent
      (second half), cut to 0..255, times that weight plus the bias, in the network's units of 400 in 255 * 64. */
  lemma OneVoice(n: Net, b: Board, stm: Color, at: nat)
    requires WellShaped(n) && at < 2 * HIDDEN && forall i | 0 <= i < 2 * HIDDEN && i != at :: n.output[i] == 0
    ensures var v := if at < HIDDEN then FreshEntry(n, b, stm, at) else FreshEntry(n, b, stm.Opposite(), at - HIDDEN);
      var heard := if v < 0 then 0 else if v > 255 then 255 else v;
      CutTowardsZero(Value(n, b, stm), (heard * n.output[at] + n.outputBias) * 400, 16320, 20000)
  {
    hide FreshEntry, Score, CutTowardsZero;
    var us, them := FreshHalf(n, b, stm), FreshHalf(n, b, stm.Opposite());
    ScoreIsCut(n, us, them);
    if at < HIDDEN {
      OneVoiceDot(n, us, 0, HIDDEN, at);
      SilentDot(n, them, HIDDEN, HIDDEN);
    } else {
      SilentDot(n, us, 0, HIDDEN);
      OneVoiceDot(n, them, HIDDEN, HIDDEN, at);
    }
  }
}
