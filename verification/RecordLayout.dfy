/** The byte layout of a packed sample (train/format.go), bit by bit, as another program has to read it. */
module RecordLayout {
  import opened Squares
  import opened Rules
  import opened PositionState
  import opened DataFile
  import opened Words
  import opened FenText
  import opened Fen
  import opened Samples

  // ---- bits of bytes of numbers

  lemma HalfOfQuotient(x: nat, k: nat)
    requires k > 0
    ensures x / (2 * k) == x / 2 / k
  {
    var q, r := x / 2 / k, x / 2 % k;
    assert x / 2 == q * k + r;
    var bit := x % 2;
    assert x == q * (2 * k) + (2 * r + bit) && 0 <= 2 * r + bit < 2 * k;
    QuotientIs(x, 2 * k, q, 2 * r + bit);
  }

  lemma QuotientIs(x: nat, d: nat, q: nat, r: nat)
    requires d > 0 && x == q * d + r && r < d
    ensures x / d == q
  {
    assert (x / d - q) * d == x / d * d - q * d == r - x % d;
    Multiples(x / d - q, d);
  }

  lemma Multiples(k: int, d: int)
    requires d > 0
    ensures k >= 1 ==> k * d >= d
    ensures k <= -1 ==> k * d <= -d
  {
  }

  /** The n-th bit of x. */
  function BitAt(x: nat, n: nat): nat { x / Pow2(n) % 2 }

  lemma BitsShift(x: nat, n: nat)
    ensures BitAt(x, n + 1) == BitAt(x / 2, n) && BitAt(x, 0) == x % 2
  {
    HalfOfQuotient(x, Pow2(n));
  }

  lemma {:induction false} BitOfOccupancy(b: Bitboard, from: nat, s: Square)
    requires from <= s
    ensures BitAt(Occupancy(b, from), s - from) == if s in b then 1 else 0
    decreases s - from
  {
    hide BitAt;
    var x := Occupancy(b, from);
    if from == s {
      BitsShift(x, 0);
      assert x % 2 == if s in b then 1 else 0;
    } else {
      BitsShift(x, s - from - 1);
      BitOfOccupancy(b, from + 1, s);
      assert x / 2 == Occupancy(b, from + 1);
    }
  }

  /** The bits of a byte are those of the number it was cut from. */
  lemma {:induction false} BitOfByte(x: nat, j: nat)
    requires j < 8
    ensures BitAt(x % 256, j) == BitAt(x, j)
  {
    BitOfRemainder(x, 8, j);
    assert Pow2(8) == 256 by { EightBits(0); }
  }

  lemma {:induction false} BitOfRemainder(x: nat, n: nat, j: nat)
    requires j < n
    ensures BitAt(x % Pow2(n), j) == BitAt(x, j)
    decreases n
  {
    hide BitAt;
    var m := Pow2(n - 1);
    var y := x % (2 * m);
    HalfOfRemainder(x, m);
    if j == 0 {
      BitsShift(x, 0);
      BitsShift(y, 0);
    } else {
      BitsShift(x, j - 1);
      BitsShift(y, j - 1);
      BitOfRemainder(x / 2, n - 1, j - 1);
    }
  }

  lemma HalfOfRemainder(x: nat, m: nat)
    requires m > 0
    ensures x % (2 * m) % 2 == x % 2 && x % (2 * m) / 2 == x / 2 % m
  {
    var q, r := x / (2 * m), x % (2 * m);
    assert x == q * (2 * m) + r;
    assert q * (2 * m) == 2 * (q * m);
    assert x % 2 == r % 2;
    assert x / 2 == q * m + r / 2;
    HalfOfQuotient(x, m);
  }

  lemma {:induction false} BitOfLittleEndian(x: nat, width: nat, n: nat)
    requires n < 8 * width
    ensures BitAt(LittleEndian(x, width)[n / 8], n % 8) == BitAt(x, n)
    decreases width
  {
    hide BitAt;
    if n < 8 {
      BitOfByte(x, n);
    } else {
      BitOfLittleEndian(x / 256, width - 1, n - 8);
      EightShifts(x, n - 8);
    }
  }

  lemma EightShifts(x: nat, n: nat)
    ensures BitAt(x, n + 8) == BitAt(x / 256, n)
  {
    hide BitAt;
    BitsShift(x, n + 7);
    BitsShift(x / 2, n + 6);
    BitsShift(x / 4, n + 5);
    BitsShift(x / 8, n + 4);
    BitsShift(x / 16, n + 3);
    BitsShift(x / 32, n + 2);
    BitsShift(x / 64, n + 1);
    BitsShift(x / 128, n);
  }

  // ---- the men

  /** How many men stand on lower squares. */
  function Below(occ: Bitboard, s: Square): nat { |set t | t in occ && t < s| }

  lemma {:induction false} CodeOfMan(b: Board, occ: Bitboard, s: Square)
    requires s in occ && occ <= b.Keys
    ensures Below(occ, s) < |Codes(b, occ)| && Codes(b, occ)[Below(occ, s)] == PieceCode(b[s])
    decreases |occ|
  {
    hide PieceCode, First, Below;
    BelowSteps(occ, s);
    if s != First(occ) {
      CodeOfMan(b, occ - {First(occ)}, s);
    }
  }

  lemma BelowSteps(occ: Bitboard, s: Square)
    requires s in occ
    ensures Below(occ, s) == if s == First(occ) then 0 else 1 + Below(occ - {First(occ)}, s)
  {
    var first := First(occ);
    var rest := occ - {first};
    if s == first {
      assert (set t | t in occ && t < s) == {};
    } else {
      assert (set t | t in occ && t < s) == (set t | t in rest && t < s) + {first};
    }
  }

  // ---- the record

  /** The j-th half byte of the sixteen that hold the men, low halves first. */
  function HalfByte(p: Record, j: nat): nat
    requires j < 32
  {
    if j % 2 == 0 then p[8 + j / 2] % 16 else p[8 + j / 2] / 16
  }

  /** 0 to 5 for the White pawn, knight, bishop, rook, queen and king, 6 to 11 for the Black ones. */
  function ManNumber(pc: Piece): nat {
    (if pc.color.White? then 0 else 6) +
    match pc.kind
    case Pawn => 0
    case Knight => 1
    case Bishop => 2
    case Rook => 3
    case Queen => 4
    case King => 5
  }

  lemma SquaresAreBits(s: Sample, t: Square)
    requires InRange(s) && |s.pos.board| <= 32
    ensures BitAt(Packed(s)[t / 8], t % 8) == if t in s.pos.board then 1 else 0
  {
    hide BitAt, LittleEndian, Occupancy, Packed;
    PackedParts(s);
    var x := Occupancy(s.pos.board.Keys, 0);
    BitOfLittleEndian(x, 8, t);
    BitOfOccupancy(s.pos.board.Keys, 0, t);
    assert Packed(s)[..8][t / 8] == Packed(s)[t / 8];
  }

  lemma CodeIsNumber(pc: Piece)
    ensures PieceCode(pc) == ManNumber(pc)
  {
  }

  lemma MenAreHalfBytes(s: Sample, t: Square)
    requires InRange(s) && |s.pos.board| <= 32 && t in s.pos.board
    ensures Below(s.pos.board.Keys, t) < 32
    ensures HalfByte(Packed(s), Below(s.pos.board.Keys, t)) == ManNumber(s.pos.board[t])
  {
    hide Packed, Codes, Nibbles, Below, PieceCode, Meta, Occupancy, LittleEndian, To16, InRange;
    PackedParts(s);
    CodeIsNumber(s.pos.board[t]);
    var b, j := s.pos.board, Below(s.pos.board.Keys, t);
    CodeOfMan(b, b.Keys, t);
    BoardSize(b);
    NibbleReadsBack(Codes(b, b.Keys), j);
    assert Packed(s)[8..24][j / 2] == Packed(s)[8 + j / 2];
  }

  /** Two bytes, the low one first. */
  function Word(low: nat, high: nat): nat { low + 256 * high }

  lemma TwoBytes(x: nat, b: Bytes)
    requires x < 0x1_0000 && b == LittleEndian(x, 2)
    ensures Word(b[0], b[1]) == x
  {
    assert LittleEndian(x, 2) == [x % 256] + LittleEndian(x / 256, 1);
  }

  lemma WordsOfRecord(s: Sample)
    requires InRange(s) && |s.pos.board| <= 32
    ensures var p := Packed(s);
      && Word(p[24], p[25]) == Meta(s.pos)
      && Word(p[26], p[27]) == (if s.score < 0 then s.score + 0x1_0000 else s.score)
      && Word(p[28], p[29]) == s.ply
      && p[30] == (if s.result < 0 then s.result + 256 else s.result) && p[31] == 0
  {
    hide Packed, Meta, LittleEndian, To16;
    PackedParts(s);
    var p := Packed(s);
    MetaIsSmall(s.pos);
    TwosComplement(s.score, s.result);
    Slice(p, 24);
    Slice(p, 26);
    Slice(p, 28);
    TwoBytes(Meta(s.pos), p[24..26]);
    TwoBytes(To16(s.score), p[26..28]);
    TwoBytes(s.ply, p[28..30]);
  }

  lemma Slice(p: Bytes, i: nat)
    requires i + 2 <= |p|
    ensures |p[i..i + 2]| == 2 && p[i..i + 2][0] == p[i] && p[i..i + 2][1] == p[i + 1]
  {
  }

  lemma TwosComplement(score: int, result: int)
    requires -0x8000 <= score < 0x8000 && -0x80 <= result < 0x80
    ensures To16(score) == if score < 0 then score + 0x1_0000 else score
    ensures result % 256 == if result < 0 then result + 256 else result
  {
  }

  lemma MetaIsSmall(p: Pos)
    ensures Meta(p) < 512
  {
    hide RightBits, File;
  }

  /** What the two bytes after the men say: bit 0 the side, bits 1 to 4 the rights in the order KQkq, and from bit 5 the
      file of the target, 8 for none. */
  lemma MetaLayout(p: Pos)
    ensures var x := Meta(p);
      && (x % 2 == 1 <==> p.side.Black?)
      && (x / 2 % 2 == 1 <==> Right(White, true) in p.castling) &&
        (x / 4 % 2 == 1 <==> Right(White, false) in p.castling)
      && (x / 8 % 2 == 1 <==> Right(Black, true) in p.castling) &&
        (x / 16 % 2 == 1 <==> Right(Black, false) in p.castling)
      && x / 32 == if p.ep.Some? then File(p.ep.value) else 8
  {
    hide File;
    var w, q := if Right(White, true) in p.castling then 1 else 0, if Right(White, false) in p.castling then 1 else 0;
    var k, l := if Right(Black, true) in p.castling then 1 else 0, if Right(Black, false) in p.castling then 1 else 0;
    assert RightBits(p.castling) == w + 2 * q + 4 * k + 8 * l;
    FiveBits(if p.side.Black? then 1 else 0, w, q, k, l, if p.ep.Some? then File(p.ep.value) else 8);
  }

  lemma FiveBits(a: nat, b: nat, c: nat, d: nat, e: nat, rest: nat)
    requires a < 2 && b < 2 && c < 2 && d < 2 && e < 2
    ensures var x := a + 2 * (b + 2 * c + 4 * d + 8 * e) + 32 * rest;
      x % 2 == a && x / 2 % 2 == b && x / 4 % 2 == c && x / 8 % 2 == d && x / 16 % 2 == e && x / 32 == rest
  {
    var x := a + 2 * (b + 2 * c + 4 * d + 8 * e) + 32 * rest;
    LowBit(x, a, b + 2 * c + 4 * d + 8 * e + 16 * rest);
    LowBit(x / 2, b, c + 2 * d + 4 * e + 8 * rest);
    LowBit(x / 4, c, d + 2 * e + 4 * rest);
    LowBit(x / 8, d, e + 2 * rest);
    LowBit(x / 16, e, rest);
  }

  lemma LowBit(x: nat, bit: nat, rest: nat)
    requires x == bit + 2 * rest && bit < 2
    ensures x % 2 == bit && x / 2 == rest
  {
  }

  /** The layout of the format: a bit for every occupied square, its man in the half byte counted by the men below it,
      then side, rights and target, score and ply with the low byte first and negative numbers in two's complement, the
      result, and a zero. */
  lemma Layout(s: Sample)
    requires InRange(s) && |s.pos.board| <= 32
    ensures var p, b := Packed(s), s.pos.board;
      && (forall t: Square :: BitAt(p[t / 8], t % 8) == if t in b then 1 else 0)
      && (forall t | t in b :: Below(b.Keys, t) < 32 && HalfByte(p, Below(b.Keys, t)) == ManNumber(b[t]))
      && Word(p[24], p[25]) == Meta(s.pos)
      && Word(p[26], p[27]) == (if s.score < 0 then s.score + 0x1_0000 else s.score)
      && Word(p[28], p[29]) == s.ply
      && p[30] == (if s.result < 0 then s.result + 256 else s.result) && p[31] == 0
  {
    hide Packed, Meta, BitAt, HalfByte, ManNumber, Below;
    WordsOfRecord(s);
    forall t: Square ensures BitAt(Packed(s)[t / 8], t % 8) == if t in s.pos.board then 1 else 0 {
      SquaresAreBits(s, t);
    }
    forall t | t in s.pos.board
      ensures Below(s.pos.board.Keys, t) < 32
      ensures HalfByte(Packed(s), Below(s.pos.board.Keys, t)) == ManNumber(s.pos.board[t])
    {
      MenAreHalfBytes(s, t);
    }
  }
}
