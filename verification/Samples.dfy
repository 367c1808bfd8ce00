/** The packed training sample (train/format.go): a position, a score, a ply and a result in 32 bytes. */
module Samples {
  import opened Squares
  import opened Rules
  import opened PositionState
  import opened DataFile
  import opened Words
  import opened FenText
  import opened Fen

  /** A sample: score, ply and result in their machine ranges. */
  datatype Sample = Sample(pos: Pos, score: int, ply: nat, result: int)

  predicate InRange(s: Sample) { -0x8000 <= s.score < 0x8000 && s.ply < 0x1_0000 && -0x80 <= s.result < 0x80 }

  predicate Outcome(result: int) { result == 1 || result == 0 || result == -1 }

  // ---- occupancy

  /** The bits of squares from one upward, as a number. */
  function Occupancy(b: Bitboard, from: nat): nat
    requires from <= 64
    decreases 64 - from
  {
    if from == 64 then 0 else (if from in b then 1 else 0) + 2 * Occupancy(b, from + 1)
  }

  function Occupied(x: nat, from: nat): Bitboard
    requires from <= 64
    decreases 64 - from
  {
    if from == 64 then {} else (if x % 2 == 1 then {from} else {}) + Occupied(x / 2, from + 1)
  }

  lemma {:induction false} OccupancyRoundTrip(b: Bitboard, from: nat)
    requires from <= 64
    ensures Occupied(Occupancy(b, from), from) == set s | s in b && s >= from
    ensures Occupancy(b, from) < Pow2(64 - from)
    decreases 64 - from
  {
    if from < 64 {
      OccupancyRoundTrip(b, from + 1);
      var rest := Occupancy(b, from + 1);
      assert (if from in b then 1 else 0) + 2 * rest == Occupancy(b, from);
      assert Occupancy(b, from) / 2 == rest && (Occupancy(b, from) % 2 == 1 <==> from in b);
    }
  }

  lemma EightBytes()
    ensures Pow2(64) == Power256(8)
  {
    EightBits(0);
    EightBits(8);
    EightBits(16);
    EightBits(24);
    EightBits(32);
    EightBits(40);
    EightBits(48);
    EightBits(56);
  }

  lemma EightBits(n: nat)
    ensures Pow2(n + 8) == 256 * Pow2(n)
  {
    PowersMultiply(n, 8);
    assert Pow2(8) == 2 * Pow2(7) && Pow2(7) == 2 * Pow2(6) && Pow2(6) == 2 * Pow2(5) && Pow2(5) == 32;
  }

  // ---- men

  /** The codes of the men on the squares of occ, in square order. */
  function Codes(b: Board, occ: Bitboard): (codes: seq<nat>)
    requires occ <= b.Keys
    ensures |codes| == |occ| && forall i | 0 <= i < |codes| :: codes[i] < 12
    decreases |occ|
  {
    if occ == {} then [] else [PieceCode(b[First(occ)])] + Codes(b, occ - {First(occ)})
  }

  function CodeAt(codes: seq<nat>, i: nat): (n: nat)
    requires forall k | 0 <= k < |codes| :: codes[k] < 12
    ensures n < 12
  {
    if i < |codes| then codes[i] else 0
  }

  /** Two codes a byte, the earlier one low. */
  function Nibbles(codes: seq<nat>): (n: Bytes)
    requires forall k | 0 <= k < |codes| :: codes[k] < 12
    ensures |n| == 16
  {
    seq(16, j requires 0 <= j < 16 => CodeAt(codes, 2 * j) + 16 * CodeAt(codes, 2 * j + 1))
  }

  function NibbleAt(nibbles: Bytes, i: nat): nat
    requires |nibbles| == 16 && i < 32
  {
    if i % 2 == 0 then nibbles[i / 2] % 16 else nibbles[i / 2] / 16
  }

  /** The men that the nibbles from index on place on the squares of occ. */
  function Place(b: Board, nibbles: Bytes, occ: Bitboard, index: nat): Option<Board>
    requires |nibbles| == 16 && index + |occ| <= 32
    decreases |occ|
  {
    if occ == {} then Some(b)
    else if NibbleAt(nibbles, index) >= 12 then None
    else Place(b[First(occ) := PieceOfCode(NibbleAt(nibbles, index))], nibbles, occ - {First(occ)}, index + 1)
  }

  function Restrict(b: Board, occ: Bitboard): Board { map s | s in occ && s in b :: b[s] }

  lemma RestrictNothing(b: Board, acc: Board, occ: Bitboard)
    requires occ == {}
    ensures acc + Restrict(b, occ) == acc
  {
  }

  lemma RestrictOneLess(b: Board, acc: Board, occ: Bitboard, s: Square)
    requires s in occ && s in b
    ensures acc[s := b[s]] + Restrict(b, occ - {s}) == acc + Restrict(b, occ)
  {
  }

  lemma NibbleReadsBack(codes: seq<nat>, i: nat)
    requires (forall k | 0 <= k < |codes| :: codes[k] < 12) && i < |codes| <= 32
    ensures NibbleAt(Nibbles(codes), i) == codes[i]
  {
    assert i == 2 * (i / 2) || i == 2 * (i / 2) + 1;
  }

  lemma {:induction false} PlaceRoundTrip(b: Board, acc: Board, codes: seq<nat>, occ: Bitboard, index: nat)
    requires occ <= b.Keys && index + |occ| == |codes| <= 32
    requires (forall k | 0 <= k < |codes| :: codes[k] < 12) && codes[index..] == Codes(b, occ)
    ensures Place(acc, Nibbles(codes), occ, index) == Some(acc + Restrict(b, occ))
    decreases |occ|
  {
    hide Nibbles, NibbleAt, PieceCode, PieceOfCode, First, Restrict;
    if occ == {} {
      RestrictNothing(b, acc, occ);
    } else {
      var s := First(occ);
      assert codes[index] == codes[index..][0] && codes[index + 1..] == codes[index..][1..];
      NibbleReadsBack(codes, index);
      CodesMatch(b[s]);
      PlaceRoundTrip(b, acc[s := b[s]], codes, occ - {s}, index + 1);
      RestrictOneLess(b, acc, occ, s);
    }
  }

  // ---- side, rights, target

  function RightBits(castling: set<Right>): (n: nat)
    ensures n < 16
  {
    (if RIGHTS[0] in castling then 1 else 0) + (if RIGHTS[1] in castling then 2 else 0) +
      (if RIGHTS[2] in castling then 4 else 0) + if RIGHTS[3] in castling then 8 else 0
  }

  function RightsOfBits(n: nat): set<Right> {
    (if n % 2 == 1 then {RIGHTS[0]} else {}) + (if n / 2 % 2 == 1 then {RIGHTS[1]} else {}) +
      (if n / 4 % 2 == 1 then {RIGHTS[2]} else {}) + if n / 8 % 2 == 1 then {RIGHTS[3]} else {}
  }

  lemma RightsRoundTrip(castling: set<Right>)
    ensures RightsOfBits(RightBits(castling)) == castling
  {
    forall r | r in castling ensures r in RightsOfBits(RightBits(castling)) {
      match r {
        case Right(White, true) => assert r == RIGHTS[0];
        case Right(White, false) => assert r == RIGHTS[1];
        case Right(Black, true) => assert r == RIGHTS[2];
        case Right(Black, false) => assert r == RIGHTS[3];
      }
    }
  }

  function Meta(p: Pos): nat {
    (if p.side.Black? then 1 else 0) + 2 * RightBits(p.castling) + 32 * if p.ep.Some? then File(p.ep.value) else 8
  }

  function SideOfMeta(meta: nat): Color { if meta % 2 == 1 then Black else White }

  function RightsOfMeta(meta: nat): set<Right> { RightsOfBits(meta / 2 % 16) }

  function EpOfMeta(meta: nat): nat { meta / 32 % 16 }

  /** The target in a file field; its rank follows from the side to move. */
  function TargetOf(side: Color, epFile: nat): Option<Square> {
    if epFile < 8 then Some(MakeSquare(epFile, TargetRank(side))) else None
  }

  lemma MetaRoundTrip(p: Pos)
    requires p.ep.Some? ==> Rank(p.ep.value) == TargetRank(p.side)
    ensures Meta(p) < 0x1_0000
    ensures SideOfMeta(Meta(p)) == p.side && RightsOfMeta(Meta(p)) == p.castling
    ensures EpOfMeta(Meta(p)) <= 8 && TargetOf(p.side, EpOfMeta(Meta(p))) == p.ep
  {
    hide RightBits, RightsOfBits, File, Rank;
    RightsRoundTrip(p.castling);
    var low, bits := if p.side.Black? then 1 else 0, RightBits(p.castling);
    var ep := if p.ep.Some? then File(p.ep.value) else 8;
    assert Meta(p) == low + 2 * bits + 32 * ep;
    assert Meta(p) / 2 == bits + 16 * ep && Meta(p) / 32 == ep;
    if p.ep.Some? {
      TargetIsItsFile(p.side, p.ep.value);
    }
  }

  lemma TargetIsItsFile(side: Color, t: Square)
    requires Rank(t) == TargetRank(side)
    ensures TargetOf(side, File(t)) == Some(t)
  {
  }

  // ---- the record

  function From8(x: Byte): int { if x < 0x80 then x else x - 0x100 }

  function Encoded(s: Sample): Option<Record>
    requires InRange(s)
  {
    if |s.pos.board| > 32 || !Outcome(s.result) then None
    else Some(Packed(s))
  }

  function Packed(s: Sample): Record
    requires |s.pos.board| <= 32
  {
    LittleEndian(Occupancy(s.pos.board.Keys, 0), 8) + Nibbles(Codes(s.pos.board, s.pos.board.Keys)) +
      LittleEndian(Meta(s.pos), 2) + LittleEndian(To16(s.score), 2) + LittleEndian(s.ply, 2) + [s.result % 256, 0]
  }

  /** Rights in the classical order, with no rook to name. */
  function KQkqFrom(castling: set<Right>, i: nat): string
    requires i <= 4
    decreases 4 - i
  {
    if i == 4 then "" else (if RIGHTS[i] in castling then ["KQkq"[i]] else "") + KQkqFrom(castling, i + 1)
  }

  /** buildFEN. */
  function BuiltFEN(b: Board, side: Color, castling: set<Right>, epFile: nat): string {
    BoardText(b, 7) + " " + SideText(side) + " " + (if castling == {} then "-" else KQkqFrom(castling, 0)) + " " +
      SquareText(TargetOf(side, epFile)) + " 0 1"
  }

  datatype Decoded = Malformed | Broken | Good(sample: Sample)

  ghost function DecodedOf(p: Record): Decoded {
    var occ := Occupied(FromLittleEndian(p[..8]), 0);
    var meta := FromLittleEndian(p[24..26]);
    if |occ| > 32 || p[31] != 0 || EpOfMeta(meta) > 8 then Malformed
    else
      match Place(map[], p[8..24], occ, 0)
      case None => Malformed
      case Some(b) =>
        match Parse(BuiltFEN(b, SideOfMeta(meta), RightsOfMeta(meta), EpOfMeta(meta)), false)
        case Rejected => Malformed
        case Panicked => Broken
        case Accepted(pos, _) =>
          Good(Sample(pos, From16(FromLittleEndian(p[26..28])), FromLittleEndian(p[28..30]), From8(p[30])))
  }

  // ---- laws

  /** A position with these fields, fresh clocks, and some rook for every right. */
  function Bare(b: Board, side: Color, castling: set<Right>, epFile: nat): Pos {
    Pos(b, side, castling, TargetOf(side, epFile), 0, 1, Setup(map r | r in castling :: RookTo(r), map[], FullMask()))
  }

  lemma {:induction false} ClassicalText(p: Pos, i: nat)
    requires i <= 4 && RooksKnown(p)
    ensures CastlingFrom(p, i, false) == KQkqFrom(p.castling, i)
    decreases 4 - i
  {
    if i < 4 { ClassicalText(p, i + 1); }
  }

  lemma BuiltIsFen(p: Pos, epFile: nat)
    requires RooksKnown(p) && p.halfmove == 0 && p.fullmove == 1 && p.ep == TargetOf(p.side, epFile)
    ensures BuiltFEN(p.board, p.side, p.castling, epFile) == FenOf(p, false)
  {
    hide BoardText, KQkqFrom, CastlingFrom, TargetOf;
    ClassicalText(p, 0);
    var head := BoardText(p.board, 7) + " " + SideText(p.side) + " " + CastlingText(p, false) + " " + SquareText(p.ep);
    assert Itoa(0) == "0" && Itoa(1) == "1";
    assert head + " 0 1" == head + " " + "0" + " " + "1";
  }

  lemma PackedParts(s: Sample)
    requires |s.pos.board| <= 32 && InRange(s)
    ensures var p := Packed(s);
      && p[..8] == LittleEndian(Occupancy(s.pos.board.Keys, 0), 8) &&
        p[8..24] == Nibbles(Codes(s.pos.board, s.pos.board.Keys))
      && p[24..26] == LittleEndian(Meta(s.pos), 2) && p[26..28] == LittleEndian(To16(s.score), 2)
      && p[28..30] == LittleEndian(s.ply, 2) && p[30] == s.result % 256 && p[31] == 0
  {
    hide LittleEndian, Occupancy, Nibbles, Codes, Meta, To16;
  }

  lemma PowersOf256()
    ensures Power256(2) == 0x1_0000
  {
  }

  lemma FieldsReadBack(s: Sample)
    requires |s.pos.board| <= 32 && InRange(s) && EpValid(s.pos)
    ensures var p := Packed(s);
      && FromLittleEndian(p[..8]) == Occupancy(s.pos.board.Keys, 0)
      && FromLittleEndian(p[24..26]) == Meta(s.pos)
      && From16(FromLittleEndian(p[26..28])) == s.score && FromLittleEndian(p[28..30]) == s.ply &&
        From8(p[30]) == s.result
  {
    hide LittleEndian, FromLittleEndian, Occupancy, Packed, Power256, Pow2, Meta, EpValid, Nibbles, Codes, To16, From16;
    hide Occupied;
    PackedParts(s);
    PowersOf256();
    OccupancyFits(s.pos.board.Keys);
    MetaFits(s.pos);
    SixteenBits(s.score);
    LittleEndianRoundTrip(Occupancy(s.pos.board.Keys, 0), 8);
    LittleEndianRoundTrip(Meta(s.pos), 2);
    LittleEndianRoundTrip(To16(s.score), 2);
    LittleEndianRoundTrip(s.ply, 2);
  }

  lemma OccupancyFits(b: Bitboard)
    ensures Occupancy(b, 0) < Power256(8)
  {
    hide Pow2, Power256;
    EightBytes();
    OccupancyRoundTrip(b, 0);
  }

  lemma MetaFits(p: Pos)
    requires EpValid(p)
    ensures Meta(p) < 0x1_0000
  {
    hide EpAvailable;
    MetaRoundTrip(p);
  }

  lemma BoardReadsBack(s: Sample)
    requires |s.pos.board| <= 32 && InRange(s) && EpValid(s.pos)
    ensures var p := Packed(s);
      && Occupied(FromLittleEndian(p[..8]), 0) == s.pos.board.Keys
      && |s.pos.board.Keys| <= 32
      && Place(map[], p[8..24], s.pos.board.Keys, 0) == Some(s.pos.board)
  {
    hide Packed, FromLittleEndian, LittleEndian, Occupancy, Occupied, Nibbles, Codes, Place, EpAvailable, Pow2, Meta;
    hide From16, From8, To16;
    var b := s.pos.board;
    FieldsReadBack(s);
    PackedParts(s);
    OccupancyRoundTrip(b.Keys, 0);
    assert (set t | t in b.Keys && t >= 0) == b.Keys;
    BoardSize(b);
    var codes := Codes(b, b.Keys);
    assert codes[0..] == codes;
    PlaceRoundTrip(b, map[], codes, b.Keys, 0);
    assert map[] + Restrict(b, b.Keys) == b;
  }

  lemma BoardSize(b: Board)
    ensures |b.Keys| == |b|
  {
  }

  /** What the format keeps of a position: everything but the clocks. */
  function WithoutClocks(p: Pos): Pos { p.(halfmove := 0, fullmove := 1) }

  lemma WithoutClocksValid(p: Pos)
    requires Valid(p)
    ensures Valid(WithoutClocks(p))
  {
    hide RightAtHome, KingSafe, OneKing, NoPawnsOnEdges, EpAvailable;
    SameRights(p, WithoutClocks(p));
  }

  /** A valid position of at most 32 men with a real outcome encodes, and decoding returns the same sample but for
      the clocks; rook origins too exactly when the rooks of held rights are outermost, as in classical chess. */
  lemma SampleRoundTrip(s: Sample)
    requires InRange(s) && Valid(s.pos)
    ensures Encoded(s).Some? <==> |s.pos.board| <= 32 && Outcome(s.result)
    ensures Encoded(s).Some? ==>
      && DecodedOf(Encoded(s).value).Good?
      && var t := DecodedOf(Encoded(s).value).sample;
         && t.score == s.score && t.ply == s.ply && t.result == s.result
         && Valid(t.pos) && t.pos.(setup := s.pos.setup) == WithoutClocks(s.pos)
         && (SameOrigins(s.pos, t.pos) <==> AllOutermost(s.pos))
  {
    hide Packed, Parse, FenOf, BuiltFEN, FromLittleEndian, Place, Occupied, Meta, From16, From8, EpOfMeta, RightsOfMeta;
    hide SideOfMeta;
    hide OneKing, KingSafe, NoPawnsOnEdges, RightAtHome, EpAvailable, OutermostRight, SameOrigins, AllOutermost;
    if Encoded(s).Some? {
      var p := WithoutClocks(s.pos);
      WithoutClocksValid(s.pos);
      FieldsReadBack(s);
      BoardReadsBack(s);
      PackedParts(s);
      MetaRoundTrip(s.pos);
      ValidRoundTrip(p, false);
      BuiltIsFen(p, EpOfMeta(Meta(s.pos)));
      OriginsIgnoreClocks(s.pos, Parse(FenOf(p, false), false).pos);
    }
  }

  lemma OriginsIgnoreClocks(p: Pos, q: Pos)
    ensures SameOrigins(p, q) <==> SameOrigins(WithoutClocks(p), q)
    ensures AllOutermost(p) <==> AllOutermost(WithoutClocks(p))
  {
    hide OneKing, Outermost;
    forall r ensures OutermostRight(p, r) <==> OutermostRight(WithoutClocks(p), r) {
    }
  }

  /** Whatever 32 bytes are given, decoding fails cleanly or yields a valid position: it never indexes off the
      board, and no record can bring an impossible state in. */
  lemma DecodesToValid(p: Record)
    ensures !DecodedOf(p).Broken?
    ensures DecodedOf(p).Good? ==> Valid(DecodedOf(p).sample.pos)
  {
    hide FromLittleEndian, Place, Occupied, Valid, BuiltFEN;
    var occ := Occupied(FromLittleEndian(p[..8]), 0);
    var meta := FromLittleEndian(p[24..26]);
    if |occ| <= 32 && EpOfMeta(meta) <= 8 && Place(map[], p[8..24], occ, 0).Some? {
      BuiltParsesToValid(Place(map[], p[8..24], occ, 0).value, SideOfMeta(meta), RightsOfMeta(meta), EpOfMeta(meta));
    }
  }

  lemma BuiltParsesToValid(b: Board, side: Color, castling: set<Right>, epFile: nat)
    requires epFile <= 8
    ensures var r := Parse(BuiltFEN(b, side, castling, epFile), false);
      !r.Panicked? && (r.Accepted? ==> Valid(r.pos))
  {
    hide BuiltFEN, FenOf, Fields, ReadBoard, BoardText, OneKing, ReadCastling, CastlingText, KingSafe, NoPawnsOnEdges;
    hide EpAvailable, SquareText, Valid, Kinged;
    var p := Bare(b, side, castling, epFile);
    BuiltIsFen(p, epFile);
    FieldsRoundTrip(p, false);
    BoardRoundTrip(b);
    TargetIsSolid(p.ep);
    ItoaRoundTrip(0);
    ItoaRoundTrip(1);
    if OneKing(b, White) && OneKing(b, Black) {
      ReadCastlingKeeps(b, side, CastlingText(p, false), false);
    }
    var text := BuiltFEN(b, side, castling, epFile);
    if Parse(text, false).Accepted? {
      AcceptedFields(text, false);
    }
  }
}
