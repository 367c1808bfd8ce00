/** Packing and unpacking by the engine's loops (train/format.go), and the files they are written to. */
module SampleCodec {
  import opened Squares
  import opened Rules
  import opened Zobrist
  import opened PositionState
  import opened GameRules
  import opened Words
  import opened DataFile
  import opened FenText
  import opened Fen
  import opened FenLoops
  import opened Samples

  method PutLittleEndian(p: array<Byte>, at: nat, x: nat, width: nat)
    requires at + width <= p.Length
    modifies p
    ensures p[at..at + width] == LittleEndian(x, width)
    ensures forall k | 0 <= k < p.Length && (k < at || k >= at + width) :: p[k] == old(p[k])
  {
    var rest := x;
    for i := 0 to width
      invariant LittleEndian(x, width) == p[at..at + i] + LittleEndian(rest, width - i)
      invariant forall k | 0 <= k < p.Length && (k < at || k >= at + i) :: p[k] == old(p[k])
    {
      ghost var before := p[at..at + i];
      p[at + i] := rest % 256;
      assert p[at..at + i] == before;
      assert p[at..at + i + 1] == before + [p[at + i]];
      rest := rest / 256;
    }
  }

  lemma NibblesStep(codes: seq<nat>, x: nat)
    requires (forall k | 0 <= k < |codes| :: codes[k] < 12) && x < 12 && |codes| < 32
    ensures var n := Nibbles(codes);
      Nibbles(codes + [x]) == n[|codes| / 2 := if |codes| % 2 == 0 then x else n[|codes| / 2] + 16 * x]
  {
    var n, m := Nibbles(codes), Nibbles(codes + [x]);
    forall j | 0 <= j < 16 && j != |codes| / 2 ensures m[j] == n[j] {
      assert 2 * j + 1 < |codes| || 2 * j > |codes|;
    }
  }

  method PutMen(board: Board, occ: Bitboard, p: array<Byte>)
    requires p.Length == 32 && occ <= board.Keys && |occ| <= 32 && forall k | 8 <= k < 32 :: p[k] == 0
    modifies p
    ensures SameAround(p[..], old(p[..])) && Holds(p[..], Codes(board, occ))
  {
    hide PieceCode, Nibbles, Codes, First, Holds, SameAround;
    var index: nat := 0;
    var bb := occ;
    ghost var done: seq<nat> := [];
    NoNibbles(p[..]);
    while bb != {}
      invariant bb <= occ && index == |done| && index + |bb| == |Codes(board, occ)| <= 32
      invariant Codes(board, occ) == done + Codes(board, bb)
      invariant SameAround(p[..], old(p[..])) && Holds(p[..], done)
      decreases |bb|
    {
      CodesStep(board, bb);
      var sq := First(bb);
      bb := bb - {sq};
      var piece := board[sq];
      ghost var before := p[..];
      PutNibble(p, index, PieceCode(piece), done);
      SameTwice(p[..], before, old(p[..]));
      Regroup(done, PieceCode(piece), Codes(board, bb));
      done := done + [PieceCode(piece)];
      index := index + 1;
    }
    CodesEnd(board);
    assert done + [] == done;
  }

  /** The men's sixteen bytes of a record hold these codes. */
  ghost predicate Holds(p: Bytes, codes: seq<nat>) {
    |p| == 32 && (forall k | 0 <= k < |codes| :: codes[k] < 12) && p[8..24] == Nibbles(codes)
  }

  /** Two records agree outside the men's sixteen bytes. */
  predicate SameAround(p: Bytes, q: Bytes) { |p| == |q| == 32 && p[..8] == q[..8] && p[24..] == q[24..] }

  lemma SameTwice(p: Bytes, q: Bytes, r: Bytes)
    requires SameAround(p, q) && SameAround(q, r)
    ensures SameAround(p, r)
  {
  }

  lemma Regroup(a: seq<nat>, x: nat, b: seq<nat>)
    ensures a + ([x] + b) == (a + [x]) + b
  {
  }

  method PutNibble(p: array<Byte>, index: nat, code: nat, ghost done: seq<nat>)
    requires p.Length == 32 && index == |done| < 32 && code < 12 && Holds(p[..], done)
    modifies p
    ensures SameAround(p[..], old(p[..])) && Holds(p[..], done + [code])
  {
    hide Nibbles;
    ghost var n := p[8..24];
    assert n == p[..][8..24];
    NibblesStep(done, code);
    LowNibble(done);
    var offset := 8 + index / 2;
    assert p[offset] == n[index / 2];
    if index % 2 == 0 {
      p[offset] := code;
    } else {
      p[offset] := p[offset] + 16 * code;
    }
    assert p[..][8..24] == n[index / 2 := p[offset]];
  }

  lemma NoNibbles(p: Bytes)
    requires |p| == 32 && forall k | 8 <= k < 24 :: p[k] == 0
    ensures Holds(p, []) && SameAround(p, p)
  {
  }

  lemma LowNibble(codes: seq<nat>)
    requires (forall k | 0 <= k < |codes| :: codes[k] < 12) && |codes| < 32
    ensures |codes| % 2 == 1 ==> Nibbles(codes)[|codes| / 2] < 12
  {
    assert |codes| % 2 == 1 ==> CodeAt(codes, 2 * (|codes| / 2) + 1) == 0;
  }

  lemma CodesStep(b: Board, occ: Bitboard)
    requires occ <= b.Keys && occ != {}
    ensures Codes(b, occ) == [PieceCode(b[First(occ)])] + Codes(b, occ - {First(occ)}) &&
      |occ| == |occ - {First(occ)}| + 1
  {
  }

  lemma CodesEnd(b: Board)
    ensures Codes(b, {}) == []
  {
  }

  method PutLabels(p: array<Byte>, meta: nat, score: nat, ply: nat)
    requires p.Length == 32 && forall k | 24 <= k < 32 :: p[k] == 0
    modifies p
    ensures p[..8] == old(p[..8]) && p[8..24] == old(p[8..24]) && p[30] == 0 && p[31] == 0
    ensures p[24..26] == LittleEndian(meta, 2) && p[26..28] == LittleEndian(score, 2) &&
      p[28..30] == LittleEndian(ply, 2)
  {
    hide LittleEndian;
    PutLittleEndian(p, 24, meta, 2);
    ghost var m := p[24..26];
    PutLittleEndian(p, 26, score, 2);
    assert p[24..26] == m;
    ghost var s := p[26..28];
    PutLittleEndian(p, 28, ply, 2);
    assert p[24..26] == m && p[26..28] == s;
  }

  /** EncodeSample: refuses Chess960, too many men and an impossible outcome; otherwise the packed record. */
  method EncodeSample(pos: Position, chess960: bool, score: int, ply: nat, result: int) returns (r: Option<Record>)
    requires pos.Views() && InRange(Sample(pos.Model(), score, ply, result))
    ensures r == if chess960 then None else Encoded(Sample(pos.Model(), score, ply, result))
  {
    hide ViewsOf, Occupancy, Codes, Nibbles, Meta, To16, LittleEndian;
    if chess960 {
      return None;
    }
    pos.OccupiedIsBoard();
    ViewsTotal(pos);
    var occ := pos.Occupied();
    BoardSize(pos.board);
    if |occ| > 32 {
      return None;
    }
    var p := new Byte[32](i => 0);
    PutLittleEndian(p, 0, Occupancy(occ, 0), 8);
    ghost var a := p[..8];
    PutMen(pos.board, occ, p);
    assert p[..8] == p[..][..8] == a;
    ghost var b := p[8..24];
    assert b == p[..][8..24];
    assert forall k | 24 <= k < 32 :: p[k] == p[..][24..][k - 24] == 0;
    PutLabels(p, Meta(pos.Model()), To16(score), ply);
    if result != 1 && result != 0 && result != -1 {
      return None;
    }
    p[30] := result % 256;
    Assemble(p[..], a, b, LittleEndian(Meta(pos.Model()), 2), LittleEndian(To16(score), 2), LittleEndian(ply, 2),
      result % 256);
    return Some(p[..]);
  }

  lemma Assemble(p: Bytes, a: Bytes, b: Bytes, c: Bytes, d: Bytes, e: Bytes, result: Byte)
    requires |p| == 32 && p[..8] == a && p[8..24] == b && p[24..26] == c && p[26..28] == d && p[28..30] == e &&
      p[30] == result && p[31] == 0
    ensures p == a + b + c + d + e + [result, 0]
  {
  }

  /** buildFEN, with its own rendering of rights that have no rooks yet. */
  method BuildFEN(b: Board, side: Color, castling: set<Right>, epFile: nat) returns (s: string)
    ensures s == BuiltFEN(b, side, castling, epFile)
  {
    hide BoardText, KQkqFrom;
    s := BoardField(b);
    var out := "-";
    if castling != {} {
      out := KQkq(castling);
    }
    s := s + " " + SideText(side) + " " + out + " " + SquareText(TargetOf(side, epFile)) + " 0 1";
  }

  method KQkq(castling: set<Right>) returns (b: string)
    ensures b == KQkqFrom(castling, 0)
  {
    hide KQkqFrom;
    b := "";
    for i := 0 to 4
      invariant b + KQkqFrom(castling, i) == KQkqFrom(castling, 0)
    {
      KQkqStep(castling, i, b);
      if RIGHTS[i] in castling {
        b := b + ["KQkq"[i]];
      }
    }
    KQkqEnd(castling);
  }

  lemma KQkqStep(castling: set<Right>, i: nat, b: string)
    requires i < 4
    ensures b + KQkqFrom(castling, i) ==
      (if RIGHTS[i] in castling then b + ["KQkq"[i]] else b) + KQkqFrom(castling, i + 1)
  {
    var rest := KQkqFrom(castling, i + 1);
    assert KQkqFrom(castling, i) == (if RIGHTS[i] in castling then ["KQkq"[i]] else "") + rest;
  }

  lemma KQkqEnd(castling: set<Right>)
    ensures KQkqFrom(castling, 4) == ""
  {
  }

  /** The decoder's walk over the occupied squares. */
  method TakeMen(nibbles: Bytes, occ: Bitboard) returns (ok: bool, board: Board)
    requires |nibbles| == 16 && |occ| <= 32
    ensures ok <==> Place(map[], nibbles, occ, 0).Some?
    ensures ok ==> Place(map[], nibbles, occ, 0) == Some(board)
  {
    hide NibbleAt, PieceOfCode;
    board := map[];
    var index := 0;
    var bb := occ;
    while bb != {}
      invariant bb <= occ && index + |bb| == |occ|
      invariant Place(map[], nibbles, occ, 0) == Place(board, nibbles, bb, index)
      decreases bb
    {
      var sq := First(bb);
      var nibble := NibbleAt(nibbles, index);
      if nibble >= 12 {
        return false, board;
      }
      board := board[sq := PieceOfCode(nibble)];
      bb := bb - {sq};
      index := index + 1;
    }
    return true, board;
  }

  /** DecodeSample: every field is checked, and the position goes through the parser like any other. */
  method DecodeSample(z: Tables, p: Record) returns (r: Decoded, pos: Position)
    ensures r == DecodedOf(p) && !r.Broken?
    ensures r.Good? ==> fresh(pos) && pos.Consistent() && pos.Model() == r.sample.pos && pos.z == z
  {
    hide Parse, BuiltFEN, Place, FromLittleEndian, Occupied, SideOfMeta, RightsOfMeta, EpOfMeta, Position.Consistent;
    hide From16, From8, Valid, ViewsOf;
    DecodesToValid(p);
    var occ := Occupied(FromLittleEndian(p[..8]), 0);
    pos := new Position.Empty(z);
    if |occ| > 32 {
      return Malformed, pos;
    }
    if p[31] != 0 {
      return Malformed, pos;
    }
    var meta := FromLittleEndian(p[24..26]);
    if EpOfMeta(meta) > 8 {
      return Malformed, pos;
    }
    var ok, board := TakeMen(p[8..24], occ);
    if !ok {
      return Malformed, pos;
    }
    var fen := BuildFEN(board, SideOfMeta(meta), RightsOfMeta(meta), EpOfMeta(meta));
    var status, q, flag := ParseFEN(z, fen, false);
    if !status.Read? {
      return Malformed, pos;
    }
    pos := q;
    r := Good(Sample(q.Model(), From16(FromLittleEndian(p[26..28])), FromLittleEndian(p[28..30]), From8(p[30])));
  }

  // ---- files

  /** Writer: the stream so far, and how many samples went into it. */
  class Writer {
    var w: Bytes
    var written: nat
    ghost var samples: seq<Sample>
    ghost var records: seq<Record>

    ghost predicate Valid()
      reads this
    {
      && w == Frame(records) && written == |records| == |samples|
      && forall i | 0 <= i < |samples| :: InRange(samples[i]) && Encoded(samples[i]) == Some(records[i])
    }

    constructor ()
      ensures Valid() && samples == []
    {
      w := MAGIC + LittleEndian(VERSION, 4) + LittleEndian(RECORD_SIZE, 4);
      written, records, samples := 0, [], [];
    }

    /** taken is how many of the record's bytes the underlying stream accepts before it fails, if it does. */
    method Write(pos: Position, chess960: bool, score: int, ply: nat, result: int, taken: nat) returns (ok: bool)
      requires Valid() && taken <= RECORD_SIZE
      requires pos.Views() && InRange(Sample(pos.Model(), score, ply, result))
      modifies this
      ensures var encoded := Encoded(Sample(pos.Model(), score, ply, result));
        && (ok <==> !chess960 && encoded.Some? && taken == RECORD_SIZE)
        && (w == if chess960 || encoded.None? then old(w) else old(w) + encoded.value[..taken])
      ensures ok ==> Valid() && samples == old(samples) + [Sample(pos.Model(), score, ply, result)]
      ensures !ok ==> written == old(written) && samples == old(samples) && records == old(records)
      ensures !ok && w == old(w) ==> Valid()
    {
      hide ViewsOf, Encoded;
      var p := EncodeSample(pos, chess960, score, ply, result);
      if p.None? {
        return false;
      }
      w := w + p.value[..taken];
      if taken < RECORD_SIZE {
        return false;
      }
      assert p.value[..taken] == p.value;
      ghost var before := records;
      records := records + [p.value];
      samples := samples + [Sample(pos.Model(), score, ply, result)];
      assert records[..|records| - 1] == before;
      written := written + 1;
      return true;
    }
  }

  /** A stream that failed within a record is never taken for a whole file: what Count sees is the part before
      it, and it says so unless nothing of the record got through. */
  lemma BrokenWriteIsNoticed(records: seq<Record>, r: Record, taken: nat)
    requires taken < RECORD_SIZE
    ensures Count(Frame(records) + r[..taken]) == if taken == 0 then Some(|records|) else None
  {
    hide Count, Frame;
    var all := records + [r];
    FrameGrows(records, r);
    FrameShape(records);
    FrameShape(all);
    var n := |Frame(records)| + taken;
    assert Frame(all)[..n] == Frame(records) + r[..taken];
    CountOfFrame(all, n);
  }

  lemma FrameGrows(records: seq<Record>, r: Record)
    ensures Frame(records + [r]) == Frame(records) + r
  {
    var all := records + [r];
    assert all[..|all| - 1] == records;
  }

  /** What Read makes of the next record: a sample, the end, a record cut short, or bytes that mean nothing. */
  datatype ReadResult = Next(sample: Sample) | EndOfFile | Truncated | Corrupt

  ghost function ReadOf(r: Bytes): ReadResult {
    if r == [] then EndOfFile
    else if |r| < RECORD_SIZE then Truncated
    else
      match DecodedOf(r[..RECORD_SIZE])
      case Good(s) => Next(s)
      case _ => Corrupt
  }

  /** The samples up to the first record that is not one, and whether that was the end of the stream. */
  datatype Reading = Reading(samples: seq<Sample>, whole: bool)

  ghost function ReadingOf(r: Bytes): Reading {
    match ReadOf(r)
    case Next(s) =>
      var rest := ReadingOf(r[RECORD_SIZE..]);
      Reading([s] + rest.samples, rest.whole)
    case EndOfFile => Reading([], true)
    case _ => Reading([], false)
  }

  /** Reader: what is left of the stream after an accepted header. */
  class Reader {
    var r: Bytes

    constructor (file: Bytes)
      requires HeaderAccepted(file)
      ensures r == file[HEADER_SIZE..]
    {
      r := file[HEADER_SIZE..];
    }

    method Read(z: Tables) returns (x: ReadResult)
      modifies this
      ensures x == ReadOf(old(r))
      ensures x.Next? ==> Valid(x.sample.pos) && r == old(r)[RECORD_SIZE..]
    {
      hide DecodedOf;
      if r == [] {
        return EndOfFile;
      }
      if |r| < RECORD_SIZE {
        r := [];
        return Truncated;
      }
      var p := r[..RECORD_SIZE];
      r := r[RECORD_SIZE..];
      DecodesToValid(p);
      var decoded, pos := DecodeSample(z, p);
      return if decoded.Good? then Next(decoded.sample) else Corrupt;
    }

    /** All samples up to the end, or up to the first record cut short or malformed. */
    method ReadAll(z: Tables) returns (out: seq<Sample>, ok: bool)
      modifies this
      ensures Reading(out, ok) == ReadingOf(old(r))
      ensures forall s | s in out :: Valid(s.pos)
    {
      hide ReadOf, Valid;
      out, ok := [], true;
      assert [] + ReadingOf(r).samples == ReadingOf(r).samples;
      while true
        invariant Reading(out + ReadingOf(r).samples, ReadingOf(r).whole) == ReadingOf(old(r))
        invariant forall s | s in out :: Valid(s.pos)
        decreases |r|
      {
        ghost var before, was := r, out;
        ReadIsShort(r);
        var x := Read(z);
        match x {
          case EndOfFile =>
            assert out + [] == out;
            return;
          case Next(sample) =>
            out := out + [sample];
            assert was + ([sample] + ReadingOf(r).samples) == out + ReadingOf(r).samples;
          case _ =>
            assert out + [] == out;
            return out, false;
        }
      }
    }

    /** Count: consumes the rest and counts whole records, or reports trailing bytes. */
    method CountRest() returns (n: nat, ok: bool)
      modifies this
      ensures r == [] && n == |old(r)| / RECORD_SIZE && (ok <==> |old(r)| % RECORD_SIZE == 0)
    {
      n := |r| / RECORD_SIZE;
      ok := |r| % RECORD_SIZE == 0;
      r := [];
    }
  }

  lemma ReadIsShort(r: Bytes)
    ensures ReadOf(r).Next? ==> |r| >= RECORD_SIZE
  {
  }

  /** The sample that comes back for one that was written: the same but for the clocks, and with the rook
      origins written exactly when they are the outermost ones. */
  ghost predicate ComesBackAs(s: Sample, t: Sample) {
    && t.score == s.score && t.ply == s.ply && t.result == s.result
    && Valid(t.pos) && t.pos.(setup := s.pos.setup) == WithoutClocks(s.pos)
    && (SameOrigins(s.pos, t.pos) <==> AllOutermost(s.pos))
  }

  ghost predicate Matching(samples: seq<Sample>, records: seq<Record>) {
    && |samples| == |records|
    && forall i | 0 <= i < |samples| ::
         InRange(samples[i]) && Valid(samples[i].pos) && Encoded(samples[i]) == Some(records[i])
  }

  lemma {:induction false} BodyReadsBack(samples: seq<Sample>, records: seq<Record>)
    requires Matching(samples, records)
    ensures var reading := ReadingOf(Body(records));
      && reading.whole && |reading.samples| == |samples|
      && forall i | 0 <= i < |samples| :: ComesBackAs(samples[i], reading.samples[i])
    decreases |records|
  {
    hide DecodedOf, Encoded, Valid, SameOrigins, AllOutermost, WithoutClocks;
    if records != [] {
      var b := Body(records);
      assert b[..RECORD_SIZE] == records[0] && b[RECORD_SIZE..] == Body(records[1..]);
      SampleRoundTrip(samples[0]);
      BodyReadsBack(samples[1..], records[1..]);
      var rest := ReadingOf(Body(records[1..])).samples;
      forall i | 0 <= i < |samples| ensures ComesBackAs(samples[i], ReadingOf(b).samples[i]) {
        assert i > 0 ==> samples[i] == samples[1..][i - 1] && ReadingOf(b).samples[i] == rest[i - 1];
      }
    }
  }

  /** Reading a written file gives every sample back, in order, and Count agrees with the number written. */
  method WriteThenRead(writer: Writer, z: Tables) returns (out: seq<Sample>, ok: bool, n: nat)
    requires writer.Valid() && forall s | s in writer.samples :: Valid(s.pos)
    ensures ok && |out| == |writer.samples| == n == writer.written
    ensures forall i | 0 <= i < |out| :: ComesBackAs(writer.samples[i], out[i])
  {
    hide Valid, ComesBackAs, Encoded, ReadingOf;
    FrameShape(writer.records);
    HeaderStands(writer.w);
    FrameIsHeaderAndBody(writer.records);
    assert writer.w[HEADER_SIZE..] == Body(writer.records);
    BodyReadsBack(writer.samples, writer.records);
    var reader := new Reader(writer.w);
    out, ok := reader.ReadAll(z);
    var again := new Reader(writer.w);
    var exact;
    n, exact := again.CountRest();
  }
}
