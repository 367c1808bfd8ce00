/** The framing of a training data file (train/format.go): a sixteen-byte header, then 32-byte records. */
module DataFile {
  import opened Squares

  type Byte = b: int | 0 <= b < 256

  type Bytes = seq<Byte>

  const RECORD_SIZE: nat := 32
  const HEADER_SIZE: nat := 16
  const VERSION: nat := 1

  /** "NOVADATA". */
  const MAGIC: Bytes := [78, 79, 86, 65, 68, 65, 84, 65]

  type Record = r: Bytes | |r| == RECORD_SIZE witness seq(RECORD_SIZE, i => 0)

  /** Little-endian bytes of a number, and back. */
  function LittleEndian(x: nat, width: nat): (b: Bytes)
    ensures |b| == width
  {
    if width == 0 then [] else [x % 256] + LittleEndian(x / 256, width - 1)
  }

  function FromLittleEndian(b: Bytes): nat {
    if b == [] then 0 else b[0] + 256 * FromLittleEndian(b[1..])
  }

  function Power256(width: nat): nat { if width == 0 then 1 else 256 * Power256(width - 1) }

  lemma {:induction false} LittleEndianRoundTrip(x: nat, width: nat)
    requires x < Power256(width)
    ensures FromLittleEndian(LittleEndian(x, width)) == x
  {
    if width > 0 {
      LittleEndianRoundTrip(x / 256, width - 1);
      assert LittleEndian(x, width)[1..] == LittleEndian(x / 256, width - 1);
    }
  }

  function Header(): (h: Bytes)
    ensures |h| == HEADER_SIZE
  {
    MAGIC + LittleEndian(VERSION, 4) + LittleEndian(RECORD_SIZE, 4)
  }

  /** What NewWriter and then WriteAll put on a stream. */
  function Frame(records: seq<Record>): Bytes {
    if records == [] then Header() else Frame(records[..|records| - 1]) + records[|records| - 1]
  }

  /** NewReader's checks. */
  predicate HeaderAccepted(file: Bytes) {
    && |file| >= HEADER_SIZE
    && file[..8] == MAGIC
    && FromLittleEndian(file[8..12]) == VERSION
    && FromLittleEndian(file[12..16]) == RECORD_SIZE
  }

  /** Reader.Count: framing only, no record is decoded. */
  function Count(file: Bytes): Option<nat> {
    if HeaderAccepted(file) && (|file| - HEADER_SIZE) % RECORD_SIZE == 0 then
      Some((|file| - HEADER_SIZE) / RECORD_SIZE)
    else None
  }

  /** The records after the header, as repeated Read calls cut them. */
  function Records(body: Bytes): Option<seq<Record>> {
    if body == [] then Some([])
    else if |body| < RECORD_SIZE then None
    else
      match Records(body[RECORD_SIZE..])
      case None => None
      case Some(rest) => Some([body[..RECORD_SIZE]] + rest)
  }

  lemma {:induction false} FrameShape(records: seq<Record>)
    ensures |Frame(records)| == HEADER_SIZE + RECORD_SIZE * |records|
    ensures Frame(records)[..HEADER_SIZE] == Header()
  {
    if records != [] {
      FrameShape(records[..|records| - 1]);
    }
  }

  /** A whole file is accepted and counted exactly; one cut anywhere but between two records is not. */
  lemma CountOfFrame(records: seq<Record>, n: nat)
    requires n <= |Frame(records)|
    ensures Count(Frame(records)) == Some(|records|)
    ensures Count(Frame(records)[..n]) ==
      if n >= HEADER_SIZE && (n - HEADER_SIZE) % RECORD_SIZE == 0 then Some((n - HEADER_SIZE) / RECORD_SIZE) else None
  {
    hide HeaderAccepted, Frame, Header;
    FrameShape(records);
    var f := Frame(records);
    HeaderStands(f);
    if n >= HEADER_SIZE {
      assert f[..n][..HEADER_SIZE] == f[..HEADER_SIZE];
      HeaderStands(f[..n]);
    } else {
      TooShort(f[..n]);
    }
  }

  lemma TooShort(file: Bytes)
    requires |file| < HEADER_SIZE
    ensures !HeaderAccepted(file)
  {
  }

  lemma FourBytes()
    ensures Power256(4) == 0x1_0000_0000
  {
  }

  lemma HeaderStands(file: Bytes)
    requires |file| >= HEADER_SIZE && file[..HEADER_SIZE] == Header()
    ensures HeaderAccepted(file)
  {
    hide LittleEndian, FromLittleEndian;
    LittleEndianRoundTrip(VERSION, 4) by { FourBytes(); }
    LittleEndianRoundTrip(RECORD_SIZE, 4) by { FourBytes(); }
    var h := Header();
    assert h[..8] == MAGIC && h[8..12] == LittleEndian(VERSION, 4) && h[12..16] == LittleEndian(RECORD_SIZE, 4);
    assert file[..8] == h[..8] && file[8..12] == h[8..12] && file[12..16] == h[12..16];
  }

  function Body(records: seq<Record>): Bytes {
    if records == [] then [] else records[0] + Body(records[1..])
  }

  lemma {:induction false} FrameIsHeaderAndBody(records: seq<Record>)
    ensures Frame(records) == Header() + Body(records)
  {
    if records != [] {
      var n := |records| - 1;
      FrameIsHeaderAndBody(records[..n]);
      BodyGrows(records[..n], records[n]);
      assert records == records[..n] + [records[n]];
    }
  }

  lemma {:induction false} BodyGrows(records: seq<Record>, r: Record)
    ensures Body(records + [r]) == Body(records) + r
  {
    if records != [] {
      BodyGrows(records[1..], r);
      assert (records + [r])[1..] == records[1..] + [r];
    } else {
      assert Body([r]) == r + Body([]);
    }
  }

  lemma {:induction false} RecordsOfBody(records: seq<Record>)
    ensures Records(Body(records)) == Some(records)
  {
    if records != [] {
      RecordsOfBody(records[1..]);
      var b := Body(records);
      assert b[..RECORD_SIZE] == records[0] && b[RECORD_SIZE..] == Body(records[1..]);
      var first: Record := b[..RECORD_SIZE];
      assert records == [first] + records[1..];
    }
  }

  /** Reading back a file gives the records written, in order. */
  lemma FrameRoundTrip(records: seq<Record>)
    ensures Records(Frame(records)[HEADER_SIZE..]) == Some(records)
  {
    FrameIsHeaderAndBody(records);
    RecordsOfBody(records);
    assert Frame(records)[HEADER_SIZE..] == Body(records);
  }
}
