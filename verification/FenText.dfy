/** The text of a position (section 16.1 of the PGN standard): its fields, and reading each of them back. */
module FenText {
  import opened Squares
  import opened Rules
  import opened UnitNames

  /** The ASCII white space of strings.Fields. */
  predicate IsSpace(c: char) { c == ' ' || '\t' <= c <= '\r' }

  predicate Unspaced(s: string) { forall i | 0 <= i < |s| :: !IsSpace(s[i]) }

  // ---- men

  function PieceCode(pc: Piece): (n: nat)
    ensures n < 12
  {
    var kind :=
      match pc.kind
      case Pawn => 0
      case Knight => 1
      case Bishop => 2
      case Rook => 3
      case Queen => 4
      case King => 5;
    if pc.color.White? then kind else 6 + kind
  }

  function PieceOfCode(n: nat): Piece
    requires n < 12
  {
    var kind :=
      match n % 6
      case 0 => Pawn
      case 1 => Knight
      case 2 => Bishop
      case 3 => Rook
      case 4 => Queen
      case _ => King;
    Piece(if n < 6 then White else Black, kind)
  }

  const PIECE_CHARS := "PNBRQKpnbrqk"

  function PieceChar(pc: Piece): char { PIECE_CHARS[PieceCode(pc)] }

  /** strings.IndexByte over the piece letters. */
  function IndexOf(c: char, from: nat): (r: Option<nat>)
    requires from <= 12
    ensures r.Some? ==> r.value < 12
    decreases 12 - from
  {
    if from == 12 then None else if PIECE_CHARS[from] == c then Some(from) else IndexOf(c, from + 1)
  }

  lemma {:induction false} LetterFound(pc: Piece, from: nat)
    requires from <= PieceCode(pc)
    ensures IndexOf(PieceChar(pc), from) == Some(PieceCode(pc))
    decreases PieceCode(pc) - from
  {
    LettersDiffer();
    if from < PieceCode(pc) {
      LetterFound(pc, from + 1);
    }
  }

  lemma LettersDiffer()
    ensures forall i, j | 0 <= i < j < 12 :: PIECE_CHARS[i] != PIECE_CHARS[j]
    ensures forall i | 0 <= i < 12 :: !(PIECE_CHARS[i] <= '8') && !IsSpace(PIECE_CHARS[i]) && PIECE_CHARS[i] != '/'
  {
  }

  lemma CodesMatch(pc: Piece)
    ensures PieceOfCode(PieceCode(pc)) == pc
  {
  }

  // ---- the board

  function Flush(empty: nat): string { if empty > 0 then Decimal(empty) else "" }

  /** One rank from a file onward, after a run of empty squares. */
  function RankText(b: Board, rank: nat, file: nat, empty: nat): string
    requires rank < 8 && file <= 8
    decreases 8 - file
  {
    if file == 8 then Flush(empty)
    else if MakeSquare(file, rank) in b then
      Flush(empty) + [PieceChar(b[MakeSquare(file, rank)])] + RankText(b, rank, file + 1, 0)
    else RankText(b, rank, file + 1, empty + 1)
  }

  /** The ranks from one downward. */
  function BoardText(b: Board, rank: nat): string
    requires rank < 8
  {
    RankText(b, rank, 0, 0) + if rank > 0 then "/" + BoardText(b, rank - 1) else ""
  }

  function ReadRow(b: Board, row: string, rank: nat, file: nat): Option<Board>
    requires rank < 8
    decreases |row|
  {
    if row == "" then (if file == 8 then Some(b) else None)
    else if '1' <= row[0] <= '8' then ReadRow(b, row[1..], rank, file + (row[0] - '0') as nat)
    else if IndexOf(row[0], 0).None? || file > 7 then None
    else ReadRow(b[MakeSquare(file, rank) := PieceOfCode(IndexOf(row[0], 0).value)], row[1..], rank, file + 1)
  }

  function ReadRows(b: Board, rows: seq<string>, rank: nat): Option<Board>
    requires rank < 8 && |rows| == rank + 1
    decreases rank
  {
    match ReadRow(b, rows[0], rank, 0)
    case None => None
    case Some(c) => if rank == 0 then Some(c) else ReadRows(c, rows[1..], rank - 1)
  }

  function Split(s: string, separator: char): (parts: seq<string>)
    ensures parts != []
  {
    if s == "" then [""]
    else
      var rest := Split(s[1..], separator);
      if s[0] == separator then [""] + rest else [[s[0]] + rest[0]] + rest[1..]
  }

  function ReadBoard(field: string): Option<Board> {
    var rows := Split(field, '/');
    if |rows| != 8 then None else ReadRows(map[], rows, 7)
  }

  function Part(b: Board, rank: int, file: int): Board { map s | s in b && Rank(s) == rank && File(s) >= file :: b[s] }

  function Below(b: Board, rank: int): Board { map s | s in b && Rank(s) <= rank :: b[s] }

  lemma {:induction false} RowRoundTrip(b: Board, acc: Board, rank: nat, file: nat, empty: nat)
    requires rank < 8 && file <= 8 && empty <= file
    ensures ReadRow(acc, RankText(b, rank, file, empty), rank, file - empty) == Some(acc + Part(b, rank, file))
    decreases 8 - file
  {
    hide PieceChar, PieceOfCode, IndexOf, Flush, Part, ReadRow;
    PartSteps(b, acc, rank, file);
    if file == 8 {
      DigitRead(acc, "", rank, 8, empty);
      RowEnds(acc, rank);
      assert Flush(empty) + "" == Flush(empty);
    } else {
      var s := MakeSquare(file, rank);
      if s in b {
        var pc := b[s];
        var tail := RankText(b, rank, file + 1, 0);
        RowRoundTrip(b, acc[s := pc], rank, file + 1, 0);
        LetterRead(acc, pc, tail, rank, file);
        DigitRead(acc, [PieceChar(pc)] + tail, rank, file, empty);
        assert Flush(empty) + [PieceChar(pc)] + tail == Flush(empty) + ([PieceChar(pc)] + tail);
      } else {
        RowRoundTrip(b, acc, rank, file + 1, empty + 1);
      }
    }
  }

  lemma RowEnds(acc: Board, rank: nat)
    requires rank < 8
    ensures ReadRow(acc, "", rank, 8) == Some(acc)
  {
  }

  lemma PartSteps(b: Board, acc: Board, rank: nat, file: nat)
    requires rank < 8 && file <= 8
    ensures file == 8 ==> acc + Part(b, rank, 8) == acc
    ensures file < 8 && MakeSquare(file, rank) !in b ==> Part(b, rank, file + 1) == Part(b, rank, file)
    ensures file < 8 && MakeSquare(file, rank) in b ==>
      acc[MakeSquare(file, rank) := b[MakeSquare(file, rank)]] + Part(b, rank, file + 1) == acc + Part(b, rank, file)
  {
    if file < 8 {
      SquaresOfRank(b, rank, file);
    }
  }

  lemma SquaresOfRank(b: Board, rank: nat, file: nat)
    requires rank < 8 && file < 8
    ensures forall t: Square :: (Rank(t) == rank && File(t) >= file) <==>
      (t == MakeSquare(file, rank) || (Rank(t) == rank && File(t) >= file + 1))
  {
  }

  lemma DigitRead(acc: Board, tail: string, rank: nat, file: nat, empty: nat)
    requires rank < 8 && empty <= file <= 8
    ensures ReadRow(acc, Flush(empty) + tail, rank, file - empty) == ReadRow(acc, tail, rank, file)
  {
    hide Decimal, IndexOf, PieceOfCode, MakeSquare;
    if empty > 0 {
      OneDigit(empty);
      DigitStep(acc, tail, rank, file, empty);
      assert Flush(empty) + tail == ['0' + empty as char] + tail;
    } else {
      assert Flush(empty) + tail == tail;
    }
  }

  lemma DigitStep(acc: Board, tail: string, rank: nat, file: nat, empty: nat)
    requires rank < 8 && 0 < empty <= file <= 8
    ensures ReadRow(acc, ['0' + empty as char] + tail, rank, file - empty) == ReadRow(acc, tail, rank, file)
  {
    hide IndexOf, PieceOfCode, MakeSquare;
    var c := '0' + empty as char;
    var s := [c] + tail;
    assert s[0] == c && s[1..] == tail && (c - '0') as nat == empty;
  }

  lemma OneDigit(n: nat)
    requires n < 10
    ensures Decimal(n) == ['0' + n as char]
  {
  }

  lemma LetterRead(acc: Board, pc: Piece, tail: string, rank: nat, file: nat)
    requires rank < 8 && file < 8
    ensures ReadRow(acc, [PieceChar(pc)] + tail, rank, file) ==
      ReadRow(acc[MakeSquare(file, rank) := pc], tail, rank, file + 1)
  {
    var s := [PieceChar(pc)] + tail;
    assert s[1..] == tail;
    LetterFound(pc, 0);
    CodesMatch(pc);
    LettersDiffer();
  }

  predicate Free(s: string, c: char) { forall i | 0 <= i < |s| :: s[i] != c }

  lemma {:induction false} RankTextIsPlain(b: Board, rank: nat, file: nat, empty: nat)
    requires rank < 8 && empty <= file <= 8
    ensures Free(RankText(b, rank, file, empty), '/') && Unspaced(RankText(b, rank, file, empty))
    decreases 8 - file
  {
    hide PieceChar, Flush, Free, Unspaced;
    FlushIsPlain(empty);
    if file < 8 {
      if MakeSquare(file, rank) in b {
        var letter := PieceChar(b[MakeSquare(file, rank)]);
        RankTextIsPlain(b, rank, file + 1, 0);
        LetterIsPlain(b[MakeSquare(file, rank)]);
        PlainJoin(Flush(empty), letter, RankText(b, rank, file + 1, 0));
      } else {
        RankTextIsPlain(b, rank, file + 1, empty + 1);
      }
    }
  }

  lemma PlainJoin(head: string, c: char, tail: string)
    requires Free(head, '/') && Unspaced(head) && c != '/' && !IsSpace(c) && Free(tail, '/') && Unspaced(tail)
    ensures Free(head + [c] + tail, '/') && Unspaced(head + [c] + tail)
  {
  }

  lemma FlushIsPlain(empty: nat)
    ensures Free(Flush(empty), '/') && Unspaced(Flush(empty))
  {
    assert forall i | 0 <= i < |Decimal(empty)| :: IsDigit(Decimal(empty)[i]);
  }

  lemma LetterIsPlain(pc: Piece)
    ensures PieceChar(pc) != '/' && !IsSpace(PieceChar(pc))
  {
    LettersDiffer();
  }

  lemma {:induction false} SplitAtFirst(head: string, tail: string, c: char)
    requires Free(head, c)
    ensures Split(head, c) == [head]
    ensures Split(head + [c] + tail, c) == [head] + Split(tail, c)
  {
    var s := head + [c] + tail;
    if head == "" {
      assert s[0] == c && s[1..] == tail;
    } else {
      SplitAtFirst(head[1..], tail, c);
      assert s[1..] == head[1..] + [c] + tail;
      assert [head[0]] + head[1..] == head;
      assert Split(s[1..], c)[0] == head[1..];
    }
  }

  lemma {:induction false} BoardTextIsPlain(b: Board, rank: nat)
    requires rank < 8
    ensures Unspaced(BoardText(b, rank)) && BoardText(b, rank) != ""
    decreases rank
  {
    hide RankText;
    RankTextIsPlain(b, rank, 0, 0);
    RankTextIsNotEmpty(b, rank, 0, 0);
    if rank > 0 {
      BoardTextIsPlain(b, rank - 1);
    }
  }

  lemma {:induction false} RowsRoundTrip(b: Board, acc: Board, rank: nat)
    requires rank < 8
    ensures |Split(BoardText(b, rank), '/')| == rank + 1
    ensures ReadRows(acc, Split(BoardText(b, rank), '/'), rank) == Some(acc + Below(b, rank))
    decreases rank
  {
    hide RankText, Split, Part, Below, ReadRow, ReadRows;
    var row := RankText(b, rank, 0, 0);
    RowRoundTrip(b, acc, rank, 0, 0);
    RankTextIsPlain(b, rank, 0, 0);
    BelowSteps(b, acc, rank);
    if rank == 0 {
      assert row + "" == row;
      SplitAtFirst(row, "", '/');
      ReadRowsStep(acc, row, [], 0);
      assert [row] + [] == [row];
    } else {
      RowsRoundTrip(b, acc + Part(b, rank, 0), rank - 1);
      var rest := BoardText(b, rank - 1);
      assert BoardText(b, rank) == row + ['/'] + rest;
      SplitAtFirst(row, rest, '/');
      ReadRowsStep(acc, row, Split(rest, '/'), rank);
    }
  }

  lemma ReadRowsStep(acc: Board, row: string, rest: seq<string>, rank: nat)
    requires rank < 8 && |rest| == rank && ReadRow(acc, row, rank, 0).Some?
    ensures var c := ReadRow(acc, row, rank, 0).value;
      ReadRows(acc, [row] + rest, rank) == if rank == 0 then Some(c) else ReadRows(c, rest, rank - 1)
  {
    hide ReadRow;
    assert ([row] + rest)[1..] == rest;
  }

  lemma BelowSteps(b: Board, acc: Board, rank: nat)
    requires rank < 8
    ensures rank == 0 ==> acc + Part(b, rank, 0) == acc + Below(b, rank)
    ensures rank > 0 ==> acc + Part(b, rank, 0) + Below(b, rank - 1) == acc + Below(b, rank)
  {
  }

  lemma {:induction false} RankTextIsNotEmpty(b: Board, rank: nat, file: nat, empty: nat)
    requires rank < 8 && file <= 8 && (file < 8 || empty > 0)
    ensures RankText(b, rank, file, empty) != ""
    decreases 8 - file
  {
    if file < 8 && MakeSquare(file, rank) !in b {
      RankTextIsNotEmpty(b, rank, file + 1, empty + 1);
    }
  }

  /** The placement field of any board reads back as that board. */
  lemma BoardRoundTrip(b: Board)
    ensures ReadBoard(BoardText(b, 7)) == Some(b)
  {
    hide BoardText, Split;
    RowsRoundTrip(b, map[], 7);
    assert map[] + Below(b, 7) == b;
  }

  // ---- numbers

  function Itoa(n: int): string { if n < 0 then "-" + Decimal(-n) else Decimal(n) }

  lemma ItoaRoundTrip(n: int)
    requires -MAX_INT - 1 <= n <= MAX_INT
    ensures Atoi(Itoa(n)) == Some(n)
    ensures Itoa(n) != "" && Unspaced(Itoa(n))
  {
    hide Number, AllDigits;
    DecimalReadsBack(Abs(n));
    var d := Decimal(Abs(n));
    DigitsArePlain(d);
    if n < 0 {
      assert Itoa(n)[1..] == d;
    }
  }

  lemma DigitsArePlain(d: string)
    requires AllDigits(d)
    ensures Unspaced(d) && (d != "" ==> d[0] != '-' && d[0] != '+')
  {
  }

  // ---- squares

  function SquareText(s: Option<Square>): string {
    if s.None? then "-" else ['a' + File(s.value) as char, '1' + Rank(s.value) as char]
  }

  function ReadSquare(s: string): Option<Square> {
    if |s| == 2 && 'a' <= s[0] <= 'h' && '1' <= s[1] <= '8' then
      Some(MakeSquare((s[0] - 'a') as int, (s[1] - '1') as int))
    else None
  }

  /** A square is named by the letter of its file and then the digit of its rank. */
  lemma SquareNames(s: Square)
    ensures SquareText(Some(s)) == ["abcdefgh"[File(s)], "12345678"[Rank(s)]] && SquareText(None) == "-"
  {
    hide File, Rank;
    LetterOfFile(File(s));
    LetterOfFile(Rank(s));
  }

  lemma LetterOfFile(n: int)
    requires 0 <= n < 8
    ensures "abcdefgh"[n] == 'a' + n as char && "12345678"[n] == '1' + n as char
  {
  }

  lemma SquareRoundTrip(s: Square)
    ensures ReadSquare(SquareText(Some(s))) == Some(s)
    ensures SquareText(Some(s)) != "-" && SquareText(Some(s)) != "" && Free(SquareText(Some(s)), ' ')
  {
    hide File, Rank;
    var t := SquareText(Some(s));
    assert (t[0] - 'a') as int == File(s) && (t[1] - '1') as int == Rank(s);
    SameSquare(s);
  }

  lemma SameSquare(s: Square)
    ensures MakeSquare(File(s), Rank(s)) == s
  {
  }

  // ---- fields

  /** strings.Fields: the maximal runs without white space. current is the run being read. */
  function FieldsFrom(s: string, current: string): seq<string> {
    if s == "" then (if current == "" then [] else [current])
    else if IsSpace(s[0]) then (if current == "" then [] else [current]) + FieldsFrom(s[1..], "")
    else FieldsFrom(s[1..], current + [s[0]])
  }

  function Fields(s: string): seq<string> { FieldsFrom(s, "") }

  predicate Solid(s: string) { s != "" && Unspaced(s) }

  lemma {:induction false} ReadRun(run: string, tail: string, current: string)
    requires Unspaced(run)
    ensures FieldsFrom(run + tail, current) == FieldsFrom(tail, current + run)
  {
    if run == "" {
      assert run + tail == tail && current + run == current;
    } else {
      var s := run + tail;
      assert s[1..] == run[1..] + tail;
      ReadRun(run[1..], tail, current + [run[0]]);
      assert current + [run[0]] + run[1..] == current + run;
    }
  }

  lemma FirstField(field: string, tail: string)
    requires Solid(field)
    ensures Fields(field + " " + tail) == [field] + Fields(tail)
    ensures Fields(field) == [field]
  {
    var rest := " " + tail;
    assert field + " " + tail == field + rest;
    ReadRun(field, rest, "");
    assert "" + field == field;
    assert rest[1..] == tail;
    assert field + "" == field;
    ReadRun(field, "", "");
  }
}
