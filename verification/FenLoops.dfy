/** The parser's and the printer's loops (position.go, castling.go), over the mutable position. */
module FenLoops {
  import opened Squares
  import opened Rules
  import opened LegalMoves
  import opened MoveGen
  import opened GameRules
  import opened Zobrist
  import opened PositionState
  import opened UnitNames
  import opened FenText
  import opened Fen

  // ---- printing

  function RanksBelow(b: Board, rank: nat): string
    requires rank <= 8
  {
    if rank == 0 then "" else BoardText(b, rank - 1)
  }

  method BoardField(b: Board) returns (sb: string)
    ensures sb == BoardText(b, 7)
  {
    hide RankText, BoardText;
    sb := "";
    for rank := 8 downto 0
      invariant sb + RanksBelow(b, rank) == BoardText(b, 7)
    {
      BoardTextStep(b, rank);
      sb := RankField(b, rank, sb);
      if rank > 0 {
        sb := sb + "/";
      }
    }
  }

  lemma BoardTextStep(b: Board, rank: nat)
    requires rank < 8
    ensures RanksBelow(b, rank + 1) == RankText(b, rank, 0, 0) + if rank > 0 then "/" + RanksBelow(b, rank) else ""
  {
    hide RankText;
  }

  method RankField(b: Board, rank: nat, before: string) returns (sb: string)
    requires rank < 8
    ensures sb == before + RankText(b, rank, 0, 0)
  {
    hide PieceChar, Decimal, RankText;
    sb := before;
    var empty: nat := 0;
    for file := 0 to 8
      invariant sb + RankText(b, rank, file, empty) == before + RankText(b, rank, 0, 0)
    {
      var sq := MakeSquare(file, rank);
      RankTextStep(b, rank, file, empty, sb);
      if sq !in b {
        empty := empty + 1;
        continue;
      }
      if empty > 0 {
        sb := sb + Decimal(empty);
        empty := 0;
      }
      sb := sb + [PieceChar(b[sq])];
    }
    RankTextEnd(b, rank, empty);
    if empty > 0 {
      sb := sb + Decimal(empty);
    }
  }

  lemma RankTextStep(b: Board, rank: nat, file: nat, empty: nat, sb: string)
    requires rank < 8 && file < 8
    ensures var sq := MakeSquare(file, rank);
      sb + RankText(b, rank, file, empty) ==
        if sq !in b then sb + RankText(b, rank, file + 1, empty + 1)
        else (if empty > 0 then sb + Decimal(empty) else sb) + [PieceChar(b[sq])] + RankText(b, rank, file + 1, 0)
  {
    hide PieceChar, Decimal;
    if MakeSquare(file, rank) in b {
      Associates(sb, Flush(empty), [PieceChar(b[MakeSquare(file, rank)])], RankText(b, rank, file + 1, 0));
    }
  }

  lemma Associates(a: string, b: string, c: string, d: string)
    ensures a + (b + c + d) == a + b + c + d && a + "" == a
  {
  }

  lemma RankTextEnd(b: Board, rank: nat, empty: nat)
    requires rank < 8
    ensures RankText(b, rank, 8, empty) == if empty > 0 then Decimal(empty) else ""
  {
  }

  /** castlingFEN, with the classical rendering of the rights. */
  method CastlingField(p: Position, chess960: bool) returns (s: string)
    requires RooksKnown(p.Model())
    ensures s == CastlingText(p.Model(), chess960)
  {
    hide RightChar, CastlingFrom;
    if p.castling == {} {
      return "-";
    }
    s := "";
    ghost var q := p.Model();
    for idx := 0 to 4
      invariant s + CastlingFrom(q, idx, chess960) == CastlingFrom(q, 0, chess960)
    {
      CastlingFromStep(q, idx, chess960, s);
      if RIGHTS[idx] in p.castling {
        s := s + [RightChar(p.Model(), idx, chess960)];
      }
    }
    CastlingFromEnd(q, chess960);
  }

  lemma CastlingFromStep(q: Pos, idx: nat, chess960: bool, s: string)
    requires idx < 4 && RooksKnown(q)
    ensures s + CastlingFrom(q, idx, chess960) ==
      (if RIGHTS[idx] in q.castling then s + [RightChar(q, idx, chess960)] else s) + CastlingFrom(q, idx + 1, chess960)
  {
    hide RightChar;
    var rest := CastlingFrom(q, idx + 1, chess960);
    if RIGHTS[idx] in q.castling {
      assert CastlingFrom(q, idx, chess960) == [RightChar(q, idx, chess960)] + rest;
    } else {
      assert CastlingFrom(q, idx, chess960) == rest;
    }
  }

  lemma CastlingFromEnd(q: Pos, chess960: bool)
    requires RooksKnown(q)
    ensures CastlingFrom(q, 4, chess960) == ""
  {
  }

  method FEN(p: Position, chess960: bool) returns (s: string)
    requires RooksKnown(p.Model())
    ensures s == FenOf(p.Model(), chess960)
  {
    hide BoardText, CastlingText, SquareText, Itoa;
    var board := BoardField(p.board);
    var side := " b ";
    if p.side.White? {
      side := " w ";
    }
    var castling := CastlingField(p, chess960);
    s := board + side + castling + " ";
    s := s + SquareText(p.ep) + " ";
    s := s + Itoa(p.halfmove) + " ";
    s := s + Itoa(p.fullmove);
    SixParts(board, SideText(p.side), castling, SquareText(p.ep), Itoa(p.halfmove), Itoa(p.fullmove));
  }

  lemma SixParts(a: string, b: string, c: string, d: string, e: string, f: string)
    ensures a + (" " + b + " ") + c + " " + d + " " + e + " " + f == a + " " + b + " " + c + " " + d + " " + e + " " + f
  {
  }

  // ---- castling

  method SetCastlingRight(p: Position, r: Right, rookFrom: Square)
    requires p.Views() && OneKing(p.board, r.color) && forall s: Square :: s in p.crMask
    modifies p`castling, p`castlingRook, p`castlingPath, p`crMask
    ensures p.Model() == SetRight(old(p.Model()), r, rookFrom)
  {
    hide ViewsOf, BetweenBB, PathOf;
    var kingFrom := p.KingSquareOf(r.color);
    PathIsTravel(kingFrom, rookFrom, r);
    var kingTo, rookTo := KingTo(r), RookTo(r);
    p.castling := p.castling + {r};
    p.castlingRook := p.castlingRook[r := rookFrom];
    var path :=
      (BetweenBB(kingFrom, kingTo) + {kingTo} + BetweenBB(rookFrom, rookTo) + {rookTo}) - {kingFrom, rookFrom};
    p.castlingPath := p.castlingPath[r := path];
    p.crMask := p.crMask[kingFrom := p.crMask[kingFrom] - Rights(r.color)];
    p.crMask := p.crMask[rookFrom := p.crMask[rookFrom] - {r}];
  }

  lemma PathIsTravel(kingFrom: Square, rookFrom: Square, r: Right)
    ensures PathOf(kingFrom, rookFrom, r) ==
      (BetweenBB(kingFrom, KingTo(r)) + {KingTo(r)} + BetweenBB(rookFrom, RookTo(r)) + {RookTo(r)}) -
        {kingFrom, rookFrom}
  {
    hide Between;
  }

  method FindCastlingRook(p: Position, us: Color, kingSide: bool) returns (r: Option<Square>)
    requires p.Views() && OneKing(p.board, us)
    ensures r == FindRook(p.board, us, kingSide, KingSquare(p.board, us))
  {
    hide ViewsOf, RookInward, Has, File, Rank;
    var ksq := p.KingSquareOf(us);
    var rank := BackRank(us);
    if Rank(ksq) != rank {
      return None;
    }
    if kingSide {
      var file := 7;
      while file > File(ksq)
        invariant File(ksq) <= file <= 7
        invariant RookInward(p.board, us, 7, File(ksq)) == RookInward(p.board, us, file, File(ksq))
      {
        InwardStep(p.board, us, file, File(ksq));
        var sq := MakeSquare(file, rank);
        if Has(p.board, sq, Piece(us, Rook)) {
          return Some(sq);
        }
        file := file - 1;
      }
    } else {
      var file := 0;
      while file < File(ksq)
        invariant 0 <= file <= File(ksq)
        invariant RookInward(p.board, us, 0, File(ksq)) == RookInward(p.board, us, file, File(ksq))
      {
        InwardStep(p.board, us, file, File(ksq));
        var sq := MakeSquare(file, rank);
        if Has(p.board, sq, Piece(us, Rook)) {
          return Some(sq);
        }
        file := file + 1;
      }
    }
    InwardStep(p.board, us, File(ksq), File(ksq));
    return None;
  }

  lemma InwardStep(b: Board, c: Color, file: int, kingFile: int)
    requires 0 <= file < 8 && 0 <= kingFile < 8
    ensures RookInward(b, c, file, kingFile) ==
      if file == kingFile then None
      else if Has(b, MakeSquare(file, BackRank(c)), Piece(c, Rook)) then Some(MakeSquare(file, BackRank(c)))
      else RookInward(b, c, if file > kingFile then file - 1 else file + 1, kingFile)
  {
  }

  method ParseCastlingChar(p: Position, ch: char, chess960: bool) returns (ok: bool, flag: bool)
    requires p.Views() && Kinged(p.Model())
    modifies p`castling, p`castlingRook, p`castlingPath, p`crMask
    ensures ok <==> ReadRight(old(p.Model()), ch, chess960).Some?
    ensures ok ==> ReadRight(old(p.Model()), ch, chess960) == Some(Castled(p.Model(), flag))
  {
    hide ViewsOf, OneKing, FindRook, SetRight;
    KingedHas(p.Model(), White);
    KingedHas(p.Model(), Black);
    flag := chess960;
    ok := true;
    if ch == 'K' || ch == 'Q' || ch == 'k' || ch == 'q' {
      var us := White;
      if ch == 'k' || ch == 'q' {
        us := Black;
      }
      var kingSide := ch == 'K' || ch == 'k';
      var found := FindCastlingRook(p, us, kingSide);
      if found.Some? {
        SetCastlingRight(p, Right(us, kingSide), found.value);
      }
    } else if 'A' <= ch <= 'H' || 'a' <= ch <= 'h' {
      var us := if ch >= 'a' then Black else White;
      var rank := BackRank(us);
      var rookFrom := MakeSquare((ch - if ch >= 'a' then 'a' else 'A') as int, rank);
      if Has(p.board, rookFrom, Piece(us, Rook)) {
        var ksq := p.KingSquareOf(us);
        if Rank(ksq) == rank {
          flag := true;
          SetCastlingRight(p, Right(us, rookFrom > ksq), rookFrom);
        }
      }
    } else {
      ok := false;
    }
  }

  method ParseCastlingField(p: Position, field: string, chess960: bool) returns (ok: bool, flag: bool)
    requires p.Views() && Kinged(p.Model()) && CastlingValid(p.Model())
    modifies p`castling, p`castlingRook, p`castlingPath, p`crMask
    ensures ok <==> ReadCastling(old(p.Model()), field, chess960).Some?
    ensures ok ==> ReadCastling(old(p.Model()), field, chess960) == Some(Castled(p.Model(), flag))
  {
    hide ViewsOf, Kinged, CastlingValid, ReadRight;
    flag := chess960;
    if field == "-" {
      return true, flag;
    }
    var i := 0;
    while i < |field|
      invariant 0 <= i <= |field| && Kinged(p.Model()) && CastlingValid(p.Model())
      invariant p.board == old(p.board)
      invariant ReadRights(old(p.Model()), field, chess960) == ReadRights(p.Model(), field[i..], flag)
    {
      ghost var before, flag0 := p.Model(), flag;
      assert field[i..] == [field[i]] + field[i + 1..];
      ReadStep(before, field[i], field[i + 1..], flag0);
      ok, flag := ParseCastlingChar(p, field[i], flag);
      if !ok {
        return false, flag;
      }
      ReadRightKeeps(before, field[i], flag0);
      i := i + 1;
    }
    return true, flag;
  }

  // ---- the board

  /** Nothing stands on the squares still to be read: this rank from a file on, and the ranks below. */
  predicate Ahead(b: Board, rank: int, file: int) {
    forall s | s in b :: Rank(s) > rank || (Rank(s) == rank && File(s) < file)
  }

  method ParseRow(p: Position, row: string, rank: nat) returns (ok: bool)
    requires rank < 8 && p.Views() && Ahead(p.board, rank, 0)
    modifies p`byType, p`byColor, p`board, p`key
    ensures p.Views()
    ensures ok ==> ReadRow(old(p.board), row, rank, 0) == Some(p.board) && Ahead(p.board, rank - 1, 0)
    ensures !ok ==> ReadRow(old(p.board), row, rank, 0).None?
  {
    hide ViewsOf, IndexOf, PieceOfCode, ReadRow;
    var file: nat := 0;
    var j := 0;
    while j < |row|
      invariant 0 <= j <= |row| && p.Views() && Ahead(p.board, rank, file)
      invariant ReadRow(old(p.board), row, rank, 0) == ReadRow(p.board, row[j..], rank, file)
    {
      var ch := row[j];
      RowStep(p.board, ch, row[j + 1..], rank, file);
      assert row[j..] == [ch] + row[j + 1..];
      if '1' <= ch <= '8' {
        file := file + (ch - '0') as nat;
      } else {
        var idx := IndexOf(ch, 0);
        if idx.None? {
          return false;
        }
        if file > 7 {
          return false;
        }
        p.PutPiece(PieceOfCode(idx.value), MakeSquare(file, rank));
        file := file + 1;
      }
      j := j + 1;
    }
    RowEnd(p.board, rank, file);
    return file == 8;
  }

  lemma RowEnd(b: Board, rank: nat, file: nat)
    requires rank < 8
    ensures ReadRow(b, "", rank, file) == if file == 8 then Some(b) else None
  {
  }

  lemma RowStep(b: Board, ch: char, rest: string, rank: nat, file: nat)
    requires rank < 8
    ensures ReadRow(b, [ch] + rest, rank, file) ==
      if '1' <= ch <= '8' then ReadRow(b, rest, rank, file + (ch - '0') as nat)
      else if IndexOf(ch, 0).None? || file > 7 then None
      else ReadRow(b[MakeSquare(file, rank) := PieceOfCode(IndexOf(ch, 0).value)], rest, rank, file + 1)
  {
    assert ([ch] + rest)[1..] == rest;
  }

  method ParseBoard(p: Position, field: string) returns (ok: bool)
    requires p.Views() && p.board == map[]
    modifies p`byType, p`byColor, p`board, p`key
    ensures p.Views()
    ensures ok ==> ReadBoard(field) == Some(p.board)
    ensures !ok ==> ReadBoard(field).None?
  {
    hide ViewsOf, ReadRow, ReadRows, Split;
    var ranks := Split(field, '/');
    if |ranks| != 8 {
      return false;
    }
    assert ranks[0..] == ranks;
    for i := 0 to 8
      invariant p.Views() && Ahead(p.board, 7 - i, 0)
      invariant ReadRows(map[], ranks, 7) == if i < 8 then ReadRows(p.board, ranks[i..], 7 - i) else Some(p.board)
    {
      RowsStep(p.board, ranks[i..], 7 - i);
      ok := ParseRow(p, ranks[i], 7 - i);
      if !ok {
        return false;
      }
      assert i < 7 ==> ranks[i..][1..] == ranks[i + 1..];
    }
    return true;
  }

  lemma RowsStep(b: Board, rows: seq<string>, rank: nat)
    requires rank < 8 && |rows| == rank + 1
    ensures ReadRows(b, rows, rank) ==
      match ReadRow(b, rows[0], rank, 0)
      case None => None
      case Some(c) => if rank == 0 then Some(c) else ReadRows(c, rows[1..], rank - 1)
  {
    hide ReadRow;
  }

  // ---- the parser

  datatype Status = Refused | Crashed | Read

  predicate SingleSquare(b: Bitboard) { b != {} && b - {First(b)} == {} }

  lemma KingCount(p: Position, c: Color)
    requires p.Views()
    ensures c in p.byColor && King in p.byType
    ensures SingleSquare(p.PiecesOf(c, King)) <==> OneKing(p.board, c)
  {
    var kings := p.PiecesOf(c, King);
    assert forall k: Square :: k in kings <==> IsKing(p.board, c, k);
    if SingleSquare(kings) {
      assert IsKing(p.board, c, First(kings));
      forall j | IsKing(p.board, c, j) ensures j == First(kings) {
        assert j in kings && j !in kings - {First(kings)};
      }
    }
    if OneKing(p.board, c) {
      assert kings == {KingSquare(p.board, c)};
    }
  }

  /** validate, once the kings have been counted. */
  method Validate(p: Position) returns (ok: bool)
    requires p.Views() && OneKing(p.board, White) && OneKing(p.board, Black)
    ensures ok <==> Passable(p.Model())
  {
    hide ViewsOf, Attackers, Position.AttackersTo, RankBB, NoPawnsOnEdges, Position.Occupied;
    ViewsTotal(p);
    var them := p.side.Opposite();
    var ksq := p.KingSquareOf(them);
    p.OccupiedIsBoard();
    p.AttackersToExactly(ksq, p.Occupied(), p.side);
    if p.AttackersTo(ksq, p.Occupied()) * p.byColor[p.side] != {} {
      return false;
    }
    PawnsOnEdges(p);
    return p.byType[Pawn] * (RankBB(0) + RankBB(7)) == {};
  }

  lemma PawnsOnEdges(p: Position)
    requires p.Views()
    ensures Pawn in p.byType && (p.byType[Pawn] * (RankBB(0) + RankBB(7)) == {} <==> NoPawnsOnEdges(p.board))
  {
    assert forall s: Square :: s in p.byType[Pawn] <==> s in p.board && p.board[s].kind.Pawn?;
    if p.byType[Pawn] * (RankBB(0) + RankBB(7)) == {} {
      forall s | s in p.board && p.board[s].kind.Pawn? ensures 1 <= Rank(s) <= 6 {
        assert s !in p.byType[Pawn] * (RankBB(0) + RankBB(7));
      }
    }
  }

  lemma PassableKeepsKingsApart(p: Pos)
    requires OneKing(p.board, White) && OneKing(p.board, Black) && KingSafe(p.board, p.side.Opposite())
    ensures KingsApart(p.board)
  {
    forall k, j | IsKing(p.board, p.side.Opposite(), k) && IsKing(p.board, p.side, j) ensures !KingStep(j, k) {
      assert j !in Attackers(p.board, k, p.side, p.board.Keys);
    }
  }

  /** parseFEN: the position it builds is the one the text means, its key is the computed one, and it is
      consistent, ready for play, whenever it is valid. */
  method ParseFEN(z: Tables, fen: string, chess960: bool) returns (status: Status, p: Position, flag: bool)
    ensures fresh(p)
    ensures status.Refused? <==> Parse(fen, chess960).Rejected?
    ensures status.Crashed? <==> Parse(fen, chess960).Panicked?
    ensures status.Read? ==> Parse(fen, chess960) == Accepted(p.Model(), flag)
    ensures status.Read? ==>
      p.z == z && p.Views() && p.KeyAgrees() && p.history == [] && (Valid(p.Model()) ==> p.Consistent())
  {
    hide ViewsOf, ParseFields, Valid, KeyOf;
    p := new Position.Empty(z);
    var fields := Fields(fen);
    status, flag := ParseInto(p, fields, chess960);
    if status.Read? {
      p.key := ComputeKey(z, p.board, p.castling, p.ep, p.side);
    }
  }

  method ParseInto(p: Position, fields: seq<string>, chess960: bool) returns (status: Status, flag: bool)
    requires p.Views() && p.Model() == EmptyPos()
    modifies p`byType, p`byColor, p`board, p`key, p`side, p`castling, p`castlingRook, p`castlingPath, p`crMask, p`ep,
      p`halfmove, p`fullmove
    ensures p.Views()
    ensures status.Refused? <==> ParseFields(fields, chess960).Rejected?
    ensures status.Crashed? <==> ParseFields(fields, chess960).Panicked?
    ensures status.Read? ==> ParseFields(fields, chess960) == Accepted(p.Model(), flag)
  {
    hide ViewsOf, OneKing, ReadCastling, ReadBoard, CastlingValid, Finish, Kinged;
    flag := chess960;
    if |fields| < 4 {
      return Refused, flag;
    }
    var ok := ParseBoard(p, fields[0]);
    if !ok || ReadSide(fields[1]).None? {
      return Refused, flag;
    }
    p.side := ReadSide(fields[1]).value;
    KingCount(p, White);
    KingCount(p, Black);
    if !SingleSquare(p.PiecesOf(White, King)) || !SingleSquare(p.PiecesOf(Black, King)) {
      return Refused, flag;
    }
    assert p.Model() == EmptyPos().(board := p.board, side := p.side);
    NoRightsYet(p.Model());
    ok, flag := ParseCastlingField(p, fields[2], chess960);
    if !ok {
      return Refused, flag;
    }
    FlagPasses(Castled(p.Model(), flag), fields);
    status := ParseRest(p, fields);
  }

  lemma FlagPasses(c: Castled, fields: seq<string>)
    requires |fields| >= 4
    ensures Finish(c, fields) ==
      match Finish(Castled(c.pos, false), fields)
      case Accepted(p, _) => Accepted(p, c.chess960)
      case r => r
  {
    hide KingSafe, NoPawnsOnEdges, EpAvailable, Atoi, ReadSquare;
  }

  /** The remaining fields, validate and sanitize. */
  method ParseRest(p: Position, fields: seq<string>) returns (status: Status)
    requires |fields| >= 4 && p.Views() && OneKing(p.board, White) && OneKing(p.board, Black)
    modifies p`ep, p`halfmove, p`fullmove
    ensures var c := Castled(old(p.Model()), false);
      && (status.Refused? <==> Finish(c, fields).Rejected?)
      && (status.Crashed? <==> Finish(c, fields).Panicked?)
      && (status.Read? ==> Finish(c, fields) == Accepted(p.Model(), false))
  {
    hide ViewsOf, OneKing, KingSafe, NoPawnsOnEdges, EpAvailable, Atoi, ReadSquare;
    if ReadTarget(fields[3]).None? {
      return Refused;
    }
    var target := ReadTarget(fields[3]).value;
    var halfmove, fullmove := 0, 1;
    if |fields| >= 5 {
      if Atoi(fields[4]).None? {
        return Refused;
      }
      halfmove := Atoi(fields[4]).value;
    }
    if |fields| >= 6 {
      if Atoi(fields[5]).None? {
        return Refused;
      }
      fullmove := Atoi(fields[5]).value;
    }
    p.ep, p.halfmove, p.fullmove := target, halfmove, fullmove;
    var ok := Validate(p);
    if !ok {
      return Refused;
    }
    PassableKeepsKingsApart(p.Model());
    if p.ep.Some? {
      var epSq := p.ep.value;
      if epSq !in p.board && !OnBoard(File(epSq), Rank(epSq) - Forward(p.side)) {
        return Crashed;
      }
      var available := p.EpCaptureAvailable(epSq, p.side);
      if !available {
        p.ep := None;
      }
    }
    return Read;
  }
}
