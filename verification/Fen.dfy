/** Reading and writing positions (position.go, castling.go): what the parser makes of a text, when the
    result is a valid position, and that the text of a position gives the position back. */
module Fen {
  import opened Squares
  import opened Rules
  import opened UnitNames
  import opened FenText
  import opened PositionState
  import opened Preservation
  import opened Zobrist

  const RIGHTS: seq<Right> := [Right(White, true), Right(White, false), Right(Black, true), Right(Black, false)]

  function Rights(c: Color): set<Right> { {Right(c, true), Right(c, false)} }

  /** Malformed, an index off the board, or a position and whether its castling was in Shredder notation. */
  datatype Parsed = Rejected | Panicked | Accepted(pos: Pos, chess960: bool)

  // ---- castling rights

  /** setCastlingRight: the right, its rook, the squares that must be empty, and who forfeits it. */
  ghost function SetRight(p: Pos, r: Right, rookFrom: Square): Pos
    requires OneKing(p.board, r.color) && forall s: Square :: s in p.setup.mask
  {
    var k := KingSquare(p.board, r.color);
    var revoked := p.setup.mask[k := p.setup.mask[k] - Rights(r.color)];
    p.(castling := p.castling + {r}, setup := Setup(
      p.setup.rook[r := rookFrom],
      p.setup.path[r := PathOf(k, rookFrom, r)],
      revoked[rookFrom := revoked[rookFrom] - {r}]))
  }

  /** From a file inward, the first rook met before the king's file. */
  function RookInward(b: Board, c: Color, file: int, kingFile: int): Option<Square>
    requires 0 <= file < 8 && 0 <= kingFile < 8
    decreases Abs(file - kingFile)
  {
    if file == kingFile then None
    else if Has(b, MakeSquare(file, BackRank(c)), Piece(c, Rook)) then Some(MakeSquare(file, BackRank(c)))
    else RookInward(b, c, if file > kingFile then file - 1 else file + 1, kingFile)
  }

  /** findCastlingRook. */
  function FindRook(b: Board, c: Color, kingSide: bool, k: Square): Option<Square> {
    if Rank(k) != BackRank(c) then None else RookInward(b, c, if kingSide then 7 else 0, File(k))
  }

  /** The rook farthest from the king on one side. */
  predicate Outermost(b: Board, c: Color, kingSide: bool, k: Square, s: Square) {
    && Rank(k) == BackRank(c) && Rank(s) == BackRank(c) && Has(b, s, Piece(c, Rook))
    && (if kingSide then File(s) > File(k) else File(s) < File(k))
    && forall t: Square | Rank(t) == BackRank(c) && Has(b, t, Piece(c, Rook)) ::
      if kingSide then File(t) <= File(s) else File(t) >= File(s)
  }

  lemma {:induction false} InwardFindsOutermost(b: Board, c: Color, file: int, k: Square, kingSide: bool)
    requires 0 <= file < 8 && Rank(k) == BackRank(c)
    requires if kingSide then file >= File(k) else file <= File(k)
    requires forall t: Square | Rank(t) == BackRank(c) && Has(b, t, Piece(c, Rook)) ::
      if kingSide then File(t) <= file else File(t) >= file
    ensures forall s: Square :: RookInward(b, c, file, File(k)) == Some(s) <==> Outermost(b, c, kingSide, k, s)
    decreases Abs(file - File(k))
  {
    var here := MakeSquare(file, BackRank(c));
    assert forall t: Square :: Rank(t) == BackRank(c) && File(t) == file ==> t == here;
    if file != File(k) && !Has(b, here, Piece(c, Rook)) {
      InwardFindsOutermost(b, c, if file > File(k) then file - 1 else file + 1, k, kingSide);
    }
  }

  /** findCastlingRook answers with the outermost rook on that side, whenever there is one. */
  lemma FindRookIsOutermost(b: Board, c: Color, kingSide: bool, k: Square)
    ensures forall s: Square :: FindRook(b, c, kingSide, k) == Some(s) <==> Outermost(b, c, kingSide, k, s)
  {
    if Rank(k) == BackRank(c) {
      InwardFindsOutermost(b, c, if kingSide then 7 else 0, k, kingSide);
    }
  }

  datatype Castled = Castled(pos: Pos, chess960: bool)

  /** One character of the castling field. A right without its rook or king at home is dropped. */
  ghost function ReadRight(q: Pos, ch: char, chess960: bool): Option<Castled>
    requires Kinged(q)
  {
    if ch == 'K' || ch == 'Q' || ch == 'k' || ch == 'q' then
      var us := if ch == 'k' || ch == 'q' then Black else White;
      var kingSide := ch == 'K' || ch == 'k';
      match FindRook(q.board, us, kingSide, KingSquare(q.board, us))
      case None => Some(Castled(q, chess960))
      case Some(rookFrom) => Some(Castled(SetRight(q, Right(us, kingSide), rookFrom), chess960))
    else if 'A' <= ch <= 'H' || 'a' <= ch <= 'h' then
      var us := if ch >= 'a' then Black else White;
      var rookFrom := MakeSquare((ch - if ch >= 'a' then 'a' else 'A') as int, BackRank(us));
      if !Has(q.board, rookFrom, Piece(us, Rook)) then Some(Castled(q, chess960))
      else
        var k := KingSquare(q.board, us);
        if Rank(k) != BackRank(us) then Some(Castled(q, chess960))
        else Some(Castled(SetRight(q, Right(us, rookFrom > k), rookFrom), true))
    else None
  }

  ghost predicate Kinged(q: Pos) {
    OneKing(q.board, White) && OneKing(q.board, Black) && forall s: Square :: s in q.setup.mask
  }

  ghost function ReadRights(q: Pos, field: string, chess960: bool): Option<Castled>
    requires Kinged(q)
    decreases |field|
  {
    if field == "" then Some(Castled(q, chess960))
    else
      match ReadRight(q, field[0], chess960)
      case None => None
      case Some(c) => ReadRights(c.pos, field[1..], c.chess960)
  }

  ghost function ReadCastling(q: Pos, field: string, chess960: bool): Option<Castled>
    requires Kinged(q)
  {
    if field == "-" then Some(Castled(q, chess960)) else ReadRights(q, field, chess960)
  }

  // ---- the whole text

  function ReadSide(s: string): Option<Color> {
    if s == "w" then Some(White) else if s == "b" then Some(Black) else None
  }

  function ReadNumber(fields: seq<string>, i: nat, default: int): Option<int> {
    if |fields| > i then Atoi(fields[i]) else Some(default)
  }

  function ReadTarget(s: string): Option<Option<Square>> {
    if s == "-" then Some(None) else if ReadSquare(s).Some? then Some(ReadSquare(s)) else None
  }

  /** validate: the mover's opponent is not in check, and no pawn stands on an edge. */
  ghost predicate Passable(p: Pos) { KingSafe(p.board, p.side.Opposite()) && NoPawnsOnEdges(p.board) }

  /** Where epCaptureAvailable would index off the board. */
  predicate OffTheBoard(p: Pos) {
    p.ep.Some? && p.ep.value !in p.board && !OnBoard(File(p.ep.value), Rank(p.ep.value) - Forward(p.side))
  }

  /** sanitize: a target nobody can capture on is forgotten. */
  ghost function Sanitized(p: Pos): Pos {
    if p.ep.Some? && !EpAvailable(p.board, p.side, p.ep.value) then p.(ep := None) else p
  }

  ghost function Parse(fen: string, chess960: bool): Parsed {
    ParseFields(Fields(fen), chess960)
  }

  ghost function ParseFields(fields: seq<string>, chess960: bool): Parsed {
    if |fields| < 4 || ReadBoard(fields[0]).None? || ReadSide(fields[1]).None? then Rejected
    else
      var placed := EmptyPos().(board := ReadBoard(fields[0]).value, side := ReadSide(fields[1]).value);
      if !OneKing(placed.board, White) || !OneKing(placed.board, Black) ||
        ReadCastling(placed, fields[2], chess960).None? then Rejected
      else Finish(ReadCastling(placed, fields[2], chess960).value, fields)
  }

  ghost function Finish(c: Castled, fields: seq<string>): Parsed
    requires |fields| >= 4
  {
    if ReadTarget(fields[3]).None? || ReadNumber(fields, 4, 0).None? || ReadNumber(fields, 5, 1).None? then Rejected
    else
      var p := c.pos.(ep := ReadTarget(fields[3]).value, halfmove := ReadNumber(fields, 4, 0).value,
        fullmove := ReadNumber(fields, 5, 1).value);
      if !Passable(p) then Rejected
      else if OffTheBoard(p) then Panicked
      else Accepted(Sanitized(p), c.chess960)
  }

  // ---- what the parser accepts

  lemma SetRightKeeps(p: Pos, r: Right, rookFrom: Square)
    requires Kinged(p) && CastlingValid(p)
    requires Has(p.board, rookFrom, Piece(r.color, Rook)) && Rank(rookFrom) == BackRank(r.color)
    requires Rank(KingSquare(p.board, r.color)) == BackRank(r.color) &&
      (r.kingSide <==> rookFrom > KingSquare(p.board, r.color))
    ensures Kinged(SetRight(p, r, rookFrom)) && CastlingValid(SetRight(p, r, rookFrom))
  {
    hide PathOf;
    var q := SetRight(p, r, rookFrom);
    forall s | s in q.castling ensures RightAtHome(q, s) {
      if s != r {
        assert RightAtHome(p, s);
      }
    }
  }

  lemma ReadRightKeeps(q: Pos, ch: char, chess960: bool)
    requires Kinged(q) && CastlingValid(q) && ReadRight(q, ch, chess960).Some?
    ensures var r := ReadRight(q, ch, chess960).value.pos;
      Kinged(r) && CastlingValid(r) && r.board == q.board && r.side == q.side
  {
    hide CastlingValid, FindRook;
    if ch == 'K' || ch == 'Q' || ch == 'k' || ch == 'q' {
      var us := if ch == 'k' || ch == 'q' then Black else White;
      var kingSide := ch == 'K' || ch == 'k';
      var k := KingSquare(q.board, us);
      FindRookIsOutermost(q.board, us, kingSide, k);
      if FindRook(q.board, us, kingSide, k).Some? {
        var s := FindRook(q.board, us, kingSide, k).value;
        assert Outermost(q.board, us, kingSide, k, s);
        SetRightKeeps(q, Right(us, kingSide), s);
      }
    } else {
      var us := if ch >= 'a' then Black else White;
      var rookFrom := MakeSquare((ch - if ch >= 'a' then 'a' else 'A') as int, BackRank(us));
      var k := KingSquare(q.board, us);
      if Has(q.board, rookFrom, Piece(us, Rook)) && Rank(k) == BackRank(us) {
        SetRightKeeps(q, Right(us, rookFrom > k), rookFrom);
      }
    }
  }

  lemma {:induction false} ReadRightsKeep(q: Pos, field: string, chess960: bool)
    requires Kinged(q) && CastlingValid(q) && ReadRights(q, field, chess960).Some?
    ensures var r := ReadRights(q, field, chess960).value.pos;
      Kinged(r) && CastlingValid(r) && r.board == q.board && r.side == q.side
    decreases |field|
  {
    hide CastlingValid, ReadRight, Kinged;
    if field != "" {
      ReadRightKeeps(q, field[0], chess960);
      var c := ReadRight(q, field[0], chess960).value;
      ReadRightsKeep(c.pos, field[1..], c.chess960);
    }
  }

  lemma NoRightsYet(p: Pos)
    requires p.castling == {} && p.setup == EmptyPos().setup && OneKing(p.board, White) && OneKing(p.board, Black)
    ensures Kinged(p) && CastlingValid(p)
  {
    hide OneKing;
  }

  lemma ReadCastlingKeeps(b: Board, side: Color, field: string, chess960: bool)
    requires OneKing(b, White) && OneKing(b, Black)
    ensures var placed := EmptyPos().(board := b, side := side);
      && Kinged(placed)
      && (ReadCastling(placed, field, chess960).Some? ==>
            ReadCastling(placed, field, chess960).value.pos.board == b &&
              ReadCastling(placed, field, chess960).value.pos.side == side)
  {
    hide CastlingValid, OneKing, ReadRights;
    var placed := EmptyPos().(board := b, side := side);
    NoRightsYet(placed);
    if field != "-" && ReadRights(placed, field, chess960).Some? {
      ReadRightsKeep(placed, field, chess960);
    }
  }

  /** What an accepted position still has to satisfy to be valid, in terms of its own fields. */
  lemma AcceptedFields(fen: string, chess960: bool)
    requires Parse(fen, chess960).Accepted?
    ensures var p := Parse(fen, chess960).pos;
      Valid(p) <==> p.halfmove >= 0 && (p.ep.Some? ==> Rank(p.ep.value) == TargetRank(p.side))
  {
    hide RightAtHome, KingSafe, NoPawnsOnEdges, EpAvailable, ReadRights, OneKing, ReadBoard, Atoi, ReadSquare;
    var fields := Fields(fen);
    var placed := EmptyPos().(board := ReadBoard(fields[0]).value, side := ReadSide(fields[1]).value);
    if fields[2] != "-" {
      ReadRightsKeep(placed, fields[2], chess960);
    }
    SameRights(ReadCastling(placed, fields[2], chess960).value.pos, Parse(fen, chess960).pos);
  }

  /** The text reads as a board, a side to move, a target and a clock. */
  predicate Reads(f: seq<string>, b: Board, side: Color, target: Option<Square>, clock: int) {
    && |f| >= 4 && ReadBoard(f[0]) == Some(b) && ReadSide(f[1]) == Some(side)
    && ReadTarget(f[3]) == Some(target) && ReadNumber(f, 4, 0) == Some(clock)
  }

  /** The fields of a text that the parser believes without looking: a clock that is not negative, and a target
      that stands on the capturing side's target rank unless nobody could capture on it anyway. */
  ghost predicate Credible(b: Board, side: Color, target: Option<Square>, clock: int) {
    clock >= 0 && (target.None? || Rank(target.value) == TargetRank(side) || !EpAvailable(b, side, target.value))
  }

  /** Whatever text was given, the position accepted from it is valid if and only if the clock and the target
      written in the text are credible for the board and side written in it. */
  lemma AcceptedIsValidExactlyWhen(fen: string, chess960: bool, b: Board, side: Color, target: Option<Square>,
      clock: int)
    requires Parse(fen, chess960).Accepted? && Reads(Fields(fen), b, side, target, clock)
    ensures Valid(Parse(fen, chess960).pos) <==> Credible(b, side, target, clock)
  {
    hide Valid, EpAvailable, OneKing, ReadBoard, Atoi, ReadSquare, ReadCastling, KingSafe, NoPawnsOnEdges, Kinged;
    AcceptedFields(fen, chess960);
    ReadCastlingKeeps(b, side, Fields(fen)[2], chess960);
  }

  /** Such fields can always be read from a text that is accepted. */
  lemma AcceptedReads(fen: string, chess960: bool) returns (b: Board, side: Color, target: Option<Square>, clock: int)
    requires Parse(fen, chess960).Accepted?
    ensures Reads(Fields(fen), b, side, target, clock)
  {
    hide Valid, EpAvailable, OneKing, ReadBoard, Atoi, ReadSquare, ReadCastling, KingSafe, NoPawnsOnEdges, Kinged;
    var f := Fields(fen);
    b, side, target, clock :=
      ReadBoard(f[0]).value, ReadSide(f[1]).value, ReadTarget(f[3]).value, ReadNumber(f, 4, 0).value;
  }

  lemma SameRights(q: Pos, p: Pos)
    requires CastlingValid(q) && p.board == q.board && p.castling == q.castling && p.setup == q.setup
    ensures CastlingValid(p)
  {
    forall r | r in p.castling ensures RightAtHome(p, r) {
      assert RightAtHome(q, r);
    }
  }

  // ---- what the castling field means

  /** The letter names this right with the rook on s: K, Q, k and q the outermost rook on that side, a file letter
      the rook on that file; and only with king and rook on the back rank. */
  ghost predicate Names(b: Board, ch: char, r: Right, s: Square) {
    OneKing(b, r.color) &&
    var k := KingSquare(b, r.color);
    var (first, letter) := if r.color.White? then ('A', if r.kingSide then 'K' else 'Q')
      else ('a', if r.kingSide then 'k' else 'q');
    && Has(b, s, Piece(r.color, Rook)) && Rank(k) == Rank(s) == (if r.color.White? then 0 else 7)
    && (r.kingSide <==> s > k)
    && (ch == letter ==> Outermost(b, r.color, r.kingSide, k, s))
    && (ch == letter || ch == first + File(s) as char)
  }

  ghost predicate Named(b: Board, field: string, r: Right, s: Square) {
    exists i :: 0 <= i < |field| && Names(b, field[i], r, s)
  }

  /** A letter that is read names one right and rook, which are recorded, or none, and nothing changes. */
  lemma LetterIsRead(q: Pos, ch: char, chess960: bool) returns (named: Option<(Right, Square)>)
    requires Kinged(q) && ReadRight(q, ch, chess960).Some?
    ensures named.Some? ==> OneKing(q.board, named.value.0.color)
    ensures ReadRight(q, ch, chess960).value.pos ==
      if named.Some? then SetRight(q, named.value.0, named.value.1) else q
    ensures forall r: Right, s: Square :: Names(q.board, ch, r, s) <==> named == Some((r, s))
  {
    hide SetRight, FindRook, OneKing, Outermost;
    named := None;
    if ch == 'K' || ch == 'Q' || ch == 'k' || ch == 'q' {
      var us := if ch == 'k' || ch == 'q' then Black else White;
      var kingSide := ch == 'K' || ch == 'k';
      var found := FindRook(q.board, us, kingSide, KingSquare(q.board, us));
      FindRookIsOutermost(q.board, us, kingSide, KingSquare(q.board, us));
      if found.Some? { named := Some((Right(us, kingSide), found.value)); }
      ClassicalNames(q.board, ch, us, kingSide, named);
    } else {
      var us := if ch >= 'a' then Black else White;
      var rookFrom := MakeSquare((ch - if ch >= 'a' then 'a' else 'A') as int, BackRank(us));
      var k := KingSquare(q.board, us);
      if Has(q.board, rookFrom, Piece(us, Rook)) && Rank(k) == BackRank(us) {
        named := Some((Right(us, rookFrom > k), rookFrom));
      }
      ShredderNames(q.board, ch, us, rookFrom, named);
    }
  }

  lemma ClassicalNames(b: Board, ch: char, us: Color, kingSide: bool, named: Option<(Right, Square)>)
    requires OneKing(b, White) && OneKing(b, Black)
    requires ch == if us.White? then (if kingSide then 'K' else 'Q') else if kingSide then 'k' else 'q'
    requires named.Some? ==> named.value.0 == Right(us, kingSide)
    requires forall s: Square :: Outermost(b, us, kingSide, KingSquare(b, us), s) <==>
      named == Some((Right(us, kingSide), s))
    ensures forall r: Right, s: Square :: Names(b, ch, r, s) <==> named == Some((r, s))
  {
    hide OneKing;
    forall r: Right, s: Square ensures Names(b, ch, r, s) <==> named == Some((r, s)) {
      assert r.color.White? || r.color.Black?;
    }
  }

  lemma ShredderNames(b: Board, ch: char, us: Color, rookFrom: Square, named: Option<(Right, Square)>)
    requires OneKing(b, White) && OneKing(b, Black)
    requires if us.White? then 'A' <= ch <= 'H' else 'a' <= ch <= 'h'
    requires rookFrom == MakeSquare((ch - if us.White? then 'A' else 'a') as int, BackRank(us))
    requires var k := KingSquare(b, us);
      named == if Has(b, rookFrom, Piece(us, Rook)) && Rank(k) == BackRank(us)
        then Some((Right(us, rookFrom > k), rookFrom)) else None
    ensures forall r: Right, s: Square :: Names(b, ch, r, s) <==> named == Some((r, s))
  {
    hide OneKing, Outermost;
    forall r: Right, s: Square ensures Names(b, ch, r, s) <==> named == Some((r, s)) {
      assert r.color.White? || r.color.Black?;
      assert Rank(s) == BackRank(r.color) ==> s == MakeSquare(File(s), BackRank(r.color));
    }
  }

  /** After some letters: the rights named are held, and each is forfeited on its king's square and on those of the
      rooks it was named with. */
  ghost predicate Recorded(q: Pos, field: string)
    requires Kinged(q)
  {
    forall r: Right, s: Square :: RecordedAt(q, field, r, s)
  }

  ghost predicate RecordedAt(q: Pos, field: string, r: Right, s: Square)
    requires Kinged(q)
  {
    KingedHas(q, r.color);
    && (Named(q.board, field, r, s) ==> r in q.castling && r !in q.setup.mask[s])
    && (r in q.castling && IsKing(q.board, r.color, s) ==> r !in q.setup.mask[s])
    && (r !in q.setup.mask[s] ==> IsKing(q.board, r.color, s) || Named(q.board, field, r, s))
    && (r in q.castling ==> r in q.setup.rook && Named(q.board, field, r, q.setup.rook[r]))
  }

  lemma NamedMore(b: Board, field: string, ch: char, r: Right, s: Square)
    ensures Named(b, field + [ch], r, s) <==> Named(b, field, r, s) || Names(b, ch, r, s)
  {
    hide OneKing, Names;
    var more := field + [ch];
    if Names(b, ch, r, s) { assert Names(b, more[|field|], r, s); }
    if Named(b, field, r, s) {
      var i :| 0 <= i < |field| && Names(b, field[i], r, s);
      assert more[i] == field[i];
    }
  }

  lemma RecordOne(q: Pos, done: string, ch: char, r0: Right, s0: Square)
    requires Kinged(q) && Recorded(q, done) && OneKing(q.board, r0.color)
    requires forall r: Right, s: Square :: Names(q.board, ch, r, s) <==> r == r0 && s == s0
    ensures Kinged(SetRight(q, r0, s0)) && Recorded(SetRight(q, r0, s0), done + [ch])
  {
    hide Named, Names, OneKing, PathOf;
    var n := SetRight(q, r0, s0);
    forall r: Right, s: Square
      ensures Named(q.board, done + [ch], r, s) <==> Named(q.board, done, r, s) || (r == r0 && s == s0)
    {
      NamedMore(q.board, done, ch, r, s);
    }
    forall r: Right, s: Square ensures RecordedAt(n, done + [ch], r, s) {
      assert RecordedAt(q, done, r, s);
    }
  }

  lemma RecordNone(q: Pos, done: string, ch: char)
    requires Kinged(q) && Recorded(q, done)
    requires forall r: Right, s: Square :: !Names(q.board, ch, r, s)
    ensures Recorded(q, done + [ch])
  {
    hide Named, Names, OneKing;
    forall r: Right, s: Square
      ensures Named(q.board, done + [ch], r, s) <==> Named(q.board, done, r, s)
    {
      NamedMore(q.board, done, ch, r, s);
    }
    forall r: Right, s: Square ensures RecordedAt(q, done + [ch], r, s) {
      assert RecordedAt(q, done, r, s);
    }
  }

  lemma {:induction false} RightsAreRecorded(q: Pos, done: string, field: string, chess960: bool)
    requires Kinged(q) && Recorded(q, done) && ReadRights(q, field, chess960).Some?
    ensures var p := ReadRights(q, field, chess960).value.pos;
      Kinged(p) && p.board == q.board && Recorded(p, done + field)
    decreases |field|
  {
    hide ReadRight, Recorded, SetRight, OneKing, Names;
    if field == "" {
      assert done + field == done;
    } else {
      var named := LetterIsRead(q, field[0], chess960);
      var c := ReadRight(q, field[0], chess960).value;
      if named.Some? {
        RecordOne(q, done, field[0], named.value.0, named.value.1);
        SetRightEffect(q, named.value.0, named.value.1);
      } else {
        RecordNone(q, done, field[0]);
      }
      RightsAreRecorded(c.pos, done + [field[0]], field[1..], c.chess960);
      assert done + [field[0]] + field[1..] == done + field;
    }
  }

  lemma NothingRecorded(p: Pos)
    requires p.castling == {} && p.setup == EmptyPos().setup && OneKing(p.board, White) && OneKing(p.board, Black)
    ensures Kinged(p) && Recorded(p, "")
  {
    hide OneKing, Names;
    forall r: Right, s: Square ensures RecordedAt(p, "", r, s) {
      assert r.color.White? || r.color.Black?;
      assert r in AllRights() && p.setup.mask[s] == AllRights();
    }
  }

  /** Where the king of a right stands, or a rook the field names it with. */
  ghost predicate Origin(b: Board, field: string, r: Right, s: Square) {
    IsKing(b, r.color, s) || Named(b, field, r, s)
  }

  /** The rights of an accepted position are those that the text names; each has a rook it is named with, and is
      forfeited on the squares of its king and of the rooks it is named with, and nowhere else. */
  lemma AcceptedRights(fen: string, chess960: bool, r: Right, s: Square)
    requires Parse(fen, chess960).Accepted?
    ensures var p, field := Parse(fen, chess960).pos, Fields(fen)[2];
      && s in p.setup.mask
      && (r in p.castling <==> exists t: Square :: Named(p.board, field, r, t))
      && (r in p.castling ==> r in p.setup.rook && Named(p.board, field, r, p.setup.rook[r]))
      && (r in p.castling ==>
            (r !in p.setup.mask[s] <==> Origin(p.board, field, r, s)))
  {
    hide Names, Named, OneKing, ReadRights, Parse, Recorded;
    var placed := AcceptedCastling(fen, chess960);
    var field := Fields(fen)[2];
    var q := ReadCastling(placed, field, chess960).value.pos;
    NothingRecorded(placed);
    if field == "-" {
      DashNamesNothing(placed.board);
      RecordNone(placed, "", '-');
      assert "" + ['-'] == "-";
    } else {
      RightsAreRecorded(placed, "", field, chess960);
      assert "" + field == field;
    }
    RecordedMeans(q, field, r, s);
  }

  lemma RecordedMeans(q: Pos, field: string, r: Right, s: Square)
    requires Kinged(q) && Recorded(q, field)
    ensures s in q.setup.mask
    ensures r in q.castling <==> exists t: Square :: Named(q.board, field, r, t)
    ensures r in q.castling ==> r in q.setup.rook && Named(q.board, field, r, q.setup.rook[r])
    ensures r in q.castling ==> (r !in q.setup.mask[s] <==> Origin(q.board, field, r, s))
  {
    hide Named, OneKing;
    if t: Square :| Named(q.board, field, r, t) {
      assert RecordedAt(q, field, r, t);
    }
    assert RecordedAt(q, field, r, s);
  }

  /** Everything in an accepted position that has to do with castling comes from the castling field. */
  lemma AcceptedCastling(fen: string, chess960: bool) returns (placed: Pos)
    requires Parse(fen, chess960).Accepted?
    ensures |Fields(fen)| >= 4 && OneKing(placed.board, White) && OneKing(placed.board, Black)
    ensures placed.castling == {} && placed.setup == EmptyPos().setup && Kinged(placed)
    ensures ReadCastling(placed, Fields(fen)[2], chess960).Some?
    ensures var p, q := Parse(fen, chess960).pos, ReadCastling(placed, Fields(fen)[2], chess960).value.pos;
      p.castling == q.castling && p.setup == q.setup && p.board == q.board == placed.board
  {
    hide OneKing, ReadRights, ReadBoard, Atoi, ReadSquare, KingSafe, NoPawnsOnEdges, EpAvailable, ReadCastling;
    var fields := Fields(fen);
    placed := EmptyPos().(board := ReadBoard(fields[0]).value, side := ReadSide(fields[1]).value);
    NothingRecorded(placed);
    ReadCastlingKeeps(placed.board, placed.side, fields[2], chess960);
  }

  lemma DashNamesNothing(b: Board)
    ensures forall r: Right, s: Square :: !Names(b, '-', r, s)
  {
    hide Outermost, OneKing;
  }

  /** So only kings and rooks at home ever forfeit a right in an accepted position. */
  lemma AcceptedForfeitsAtHome(fen: string, chess960: bool)
    requires Parse(fen, chess960).Accepted?
    ensures ForfeitsAtHome(Parse(fen, chess960).pos)
  {
    hide Parse, Named, HomeMan, OneKing, Origin, ReadCastling, Fields;
    var placed := AcceptedCastling(fen, chess960);
    var p := Parse(fen, chess960).pos;
    forall r: Right, s: Square | r in p.castling && s in p.setup.mask && r !in p.setup.mask[s]
      ensures HomeMan(p.board, r, s)
    {
      AcceptedRights(fen, chess960, r, s);
      assert r.color.White? || r.color.Black?;
      OriginIsHome(p.board, Fields(fen)[2], r, s, p.setup.rook[r]);
    }
  }

  lemma OriginIsHome(b: Board, field: string, r: Right, s: Square, rook: Square)
    requires Origin(b, field, r, s) && Named(b, field, r, rook) && OneKing(b, r.color)
    ensures HomeMan(b, r, s)
  {
    hide Outermost;
    OnlyOneKing(b, r.color);
  }

  lemma OnlyOneKing(b: Board, c: Color)
    requires OneKing(b, c)
    ensures forall k | IsKing(b, c, k) :: k == KingSquare(b, c)
  {
  }

  /** A game from a text: a right is held after a line of legal moves if and only if the text names it and no move
      has begun or ended on its king's square or on that of a rook the text names it with. */
  lemma RightsOfAGame(fen: string, chess960: bool, ms: seq<Move>, r: Right)
    requires Parse(fen, chess960).Accepted? && Valid(Parse(fen, chess960).pos)
    requires LegalLine(Parse(fen, chess960).pos, ms)
    ensures var p, field := Parse(fen, chess960).pos, Fields(fen)[2];
      r in Play(p, ms).castling <==>
        && (exists s: Square :: Named(p.board, field, r, s))
        && forall m | m in ms :: !Origin(p.board, field, r, m.from) && !Origin(p.board, field, r, m.to)
    ensures ForfeitsAtHome(Play(Parse(fen, chess960).pos, ms))
  {
    hide Parse, Named, Origin, Valid, LegalLine, ForfeitsAtHome, Play;
    var p := Parse(fen, chess960).pos;
    var placed := AcceptedCastling(fen, chess960);
    AcceptedForfeitsAtHome(fen, chess960);
    RightsAlongPlay(p, ms, r);
    forall s: Square
      ensures s in p.setup.mask
      ensures r in p.castling ==>
        (r !in p.setup.mask[s] <==> Origin(p.board, Fields(fen)[2], r, s))
    {
      AcceptedRights(fen, chess960, r, s);
    }
    AcceptedRights(fen, chess960, r, 0);
  }

  // ---- writing

  /** One held right: KQkq, or the file of its rook in Shredder notation. */
  function RightChar(p: Pos, i: nat, chess960: bool): char
    requires i < 4 && RIGHTS[i] in p.setup.rook
  {
    if !chess960 then "KQkq"[i]
    else (if RIGHTS[i].color.White? then 'A' else 'a') + File(p.setup.rook[RIGHTS[i]]) as char
  }

  predicate RooksKnown(p: Pos) { forall r | r in p.castling :: r in p.setup.rook }

  function CastlingFrom(p: Pos, i: nat, chess960: bool): string
    requires i <= 4 && RooksKnown(p)
    decreases 4 - i
  {
    if i == 4 then ""
    else (if RIGHTS[i] in p.castling then [RightChar(p, i, chess960)] else "") + CastlingFrom(p, i + 1, chess960)
  }

  function CastlingText(p: Pos, chess960: bool): string
    requires RooksKnown(p)
  {
    if p.castling == {} then "-" else CastlingFrom(p, 0, chess960)
  }

  function SideText(c: Color): string { if c.White? then "w" else "b" }

  function FenOf(p: Pos, chess960: bool): string
    requires RooksKnown(p)
  {
    BoardText(p.board, 7) + " " + SideText(p.side) + " " + CastlingText(p, chess960) + " " + SquareText(p.ep) + " " +
      Itoa(p.halfmove) + " " + Itoa(p.fullmove)
  }

  // ---- the text of a position gives it back

  lemma {:induction false} InwardMissesNone(b: Board, c: Color, file: int, kingFile: int, s: Square)
    requires 0 <= file < 8 && 0 <= kingFile < 8
    requires Rank(s) == BackRank(c) && Has(b, s, Piece(c, Rook))
    requires kingFile < File(s) <= file || file <= File(s) < kingFile
    ensures RookInward(b, c, file, kingFile).Some?
    decreases Abs(file - kingFile)
  {
    if !Has(b, MakeSquare(file, BackRank(c)), Piece(c, Rook)) {
      assert s == MakeSquare(File(s), BackRank(c));
      InwardMissesNone(b, c, if file > kingFile then file - 1 else file + 1, kingFile, s);
    }
  }

  /** The rook that the text of a held right will be read as. */
  ghost function RookRead(p: Pos, r: Right, chess960: bool): Square
    requires OneKing(p.board, r.color) && r in p.castling && RightAtHome(p, r)
  {
    if chess960 then p.setup.rook[r]
    else
      FindRookHolds(p, r);
      FindRook(p.board, r.color, r.kingSide, KingSquare(p.board, r.color)).value
  }

  lemma FindRookHolds(p: Pos, r: Right)
    requires OneKing(p.board, r.color) && RightAtHome(p, r)
    ensures FindRook(p.board, r.color, r.kingSide, KingSquare(p.board, r.color)).Some?
  {
    var k := KingSquare(p.board, r.color);
    InwardMissesNone(p.board, r.color, if r.kingSide then 7 else 0, File(k), p.setup.rook[r]);
  }

  lemma RightRoundTrip(p: Pos, q: Pos, i: nat, chess960: bool)
    requires i < 4 && RIGHTS[i] in p.castling && RightAtHome(p, RIGHTS[i])
    requires Kinged(p) && Kinged(q) && q.board == p.board
    ensures ReadRight(q, RightChar(p, i, chess960), chess960) ==
      Some(Castled(SetRight(q, RIGHTS[i], RookRead(p, RIGHTS[i], chess960)), chess960))
  {
    hide FindRook, SetRight;
    var r := RIGHTS[i];
    FindRookHolds(p, r);
    var rook := p.setup.rook[r];
    if chess960 {
      var ch := RightChar(p, i, chess960);
      assert ch == (if r.color.White? then 'A' else 'a') + File(rook) as char;
      assert rook == MakeSquare(File(rook), BackRank(r.color));
    }
  }

  /** Rights of RIGHTS from i on that are held in p. */
  function HeldFrom(p: Pos, i: nat): set<Right> { set j | i <= j < 4 && RIGHTS[j] in p.castling :: RIGHTS[j] }

  ghost predicate ReadFrom(p: Pos, q: Pos, i: nat, chess960: bool, c: Castled)
    requires Kinged(p) && CastlingValid(p)
  {
    && Kinged(c.pos) && c.chess960 == chess960
    && c.pos.(castling := q.castling, setup := q.setup) == q
    && c.pos.castling == q.castling + HeldFrom(p, i)
    && (forall r | r in HeldFrom(p, i) :: r in p.castling && r in c.pos.setup.rook && r in c.pos.setup.path
          && c.pos.setup.rook[r] == RookRead(p, r, chess960)
          && c.pos.setup.path[r] == PathOf(KingSquare(p.board, r.color), RookRead(p, r, chess960), r))
    && (forall r | r !in HeldFrom(p, i) && r in q.setup.rook && r in q.setup.path ::
          r in c.pos.setup.rook && r in c.pos.setup.path && c.pos.setup.rook[r] == q.setup.rook[r] &&
            c.pos.setup.path[r] == q.setup.path[r])
  }

  lemma RooksAreKnown(p: Pos)
    requires CastlingValid(p)
    ensures RooksKnown(p)
  {
    forall r | r in p.castling ensures r in p.setup.rook { assert RightAtHome(p, r); }
  }

  lemma {:induction false} CastlingRoundTrip(p: Pos, q: Pos, i: nat, chess960: bool)
    requires i <= 4 && Kinged(p) && CastlingValid(p) && RooksKnown(p) && Kinged(q) && q.board == p.board
    ensures ReadRights(q, CastlingFrom(p, i, chess960), chess960).Some?
    ensures ReadFrom(p, q, i, chess960, ReadRights(q, CastlingFrom(p, i, chess960), chess960).value)
    decreases 4 - i
  {
    hide RightAtHome, RookRead, OneKing, RightChar, ReadRight, ReadFrom, SetRight, ReadRights, Kinged;
    if i == 4 {
      ReadNothing(p, q, chess960);
    } else if RIGHTS[i] in p.castling {
      var r := RIGHTS[i];
      KingedHas(q, r.color);
      assert RightAtHome(p, r);
      RightRoundTrip(p, q, i, chess960);
      SetRightEffect(q, r, RookRead(p, r, chess960));
      var next := SetRight(q, r, RookRead(p, r, chess960));
      CastlingRoundTrip(p, next, i + 1, chess960);
      ReadOneMore(p, q, i, chess960, ReadRights(next, CastlingFrom(p, i + 1, chess960), chess960).value);
      ReadStep(q, RightChar(p, i, chess960), CastlingFrom(p, i + 1, chess960), chess960);
    } else {
      CastlingRoundTrip(p, q, i + 1, chess960);
      assert CastlingFrom(p, i, chess960) == CastlingFrom(p, i + 1, chess960);
      ReadSameHere(p, q, i, chess960, ReadRights(q, CastlingFrom(p, i + 1, chess960), chess960).value);
    }
  }

  lemma KingedHas(q: Pos, c: Color)
    requires Kinged(q)
    ensures OneKing(q.board, c) && forall s: Square :: s in q.setup.mask
  {
    hide OneKing;
  }

  lemma ReadStep(q: Pos, ch: char, rest: string, chess960: bool)
    requires Kinged(q)
    ensures ReadRights(q, [ch] + rest, chess960) ==
      match ReadRight(q, ch, chess960)
      case None => None
      case Some(c) => ReadRights(c.pos, rest, c.chess960)
  {
    hide Kinged, ReadRight;
    assert ([ch] + rest)[1..] == rest;
  }

  lemma ReadNothing(p: Pos, q: Pos, chess960: bool)
    requires Kinged(p) && CastlingValid(p) && Kinged(q)
    ensures ReadFrom(p, q, 4, chess960, Castled(q, chess960)) &&
      ReadRights(q, "", chess960) == Some(Castled(q, chess960))
  {
    hide RightAtHome, RookRead, OneKing, PathOf;
    HeldSteps(p, 3);
  }

  lemma SetRightEffect(q: Pos, r: Right, rookFrom: Square)
    requires Kinged(q) && OneKing(q.board, r.color)
    ensures var n := SetRight(q, r, rookFrom);
      && Kinged(n) && n.(castling := q.castling, setup := q.setup) == q && n.castling == q.castling + {r}
      && n.setup.rook == q.setup.rook[r := rookFrom]
      && n.setup.path == q.setup.path[r := PathOf(KingSquare(q.board, r.color), rookFrom, r)]
  {
    hide PathOf, OneKing;
  }

  lemma ReadOneMore(p: Pos, q: Pos, i: nat, chess960: bool, c: Castled)
    requires i < 4 && Kinged(p) && CastlingValid(p) && Kinged(q) && q.board == p.board
    requires RIGHTS[i] in p.castling && RightAtHome(p, RIGHTS[i])
    requires ReadFrom(p, SetRight(q, RIGHTS[i], RookRead(p, RIGHTS[i], chess960)), i + 1, chess960, c)
    ensures ReadFrom(p, q, i, chess960, c)
  {
    hide RightAtHome, RookRead, OneKing, PathOf, SetRight, HeldFrom;
    SetRightEffect(q, RIGHTS[i], RookRead(p, RIGHTS[i], chess960));
    HeldSteps(p, i);
  }

  lemma ReadSameHere(p: Pos, q: Pos, i: nat, chess960: bool, c: Castled)
    requires i < 4 && Kinged(p) && CastlingValid(p) && RIGHTS[i] !in p.castling
    requires ReadFrom(p, q, i + 1, chess960, c)
    ensures ReadFrom(p, q, i, chess960, c)
  {
    hide RightAtHome, RookRead, OneKing, PathOf, HeldFrom;
    HeldSteps(p, i);
  }

  lemma HeldSteps(p: Pos, i: nat)
    requires i < 4
    ensures HeldFrom(p, i) == HeldFrom(p, i + 1) + if RIGHTS[i] in p.castling then {RIGHTS[i]} else {}
    ensures RIGHTS[i] !in HeldFrom(p, i + 1)
    ensures HeldFrom(p, 4) == {}
  {
  }

  lemma {:induction false} CastlingFromIsUnspaced(p: Pos, i: nat, chess960: bool)
    requires i <= 4 && RooksKnown(p)
    ensures Unspaced(CastlingFrom(p, i, chess960))
    ensures CastlingFrom(p, i, chess960) == "" <==> HeldFrom(p, i) == {}
    ensures |CastlingFrom(p, i, chess960)| > 0 ==> CastlingFrom(p, i, chess960)[0] != '-'
    decreases 4 - i
  {
    hide RightChar, HeldFrom, Unspaced;
    NothingUnspaced();
    if i < 4 {
      CastlingFromIsUnspaced(p, i + 1, chess960);
      HeldSteps(p, i);
      if RIGHTS[i] in p.castling {
        RightCharIsLetter(p, i, chess960);
        OneMoreUnspaced(RightChar(p, i, chess960), CastlingFrom(p, i + 1, chess960));
        assert RIGHTS[i] in HeldFrom(p, i);
      } else {
        assert CastlingFrom(p, i, chess960) == CastlingFrom(p, i + 1, chess960);
      }
    } else {
      HeldSteps(p, 3);
    }
  }

  lemma NothingUnspaced()
    ensures Unspaced("")
  {
  }

  lemma OneMoreUnspaced(c: char, s: string)
    requires !IsSpace(c) && Unspaced(s)
    ensures Unspaced([c] + s) && ([c] + s)[0] == c
  {
  }

  lemma RightCharIsLetter(p: Pos, i: nat, chess960: bool)
    requires i < 4 && RIGHTS[i] in p.setup.rook
    ensures !IsSpace(RightChar(p, i, chess960)) && RightChar(p, i, chess960) != '-'
  {
  }

  lemma AllHeld(p: Pos)
    ensures HeldFrom(p, 0) == p.castling
  {
    forall r | r in p.castling ensures r in HeldFrom(p, 0) {
      var j := if r.color.White? then (if r.kingSide then 0 else 1) else (if r.kingSide then 2 else 3);
      assert RIGHTS[j] == r;
    }
  }

  function FieldsOf(p: Pos, chess960: bool): seq<string>
    requires RooksKnown(p)
  {
    [BoardText(p.board, 7), SideText(p.side), CastlingText(p, chess960), SquareText(p.ep), Itoa(p.halfmove),
      Itoa(p.fullmove)]
  }

  predicate Machine(n: int) { -MAX_INT - 1 <= n <= MAX_INT }

  /** The text falls apart into its six fields. */
  lemma FieldsRoundTrip(p: Pos, chess960: bool)
    requires RooksKnown(p) && Machine(p.halfmove) && Machine(p.fullmove)
    ensures Fields(FenOf(p, chess960)) == FieldsOf(p, chess960)
  {
    hide BoardText, CastlingFrom, Itoa, Fields, SquareText;
    var f := FieldsOf(p, chess960);
    BoardTextIsPlain(p.board, 7);
    CastlingFromIsUnspaced(p, 0, chess960);
    AllHeld(p);
    TargetIsSolid(p.ep);
    ItoaRoundTrip(p.halfmove);
    ItoaRoundTrip(p.fullmove);
    JoinSix(f[0], f[1], f[2], f[3], f[4], f[5]);
  }

  lemma TargetIsSolid(ep: Option<Square>)
    ensures Solid(SquareText(ep)) && ReadTarget(SquareText(ep)) == Some(ep)
  {
    if ep.Some? {
      SquareRoundTrip(ep.value);
    }
  }

  lemma JoinSix(a: string, b: string, c: string, d: string, e: string, f: string)
    requires Solid(a) && Solid(b) && Solid(c) && Solid(d) && Solid(e) && Solid(f)
    ensures Fields(a + " " + b + " " + c + " " + d + " " + e + " " + f) == [a, b, c, d, e, f]
  {
    hide Fields, Solid;
    var ef := e + " " + f;
    var df := d + " " + ef;
    var cf := c + " " + df;
    var bf := b + " " + cf;
    assert a + " " + b + " " + c + " " + d + " " + e + " " + f == a + " " + bf;
    FirstField(a, bf);
    FirstField(b, cf);
    FirstField(c, df);
    FirstField(d, ef);
    FirstField(e, f);
    FirstField(f, "");
  }

  /** What a position must be for its own text to be accepted; every valid position is. */
  ghost predicate Writable(p: Pos) {
    && OneKing(p.board, White) && OneKing(p.board, Black) && CastlingValid(p) && RooksKnown(p) && Passable(p)
    && (p.ep.Some? ==> EpAvailable(p.board, p.side, p.ep.value))
    && Machine(p.halfmove) && Machine(p.fullmove)
  }

  lemma ValidIsWritable(p: Pos)
    requires Valid(p) && Machine(p.halfmove) && Machine(p.fullmove)
    ensures Writable(p)
  {
    hide RightAtHome, KingSafe, EpAvailable, OneKing, NoPawnsOnEdges;
    RooksAreKnown(p);
  }

  /** Parsing the text of a position under its own variant flag gives back board, side, rights, target and clocks;
      each right's rook is the one recorded, or, in classical notation, the outermost on its side. */
  lemma FenRoundTrip(p: Pos, chess960: bool)
    requires Writable(p)
    ensures ReadBack(p, chess960, Parse(FenOf(p, chess960), chess960))
  {
    hide ReadFrom, Fields, ParseFields, FieldsOf, FenOf, Writable, ReadBack;
    WritableHas(p);
    FieldsRoundTrip(p, chess960);
    CastlingFieldRoundTrip(p, chess960);
    PlacementRoundTrip(p, chess960);
    FinishedReadsBack(p, chess960, CastlingRead(p, chess960));
  }

  ghost predicate ReadBack(p: Pos, chess960: bool, r: Parsed)
    requires Writable(p)
  {
    && r.Accepted? && r.chess960 == chess960 && r.pos.(setup := p.setup) == p
    && forall right | right in p.castling :: RightReadBack(p, chess960, r.pos, right)
  }

  ghost predicate RightReadBack(p: Pos, chess960: bool, q: Pos, right: Right)
    requires Writable(p) && right in p.castling
  {
    && right in q.setup.rook && right in q.setup.path
    && q.setup.rook[right] == RookRead(p, right, chess960)
    && q.setup.path[right] == PathOf(KingSquare(p.board, right.color), RookRead(p, right, chess960), right)
  }

  lemma WritableHas(p: Pos)
    requires Writable(p)
    ensures RooksKnown(p) && Machine(p.halfmove) && Machine(p.fullmove) && Kinged(p) && CastlingValid(p)
  {
  }

  lemma FinishedReadsBack(p: Pos, chess960: bool, c: Castled)
    requires Writable(p) && Kinged(p) && ReadFrom(p, Placed(p), 0, chess960, c)
    ensures ReadBack(p, chess960,
      Accepted(c.pos.(ep := p.ep, halfmove := p.halfmove, fullmove := p.fullmove), chess960))
  {
    hide RookRead, PathOf, HeldFrom, OneKing, RightAtHome, EpAvailable, Passable;
    AllHeld(p);
  }

  ghost function CastlingRead(p: Pos, chess960: bool): Castled
    requires Writable(p)
  {
    KingedPlaced(p);
    CastlingFieldRoundTrip(p, chess960);
    ReadCastling(Placed(p), CastlingText(p, chess960), chess960).value
  }

  function Placed(p: Pos): Pos { EmptyPos().(board := p.board, side := p.side) }

  lemma KingedPlaced(p: Pos)
    requires Writable(p)
    ensures Kinged(Placed(p)) && Kinged(p)
  {
    hide OneKing;
  }

  lemma CastlingFieldRoundTrip(p: Pos, chess960: bool)
    requires Writable(p)
    ensures Kinged(Placed(p)) && Kinged(p)
    ensures ReadCastling(Placed(p), CastlingText(p, chess960), chess960).Some?
    ensures ReadFrom(p, Placed(p), 0, chess960, ReadCastling(Placed(p), CastlingText(p, chess960), chess960).value)
  {
    hide Writable, RightAtHome, ReadFrom, CastlingFrom, Kinged, ReadRights;
    KingedPlaced(p);
    CastlingOf(p);
    AllHeld(p);
    CastlingFromIsUnspaced(p, 0, chess960);
    CastlingRoundTrip(p, Placed(p), 0, chess960);
    ReadEmpty(Placed(p), chess960);
  }

  lemma ReadEmpty(q: Pos, chess960: bool)
    requires Kinged(q)
    ensures ReadRights(q, "", chess960) == Some(Castled(q, chess960))
  {
  }

  lemma CastlingOf(p: Pos)
    requires Writable(p)
    ensures CastlingValid(p) && RooksKnown(p)
  {
  }

  lemma PlacementRoundTrip(p: Pos, chess960: bool)
    requires Writable(p)
    ensures ParseFields(FieldsOf(p, chess960), chess960) ==
      Accepted(CastlingRead(p, chess960).pos.(ep := p.ep, halfmove := p.halfmove, fullmove := p.fullmove), chess960)
  {
    hide BoardText, ReadCastling, CastlingText, OneKing, ReadBoard, SquareText, Itoa, CastlingValid, EpAvailable;
    hide KingSafe, NoPawnsOnEdges, ReadTarget, Atoi, RookRead, PathOf;
    BoardRoundTrip(p.board);
    TargetIsSolid(p.ep);
    ItoaRoundTrip(p.halfmove);
    ItoaRoundTrip(p.fullmove);
    CastlingFieldRoundTrip(p, chess960);
    TargetIsOnBoard(p);
  }

  lemma TargetIsOnBoard(p: Pos)
    requires p.ep.Some? ==> EpAvailable(p.board, p.side, p.ep.value)
    ensures !OffTheBoard(p)
  {
  }

  /** For a valid position in the engine's integer range the text is exact, except that classical notation
      forgets which rook is meant: origins and paths come back if and only if every held right's rook is the
      outermost one on its side, or the notation is Shredder's. */
  lemma ValidRoundTrip(p: Pos, chess960: bool)
    requires Valid(p) && Machine(p.halfmove) && Machine(p.fullmove)
    ensures RooksKnown(p) && Parse(FenOf(p, chess960), chess960).Accepted?
    ensures var q := Parse(FenOf(p, chess960), chess960).pos;
      && Valid(q) && q.(setup := p.setup) == p
      && (forall z :: PosKey(z, q) == PosKey(z, p))
      && (SameOrigins(p, q) <==> chess960 || AllOutermost(p))
  {
    hide RookRead, PathOf, RightAtHome, FenOf, Parse, KingSafe, OneKing, NoPawnsOnEdges, EpAvailable;
    ValidIsWritable(p);
    FenRoundTrip(p, chess960);
    var q := Parse(FenOf(p, chess960), chess960).pos;
    AcceptedFields(FenOf(p, chess960), chess960);
    forall r | r in p.castling ensures r in p.setup.rook && r in p.setup.path && r in q.setup.rook && r in q.setup.path
      ensures q.setup.rook[r] == p.setup.rook[r] <==> chess960 || OutermostRight(p, r)
      ensures q.setup.rook[r] == p.setup.rook[r] ==> q.setup.path[r] == p.setup.path[r]
    {
      HeldAtHome(p, r);
      RookReadIsOutermost(p, r, chess960);
      assert RightReadBack(p, chess960, q, r);
    }
  }

  lemma HeldAtHome(p: Pos, r: Right)
    requires Valid(p) && r in p.castling
    ensures OneKing(p.board, r.color) && RightAtHome(p, r) && r in p.setup.rook && r in p.setup.path
  {
    hide OneKing, KingSafe;
    assert r.color.White? || r.color.Black?;
  }

  ghost predicate SameOrigins(p: Pos, q: Pos) {
    forall r | r in p.castling :: r in p.setup.rook && r in p.setup.path && r in q.setup.rook && r in q.setup.path &&
      q.setup.rook[r] == p.setup.rook[r] && q.setup.path[r] == p.setup.path[r]
  }

  ghost predicate OutermostRight(p: Pos, r: Right) {
    OneKing(p.board, r.color) && r in p.setup.rook &&
      Outermost(p.board, r.color, r.kingSide, KingSquare(p.board, r.color), p.setup.rook[r])
  }

  ghost predicate AllOutermost(p: Pos) { forall r | r in p.castling :: OutermostRight(p, r) }

  lemma RookReadIsOutermost(p: Pos, r: Right, chess960: bool)
    requires OneKing(p.board, r.color) && r in p.castling && RightAtHome(p, r)
    ensures RookRead(p, r, chess960) == p.setup.rook[r] <==> chess960 || OutermostRight(p, r)
    ensures p.setup.path[r] == PathOf(KingSquare(p.board, r.color), p.setup.rook[r], r)
  {
    hide PathOf;
    FindRookHolds(p, r);
    FindRookIsOutermost(p.board, r.color, r.kingSide, KingSquare(p.board, r.color));
  }

  // ---- the two things believed without looking

  /** A negative halfmove clock is accepted, whatever the position. */
  lemma NegativeClockIsAccepted(p: Pos, chess960: bool)
    requires Valid(p) && Machine(p.fullmove)
    ensures var q := p.(halfmove := -1);
      RooksKnown(q) && Parse(FenOf(q, chess960), chess960).Accepted? && !Valid(Parse(FenOf(q, chess960), chess960).pos)
  {
    hide RightAtHome, KingSafe, OneKing, NoPawnsOnEdges, EpAvailable, FenOf, Parse;
    var q := p.(halfmove := -1);
    SameRights(p, q);
    RooksAreKnown(q);
    FenRoundTrip(q, chess960);
  }

  /** White king a1, pawn d3; black king h8, pawn e3; White to move, target e4. */
  function OffRankExample(): Pos {
    EmptyPos().(board := ExampleBoard(), ep := Some(28))
  }

  function ExampleBoard(): Board {
    map[0 := Piece(White, King), 63 := Piece(Black, King), 19 := Piece(White, Pawn), 20 := Piece(Black, Pawn)]
  }

  lemma ExampleMen()
    ensures var b := ExampleBoard();
      && b.Keys == {0, 63, 19, 20}
      && b[0] == Piece(White, King) && b[63] == Piece(Black, King) && b[19] == Piece(White, Pawn) &&
        b[20] == Piece(Black, Pawn)
  {
  }

  /** An en passant target on the fourth rank is accepted and kept if a capture onto it would be legal. */
  lemma OffRankTargetIsAccepted()
    ensures var p := OffRankExample();
      Parse(FenOf(p, false), false).Accepted? && Parse(FenOf(p, false), false).pos.ep == Some(28) &&
        !Valid(Parse(FenOf(p, false), false).pos)
  {
    hide FenOf, Parse;
    var p := OffRankExample();
    ExampleIsWritable();
    FenRoundTrip(p, false);
  }

  lemma ExampleIsWritable()
    ensures Writable(OffRankExample())
  {
    hide EpAvailable, KingSafe, OneKing;
    ExampleKings();
    ExampleIsSafe();
    ExampleTarget();
  }

  lemma ExampleKings()
    ensures OneKing(OffRankExample().board, White) && OneKing(OffRankExample().board, Black)
  {
    hide ExampleBoard;
    ExampleMen();
    OnlyOne(ExampleBoard(), White, 0);
    OnlyOne(ExampleBoard(), Black, 63);
  }

  lemma OnlyOne(b: Board, c: Color, k: Square)
    requires IsKing(b, c, k) && forall j | j in b && j != k :: b[j] != Piece(c, King)
    ensures OneKing(b, c)
  {
  }

  lemma ExampleIsSafe()
    ensures KingSafe(OffRankExample().board, Black)
  {
    hide Clear;
    var b := OffRankExample().board;
    forall e | e in b && b[e].color == White ensures !Attacks(b[e], e, 63, b.Keys) {
      assert e == 0 || e == 19;
    }
  }

  lemma ExampleTarget()
    ensures EpAvailable(OffRankExample().board, White, 28)
  {
    hide KingSafe, ExampleBoard, BoardAfter;
    ExampleMen();
    ExampleStep();
    ExampleCaptureIsSafe();
    assert EpCapture(ExampleBoard(), White, 19, 28);
  }

  lemma ExampleStep()
    ensures Before(White, 28) == 20 && PawnStep(White, 19, 28)
  {
  }

  lemma ExampleCaptureIsSafe()
    ensures KingSafe(BoardAfter(OffRankExample().board, White, EnPassant(19, 28)), White)
  {
    hide ExampleBoard, ExampleReached, KingSafe;
    ExampleCapture();
    ReachedIsSafe();
  }

  function ExampleReached(): Board {
    map[0 := Piece(White, King), 63 := Piece(Black, King), 28 := Piece(White, Pawn)]
  }

  lemma ExampleCapture()
    ensures BoardAfter(ExampleBoard(), White, EnPassant(19, 28)) == ExampleReached()
  {
    hide Before;
    ExampleStep();
  }

  lemma ReachedIsSafe()
    ensures KingSafe(ExampleReached(), White)
  {
    hide Clear, KingStep, ExampleReached;
    ReachedMen();
    FarKings();
    assert Attackers(ExampleReached(), 0, Black, ExampleReached().Keys) == {};
  }

  lemma ReachedMen()
    ensures var b := ExampleReached();
      && b.Keys == {0, 63, 28}
      && b[0] == Piece(White, King) && b[63] == Piece(Black, King) && b[28] == Piece(White, Pawn)
  {
  }

  lemma FarKings()
    ensures !KingStep(63, 0)
  {
  }
}
