/** The starting position (NewPosition, position.go): its standard text is accepted, so that the parser's panic there
    is never reached, and means what it should. */
module StartPosition {
  import opened Squares
  import opened Rules
  import opened UnitNames
  import opened FenText
  import opened Fen
  import opened PositionState
  import opened Preservation

  /** Ranks from the eighth down, with strokes between them. */
  function Lines(ranks: seq<string>): string
    requires ranks != []
  {
    ranks[0] + if |ranks| > 1 then "/" + Lines(ranks[1..]) else ""
  }

  const RANKS: seq<string> := ["rnbqkbnr", "pppppppp", "8", "8", "8", "8", "PPPPPPPP", "RNBQKBNR"]

  const OFFICERS: seq<Kind> := [Rook, Knight, Bishop, Queen, King, Bishop, Knight, Rook]

  function StartMan(s: Square): Piece {
    Piece(if Rank(s) < 4 then White else Black, if Rank(s) == 1 || Rank(s) == 6 then Pawn else OFFICERS[File(s)])
  }

  function StartBoard(): Board { map s: Square | !(2 <= Rank(s) <= 5) :: StartMan(s) }

  lemma OnStart(s: Square)
    ensures s in StartBoard() <==> !(2 <= Rank(s) <= 5)
    ensures s in StartBoard() ==> StartBoard()[s] == StartMan(s)
  {
  }

  // ---- the placement

  lemma {:induction false} RankOfMen(b: Board, rank: nat, text: string, file: nat)
    requires rank < 8 && file <= 8 && |text| == 8
    requires forall f | 0 <= f < 8 :: MakeSquare(f, rank) in b && PieceChar(b[MakeSquare(f, rank)]) == text[f]
    ensures RankText(b, rank, file, 0) == text[file..]
    decreases 8 - file
  {
    hide PieceChar;
    if file < 8 {
      RankOfMen(b, rank, text, file + 1);
      assert text[file..] == [text[file]] + text[file + 1..];
    }
  }

  lemma {:induction false} RankOfNone(b: Board, rank: nat, file: nat)
    requires rank < 8 && file <= 8 && forall f | 0 <= f < 8 :: MakeSquare(f, rank) !in b
    ensures RankText(b, rank, file, file) == "8"
    decreases 8 - file
  {
    if file < 8 {
      RankOfNone(b, rank, file + 1);
    }
  }

  lemma RankOfLetters(rank: nat, text: string)
    requires rank < 8 && !(2 <= rank <= 5) && |text| == 8
    requires forall f | 0 <= f < 8 :: PieceChar(StartMan(MakeSquare(f, rank))) == text[f]
    ensures RankText(StartBoard(), rank, 0, 0) == text
  {
    hide StartBoard, RankText, PieceChar, StartMan;
    forall f | 0 <= f < 8
      ensures var s := MakeSquare(f, rank); s in StartBoard() && PieceChar(StartBoard()[s]) == text[f]
    {
      OnStart(MakeSquare(f, rank));
    }
    RankOfMen(StartBoard(), rank, text, 0);
    assert text[0..] == text;
  }

  lemma RankOfGaps(rank: nat)
    requires 2 <= rank <= 5
    ensures RankText(StartBoard(), rank, 0, 0) == "8"
  {
    hide StartBoard, RankText;
    forall f | 0 <= f < 8 ensures MakeSquare(f, rank) !in StartBoard() {
      OnStart(MakeSquare(f, rank));
    }
    RankOfNone(StartBoard(), rank, 0);
  }

  lemma OfficersAtHome(f: int)
    requires 0 <= f < 8
    ensures StartMan(MakeSquare(f, 7)) == Piece(Black, OFFICERS[f]) &&
      StartMan(MakeSquare(f, 0)) == Piece(White, OFFICERS[f])
  {
    hide File, Rank;
  }

  lemma OfficerLetters(f: int)
    requires 0 <= f < 8
    ensures PieceChar(StartMan(MakeSquare(f, 7))) == "rnbqkbnr"[f] &&
      PieceChar(StartMan(MakeSquare(f, 0))) == "RNBQKBNR"[f]
  {
    hide PieceChar, StartMan, MakeSquare;
    LettersOf();
    OfficersAtHome(f);
  }

  lemma PawnLetters(f: int)
    requires 0 <= f < 8
    ensures PieceChar(StartMan(MakeSquare(f, 6))) == "pppppppp"[f] &&
      PieceChar(StartMan(MakeSquare(f, 1))) == "PPPPPPPP"[f]
  {
    hide PieceChar;
    LettersOf();
  }

  /** The letters of the PGN standard, section 16.1.3.1. */
  lemma LettersOf()
    ensures PieceChar(Piece(White, Pawn)) == 'P' && PieceChar(Piece(Black, Pawn)) == 'p'
    ensures PieceChar(Piece(White, Knight)) == 'N' && PieceChar(Piece(Black, Knight)) == 'n'
    ensures PieceChar(Piece(White, Bishop)) == 'B' && PieceChar(Piece(Black, Bishop)) == 'b'
    ensures PieceChar(Piece(White, Rook)) == 'R' && PieceChar(Piece(Black, Rook)) == 'r'
    ensures PieceChar(Piece(White, Queen)) == 'Q' && PieceChar(Piece(Black, Queen)) == 'q'
    ensures PieceChar(Piece(White, King)) == 'K' && PieceChar(Piece(Black, King)) == 'k'
  {
  }

  lemma RankReads(i: nat)
    requires i < 8
    ensures RANKS[i] == RankText(StartBoard(), 7 - i, 0, 0)
  {
    hide StartBoard, RankText, PieceChar, StartMan, MakeSquare;
    if 2 <= i <= 5 {
      RankOfGaps(7 - i);
    } else {
      forall f | 0 <= f < 8 ensures PieceChar(StartMan(MakeSquare(f, 7 - i))) == RANKS[i][f] {
        if i == 0 || i == 7 { OfficerLetters(f); } else { PawnLetters(f); }
      }
      RankOfLetters(7 - i, RANKS[i]);
    }
  }

  lemma StartText()
    ensures BoardText(StartBoard(), 7) == Lines(RANKS)
  {
    hide StartBoard, RankText, BoardText, Lines;
    forall i | 0 <= i <= 7 ensures RANKS[i] == RankText(StartBoard(), 7 - i, 0, 0) {
      RankReads(i);
    }
    TopToBottom(StartBoard(), 7, RANKS);
  }

  lemma {:induction false} TopToBottom(b: Board, rank: nat, ranks: seq<string>)
    requires rank < 8 && |ranks| == rank + 1 && forall i | 0 <= i <= rank :: ranks[i] == RankText(b, rank - i, 0, 0)
    ensures BoardText(b, rank) == Lines(ranks)
  {
    hide RankText;
    if rank > 0 {
      TopToBottom(b, rank - 1, ranks[1..]);
    }
  }

  // ---- the position

  function Corner(r: Right): Square { MakeSquare(if r.kingSide then 7 else 0, HomeRank(r.color)) }

  function KingHome(c: Color): Square { MakeSquare(4, HomeRank(c)) }

  function StartSetup(): Setup {
    Setup(map r | r in AllRights() :: Corner(r), map r | r in AllRights() :: PathOf(KingHome(r.color), Corner(r), r),
      map s: Square | File(s) >= 0 :: set r | r in AllRights() && s != Corner(r) && s != KingHome(r.color))
  }

  function StartPos(): Pos { Pos(StartBoard(), White, AllRights(), None, 0, 1, StartSetup()) }

  lemma StartKing(c: Color, k: Square)
    ensures IsKing(StartBoard(), c, k) <==> k == KingHome(c)
  {
    hide StartBoard, MakeSquare;
    OnStart(k);
    assert k == KingHome(c) <==> File(k) == 4 && Rank(k) == HomeRank(c) by { SameCoordinates(k, KingHome(c)); }
  }

  lemma SameCoordinates(a: Square, b: Square)
    ensures a == b <==> File(a) == File(b) && Rank(a) == Rank(b)
  {
  }

  lemma StartKings()
    ensures forall c: Color :: OneKing(StartBoard(), c) && KingSquare(StartBoard(), c) == KingHome(c)
  {
    hide StartBoard, KingHome;
    forall c: Color ensures OneKing(StartBoard(), c) && KingSquare(StartBoard(), c) == KingHome(c) {
      forall k ensures IsKing(StartBoard(), c, k) <==> k == KingHome(c) {
        StartKing(c, k);
      }
      assert IsKing(StartBoard(), c, KingHome(c));
    }
  }

  /** No man is even lined up with the other side's king. */
  lemma StartIsSafe()
    ensures KingSafe(StartBoard(), Black)
  {
    hide StartBoard, Clear;
    forall k, e | IsKing(StartBoard(), Black, k) && e in StartBoard() && StartBoard()[e].color == White
      ensures !Attacks(StartBoard()[e], e, k, StartBoard().Keys)
    {
      StartKing(Black, k);
      OnStart(e);
      FarFromBlackKing(e);
    }
  }

  lemma FarFromBlackKing(e: Square)
    requires Rank(e) <= 1
    ensures var pc := StartMan(e); forall occ :: !Attacks(pc, e, KingHome(Black), occ)
  {
    hide Clear;
    assert File(KingHome(Black)) == 4 && Rank(KingHome(Black)) == 7;
  }

  lemma StartRight(r: Right)
    ensures RightAtHome(StartPos(), r) && OutermostRight(StartPos(), r)
  {
    hide StartBoard, PathOf, OneKing, RightAtHome, StartSetup, KingHome, Corner;
    StartKings();
    OnStart(Corner(r));
    forall k ensures IsKing(StartBoard(), r.color, k) <==> k == KingHome(r.color) {
      StartKing(r.color, k);
    }
    CornerIsOutside(r);
    CornerTables(r);
    StartAtHome(r);
  }

  lemma CornerTables(r: Right)
    ensures var t := StartSetup();
      && r in t.rook && r in t.path && Corner(r) in t.mask && KingHome(r.color) in t.mask
      && t.rook[r] == Corner(r) && t.path[r] == PathOf(KingHome(r.color), Corner(r), r)
      && r !in t.mask[Corner(r)] && r !in t.mask[KingHome(r.color)]
  {
    hide PathOf, Corner, KingHome;
    EveryRight();
  }

  lemma StartAtHome(r: Right)
    requires Has(StartBoard(), Corner(r), Piece(r.color, Rook))
    requires forall k :: IsKing(StartBoard(), r.color, k) <==> k == KingHome(r.color)
    ensures RightAtHome(StartPos(), r)
  {
    hide StartBoard, PathOf, StartSetup, Corner, KingHome, IsKing, Has, EmptyPos;
    CornerIsOutside(r);
    CornerTables(r);
  }

  lemma CornerIsOutside(r: Right)
    ensures r.kingSide <==> Corner(r) > KingHome(r.color)
    ensures StartMan(Corner(r)) == Piece(r.color, Rook)
    ensures Rank(Corner(r)) == Rank(KingHome(r.color)) == HomeRank(r.color) && !(2 <= Rank(Corner(r)) <= 5)
    ensures File(Corner(r)) == (if r.kingSide then 7 else 0) && File(KingHome(r.color)) == 4
  {
    hide File, Rank, StartMan;
    OfficersAtHome(if r.kingSide then 7 else 0);
    RooksInCorners();
  }

  lemma RooksInCorners()
    ensures OFFICERS[0] == Rook && OFFICERS[7] == Rook
  {
  }

  lemma StartIsValid()
    ensures Valid(StartPos()) && AllOutermost(StartPos())
  {
    hide StartBoard, OneKing, KingSafe, RightAtHome, OutermostRight, NoPawnsOnEdges, StartSetup;
    StartKings();
    StartIsSafe();
    StartPawns();
    forall r: Right ensures RightAtHome(StartPos(), r) && OutermostRight(StartPos(), r) {
      StartRight(r);
    }
    StartMask();
  }

  lemma StartPawns()
    ensures NoPawnsOnEdges(StartBoard())
  {
    hide StartBoard;
    forall s | s in StartBoard() && StartBoard()[s].kind.Pawn? ensures 1 <= Rank(s) <= 6 {
      OnStart(s);
      assert forall k | k in OFFICERS :: !k.Pawn?;
      assert OFFICERS[File(s)] in OFFICERS;
    }
  }

  lemma StartMask()
    ensures forall s: Square :: s in StartSetup().mask
  {
  }

  lemma StartFields()
    ensures RooksKnown(StartPos()) && FenOf(StartPos(), false) == Lines(RANKS) + " w KQkq - 0 1"
  {
    hide StartBoard, BoardText, Lines, StartSetup, CastlingText;
    StartText();
    StartRightsText();
    StartNumbers();
    OneString(Lines(RANKS), "KQkq", "0", "1");
  }

  lemma StartNumbers()
    ensures Itoa(0) == "0" && Itoa(1) == "1"
  {
  }

  lemma OneString(a: string, rights: string, half: string, full: string)
    ensures a + " " + "w" + " " + rights + " " + "-" + " " + half + " " + full ==
      a + (" w " + rights + " - " + half + " " + full)
    ensures " w " + "KQkq" + " - " + "0" + " " + "1" == " w KQkq - 0 1"
  {
  }

  lemma StartRightsText()
    ensures RooksKnown(StartPos()) && CastlingText(StartPos(), false) == "KQkq"
  {
    hide StartBoard, CastlingFrom, PathOf;
    EveryRight();
    AllRightsText(StartPos());
  }

  lemma RightsInOrder()
    ensures RIGHTS[0] == Right(White, true) && RIGHTS[1] == Right(White, false)
    ensures RIGHTS[2] == Right(Black, true) && RIGHTS[3] == Right(Black, false)
    ensures "KQkq"[0] == 'K' && "KQkq"[1] == 'Q' && "KQkq"[2] == 'k' && "KQkq"[3] == 'q'
  {
  }

  lemma AllRightsText(p: Pos)
    requires RooksKnown(p) && forall r: Right :: r in p.castling
    ensures CastlingFrom(p, 0, false) == "KQkq"
  {
    hide CastlingFrom, RooksKnown;
    RightsInOrder();
    NoMoreRights(p);
    OneMoreRight(p, 3, 'q', "");
    OneMoreRight(p, 2, 'k', "q");
    OneMoreRight(p, 1, 'Q', "kq");
    OneMoreRight(p, 0, 'K', "Qkq");
  }

  lemma NoMoreRights(p: Pos)
    requires RooksKnown(p)
    ensures CastlingFrom(p, 4, false) == ""
  {
    hide RooksKnown;
  }

  lemma OneMoreRight(p: Pos, i: nat, ch: char, rest: string)
    requires i < 4 && RooksKnown(p) && "KQkq"[i] == ch && RIGHTS[i] in p.castling
    requires CastlingFrom(p, i + 1, false) == rest
    ensures CastlingFrom(p, i, false) == [ch] + rest
  {
  }

  /** The text of the starting position is accepted and means the usual array, White to move, every right with its
      corner rook, no target and a fresh clock: a valid position. */
  lemma NewPositionIsTheStart()
    ensures var r := Parse(Lines(RANKS) + " w KQkq - 0 1", false);
      && r.Accepted? && !r.chess960 && Valid(r.pos)
      && (forall s: Square :: s in r.pos.board <==> !(2 <= Rank(s) <= 5))
      && (forall s: Square | s in r.pos.board :: r.pos.board[s] == StartMan(s))
      && r.pos.side == White && r.pos.castling == AllRights() && r.pos.ep == None
      && r.pos.halfmove == 0 && r.pos.fullmove == 1
      && forall right: Right :: right in r.pos.setup.rook && r.pos.setup.rook[right] == Corner(right)
  {
    hide StartBoard, Parse, Valid, FenOf, AllOutermost, AllRights, OneKing, PathOf;
    StartIsValid();
    StartFields();
    StartReadBack();
    forall s: Square
      ensures s in StartBoard() <==> !(2 <= Rank(s) <= 5)
      ensures s in StartBoard() ==> StartBoard()[s] == StartMan(s)
    {
      OnStart(s);
    }
    EveryRight();
  }

  lemma EveryRight()
    ensures forall r: Right :: r in AllRights()
  {
    forall r: Right ensures r in AllRights() { assert r.color.White? || r.color.Black?; }
  }

  lemma StartReadBack()
    requires RooksKnown(StartPos())
    ensures var r := Parse(FenOf(StartPos(), false), false);
      r.Accepted? && !r.chess960 && Valid(r.pos) && r.pos.(setup := StartSetup()) == StartPos() &&
        SameOrigins(StartPos(), r.pos)
  {
    hide StartBoard, Parse, FenOf, AllOutermost, AllRights, OneKing, StartSetup, Valid, SameOrigins, Writable;
    StartIsValid();
    ValidRoundTrip(StartPos(), false);
    ValidIsWritable(StartPos());
    FenRoundTrip(StartPos(), false);
  }
}
