/** Repetition and the fifty-move clock (rules.go): looking back no further than the last capture or pawn
    move finds every earlier occurrence of the position in the whole game. */
module Repetition {
  import opened Squares
  import opened Rules
  import opened PositionState
  import opened BoardSums
  import opened Zobrist

  // ---- progress that is never undone

  /** Men are worth eight; a pawn is worth the ranks it still has to go on top of that. */
  function Reserve(pc: Piece, s: Square): int {
    if !pc.kind.Pawn? then 8 else if pc.color.White? then 15 - Rank(s) else 8 + Rank(s)
  }

  function Reserves(b: Board): int { Total(Reserve, b) }

  /** Captures and pawn moves use up reserves for good; nothing ever adds to them. */
  lemma MovesUseReserves(p: Pos, m: Move)
    requires Valid(p) && Legal(p, m)
    ensures Reserves(BoardAfter(p.board, p.side, m)) <= Reserves(p.board)
    ensures IsCapture(p.board, m) || IsPawnMove(p.board, m) ==>
      Reserves(BoardAfter(p.board, p.side, m)) < Reserves(p.board)
  {
    hide Valid, KingSafe;
    LegalIsLiftable(p, m);
    TotalAfter(Reserve, p.board, p.side, m);
    ChangeInReserves(p, m);
  }

  lemma ChangeInReserves(p: Pos, m: Move)
    requires Liftable(p.board, p.side, m) && PseudoLegal(p, m)
    ensures Change(Reserve, p.board, p.side, m) <= 0
    ensures IsCapture(p.board, m) || IsPawnMove(p.board, m) ==> Change(Reserve, p.board, p.side, m) < 0
  {
    match m
    case Normal(from, to) => if p.board[from].kind.Pawn? { PawnMovesForward(p, m); }
    case Promotion(from, to, promo) => PawnMovesForward(p, m);
    case EnPassant(from, to) => PawnMovesForward(p, m);
    case Castling(from, to) =>
  }

  lemma PawnMovesForward(p: Pos, m: Move)
    requires PseudoLegal(p, m) && p.board[m.from].kind.Pawn? && p.board[m.from].color == p.side
    ensures DR(m.from, m.to) == Forward(p.side) || DR(m.from, m.to) == 2 * Forward(p.side)
  {
  }

  // ---- the game so far

  /** Two positions are the same for the repetition rule (article 9.2). */
  predicate Same(p: Pos, q: Pos) {
    p.board == q.board && p.side == q.side && p.castling == q.castling && p.ep == q.ep
  }

  predicate NullFree(past: seq<Entry>) { forall i | 0 <= i < |past| :: past[i].move.Some? }

  /** Equal keys mean equal positions, as far as the current position goes. */
  predicate CollisionFree(z: Tables, past: seq<Entry>, now: Pos) {
    forall i | 0 <= i < |past| :: PosKey(z, past[i].pos) == PosKey(z, now) ==> Same(past[i].pos, now)
  }

  /** How many of the positions past[from..] are the same as now. */
  function Occurrences(past: seq<Entry>, now: Pos, from: nat): nat
    requires from <= |past|
    decreases |past| - from
  {
    if from == |past| then 0 else (if Same(past[from].pos, now) then 1 else 0) + Occurrences(past, now, from + 1)
  }

  /** The last entry of a null-free game, taken apart. */
  lemma LastMove(z: Tables, history: seq<Undo>, past: seq<Entry>, now: Pos)
    requires RecordOf(z, history, past, now) && NullFree(past) && past != []
    ensures |history| == |past|
    ensures var n := |past| - 1;
      var last := past[n].pos;
      var m := past[n].move.value;
      && past[n].move.Some? && Valid(last) && Legal(last, m) && m.from in last.board
      && now.board == BoardAfter(last.board, last.side, m)
      && now.halfmove == (if IsCapture(last.board, m) || IsPawnMove(last.board, m) then 0 else last.halfmove + 1)
      && RecordOf(z, history[..n], past[..n], last) && NullFree(past[..n])
  {
    hide Valid, KingSafe;
  }

  lemma ClockCounts(p: Pos)
    requires Valid(p)
    ensures p.halfmove >= 0
  {
  }

  /** Reserves only fall along a game, and beyond the clock they have fallen for good. */
  lemma {:induction false} ReservesFall(z: Tables, history: seq<Undo>, past: seq<Entry>, now: Pos, i: nat)
    requires RecordOf(z, history, past, now) && NullFree(past)
    requires i < |past|
    ensures Reserves(now.board) <= Reserves(past[i].pos.board)
    ensures |past| - i > now.halfmove ==> Reserves(now.board) < Reserves(past[i].pos.board)
    decreases |past|
  {
    hide RecordOf, NullFree, Valid, Legal, BoardAfter, Reserves;
    LastMove(z, history, past, now);
    var n := |past| - 1;
    var last := past[n];
    MovesUseReserves(last.pos, last.move.value);
    ClockCounts(last.pos);
    if i < n {
      ReservesFall(z, history[..n], past[..n], last.pos, i);
    }
  }

  /** The sides alternate, so only every second position can be a repetition. */
  lemma {:induction false} SidesAlternate(z: Tables, history: seq<Undo>, past: seq<Entry>, now: Pos, i: nat)
    requires RecordOf(z, history, past, now) && i < |past|
    ensures past[i].pos.side == now.side <==> (|past| - i) % 2 == 0
    decreases |past|
  {
    hide RecordOf;
    var n := |past| - 1;
    LastSideChanges(z, history, past, now);
    if i < n {
      SidesAlternate(z, history[..n], past[..n], past[n].pos, i);
    }
  }

  lemma LastSideChanges(z: Tables, history: seq<Undo>, past: seq<Entry>, now: Pos)
    requires RecordOf(z, history, past, now) && past != []
    ensures var n := |past| - 1;
      |history| == |past| && now.side == past[n].pos.side.Opposite() &&
        RecordOf(z, history[..n], past[..n], past[n].pos)
  {
    hide Valid, Legal, KingSafe, UndoOf, EpAfter, BoardAfter;
  }

  lemma {:induction false} KeysAreRecorded(z: Tables, history: seq<Undo>, past: seq<Entry>, now: Pos, i: nat)
    requires RecordOf(z, history, past, now) && i < |past|
    ensures i < |history| && history[i].key == PosKey(z, past[i].pos)
    decreases |past|
  {
    hide Valid, Legal, KingSafe, PosKey;
    var n := |past| - 1;
    if i < n {
      KeysAreRecorded(z, history[..n], past[..n], past[n].pos, i);
    }
  }

  /** The scan of RepetitionCount: every second key back from i, down to end. */
  function Scan(history: seq<Undo>, key: Word, i: int, end: int): nat
    requires i < |history| && end >= 0
    decreases i
  {
    if i < end then 0 else (if history[i].key == key then 1 else 0) + Scan(history, key, i - 2, end)
  }

  function ScanEnd(history: seq<Undo>, halfmove: int): nat {
    if |history| - halfmove < 0 then 0 else |history| - halfmove
  }

  /** Nothing before `from` repeats the position. */
  lemma {:induction false} NoneBefore(past: seq<Entry>, now: Pos, from: nat, to: nat)
    requires from <= to <= |past|
    requires forall i | from <= i < to :: !Same(past[i].pos, now)
    ensures Occurrences(past, now, from) == Occurrences(past, now, to)
    decreases |past| - from
  {
    if from < to {
      NoneBefore(past, now, from + 1, to);
    }
  }

  /** The scan from i counts the occurrences at or below i. */
  lemma {:induction false} ScanCounts(z: Tables, history: seq<Undo>, past: seq<Entry>, now: Pos, i: int, end: nat)
    requires RecordOf(z, history, past, now) && CollisionFree(z, past, now)
    requires i < |past| && end <= |past| && (|past| - i) % 2 == 0
    ensures Scan(history, PosKey(z, now), i, end) ==
      (if i < end then 0 else Occurrences(past, now, end) - Occurrences(past, now, i + 1))
    decreases i
  {
    hide RecordOf, Valid, KeyOf;
    RecordLengths(z, history, past, now);
    if i >= end {
      ScanCounts(z, history, past, now, i - 2, end);
      KeysAreRecorded(z, history, past, now, i);
      SidesAlternate(z, history, past, now, i);
      if i > 0 { SidesAlternate(z, history, past, now, i - 1); }
      assert Occurrences(past, now, i) == (if Same(past[i].pos, now) then 1 else 0) + Occurrences(past, now, i + 1);
      if i - 1 >= end {
        NoneBefore(past, now, i - 1, i);
      }
    }
  }

  lemma RecordLengths(z: Tables, history: seq<Undo>, past: seq<Entry>, now: Pos)
    requires RecordOf(z, history, past, now)
    ensures |history| == |past|
  {
  }

  lemma SoundFacts(z: Tables, history: seq<Undo>, past: seq<Entry>, now: Pos)
    requires Sound(z, history, past, now)
    ensures RecordOf(z, history, past, now) && Valid(now) && now.halfmove >= 0 && |history| == |past|
  {
  }

  /** The window misses nothing: in a game without null moves and without key collisions, the scan back to
      the last irreversible move counts every earlier occurrence of the position in the whole game. */
  lemma WindowIsWholeGame(z: Tables, history: seq<Undo>, past: seq<Entry>, now: Pos)
    requires Sound(z, history, past, now) && NullFree(past) && CollisionFree(z, past, now)
    ensures Scan(history, PosKey(z, now), |history| - 2, ScanEnd(history, now.halfmove)) == Occurrences(past, now, 0)
  {
    hide Sound, RecordOf, Valid, PosKey, CollisionFree, NullFree, Reserves;
    SoundFacts(z, history, past, now);
    var end := ScanEnd(history, now.halfmove);
    forall i | 0 <= i < end ensures !Same(past[i].pos, now) {
      ReservesFall(z, history, past, now, i);
    }
    NoneBefore(past, now, 0, end);
    ScanCounts(z, history, past, now, |past| - 2, end);
    if |past| > 0 && end <= |past| - 1 {
      SidesAlternate(z, history, past, now, |past| - 1);
      NoneBefore(past, now, |past| - 1, |past|);
    }
  }
}
