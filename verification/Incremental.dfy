/** IncrementalEvaluator (incremental.go): a stack of accumulators that walks in step with make and unmake,
    and falls back to a full refresh once the stack has run out of room. */
module Incremental {
  import opened Squares
  import opened Rules
  import opened PositionState
  import opened Network

  /** Slots 0 to sp hold the accumulators of the first boards. */
  ghost predicate Holds(n: Net, boards: seq<Board>, stack: seq<Accumulator>, sp: nat) {
    WellShaped(n) && sp < |stack| && sp < |boards| && forall i | 0 <= i <= sp :: IsFresh(n, boards[i], stack[i])
  }

  lemma SlotAdded(n: Net, boards: seq<Board>, stack: seq<Accumulator>, sp: nat, b: Board, acc: Accumulator)
    requires Holds(n, boards, stack, sp) && |boards| == sp + 1 && sp + 1 < |stack| && IsFresh(n, b, acc)
    ensures Holds(n, boards + [b], stack[sp + 1 := acc], sp + 1)
  {
  }

  lemma DeeperBoard(n: Net, boards: seq<Board>, stack: seq<Accumulator>, sp: nat, b: Board)
    requires Holds(n, boards, stack, sp)
    ensures Holds(n, boards + [b], stack, sp)
  {
  }

  lemma TopSlot(n: Net, boards: seq<Board>, stack: seq<Accumulator>, sp: nat)
    requires Holds(n, boards, stack, sp)
    ensures sp < |stack| && sp < |boards| && IsFresh(n, boards[sp], stack[sp])
  {
  }

  lemma SlotDropped(n: Net, boards: seq<Board>, stack: seq<Accumulator>, sp: nat, top: nat)
    requires Holds(n, boards, stack, sp) && top <= sp && top < |boards| - 1
    ensures Holds(n, boards[..|boards| - 1], stack, top)
  {
  }

  class IncrementalEvaluator {
    const net: Net
    const cap: nat
    var stack: seq<Accumulator>
    var sp: nat
    var overflowDepth: nat
    var valid: bool
    /** The boards of the plies pushed so far, the current one last; the engine does not keep them. */
    ghost var boards: seq<Board>

    ghost predicate Shaped()
      reads this
    {
      WellShaped(net) && cap >= 1 && |stack| == cap && sp < cap
    }

    /** Every slot holds the accumulator of its ply; plies beyond the last slot are only counted. */
    ghost predicate InStep()
      reads this
    {
      && Shaped() && valid
      && |boards| == sp + overflowDepth + 1
      && (overflowDepth > 0 ==> sp == cap - 1)
      && Holds(net, boards, stack, sp)
    }

    /** In step with a position that has board b. */
    ghost predicate At(b: Board)
      reads this
    {
      InStep() && boards != [] && boards[|boards| - 1] == b
    }

    constructor (net: Net, capacity: nat)
      requires WellShaped(net) && capacity >= 1
      ensures Shaped() && !valid && sp == 0 && overflowDepth == 0 && this.net == net && cap == capacity
    {
      this.net := net;
      this.cap := capacity;
      this.stack := seq(capacity, i => Accumulator(seq(HIDDEN, j => 0), seq(HIDDEN, j => 0)));
      this.sp := 0;
      this.overflowDepth := 0;
      this.valid := false;
      this.boards := [];
    }

    /** Evaluate equals the evaluation from scratch, at any depth; a never primed evaluator primes itself. */
    method Evaluate(p: Position) returns (score: int)
      requires At(p.board) || (Shaped() && !valid && sp == 0 && overflowDepth == 0)
      modifies this`stack, this`valid, this`boards
      ensures At(p.board) && score == Value(net, p.board, p.side)
      ensures old(valid) ==> stack == old(stack) && boards == old(boards)
      ensures -EVAL_LIMIT <= score <= EVAL_LIMIT
    {
      hide IsFresh, Score;
      if !valid {
        var root := Refresh(net, p.board);
        stack := stack[sp := root];
        valid := true;
        boards := [p.board];
      }
      if overflowDepth > 0 {
        var scratch := Refresh(net, p.board);
        FreshIsFreshHalf(net, p.board, scratch);
        score := Network.Evaluate(net, scratch, p.side);
      } else {
        TopSlot(net, boards, stack, sp);
        FreshIsFreshHalf(net, p.board, stack[sp]);
        score := Network.Evaluate(net, stack[sp], p.side);
      }
      ValueInRange(net, p.board, p.side);
    }

    method Reset(p: Position)
      requires Shaped()
      modifies this
      ensures At(p.board) && boards == [p.board] && sp == 0 && overflowDepth == 0
    {
      hide IsFresh;
      sp := 0;
      overflowDepth := 0;
      var root := Refresh(net, p.board);
      stack := stack[0 := root];
      valid := true;
      boards := [p.board];
    }

    /** Push runs before the move is made, while the men it reads are still in place. */
    method Push(p: Position, m: Move)
      requires At(p.board) && Liftable(p.board, p.side, m)
      modifies this`stack, this`sp, this`overflowDepth, this`boards
      ensures InStep() && boards == old(boards) + [AfterMove(p.board, p.side, m)]
    {
      hide IsFresh, BoardAfter, Holds, WellShaped, Liftable;
      ghost var after := AfterMove(p.board, p.side, m);
      if sp >= cap - 1 {
        DeeperBoard(net, boards, stack, sp, after);
        overflowDepth := overflowDepth + 1;
      } else {
        TopSlot(net, boards, stack, sp);
        var acc := Played(net, stack[sp], p.board, p.side, m);
        SlotAdded(net, boards, stack, sp, after, acc);
        assert stack[sp + 1 := stack[sp]][sp + 1 := acc] == stack[sp + 1 := acc];
        stack := stack[sp + 1 := stack[sp]];
        sp := sp + 1;
        stack := stack[sp := acc];
      }
      boards := boards + [after];
    }

    method Pop()
      requires InStep() && |boards| >= 2
      modifies this`sp, this`overflowDepth, this`boards
      ensures InStep() && boards == old(boards)[..|old(boards)| - 1]
    {
      hide IsFresh, Holds, WellShaped;
      SlotDropped(net, boards, stack, sp, if overflowDepth > 0 then sp else sp - 1);
      boards := boards[..|boards| - 1];
      if overflowDepth > 0 {
        overflowDepth := overflowDepth - 1;
        return;
      }
      sp := sp - 1;
    }

    method PushNull()
      requires InStep()
      modifies this`stack, this`sp, this`overflowDepth, this`boards
      ensures InStep() && boards == old(boards) + [old(boards)[|old(boards)| - 1]]
    {
      hide IsFresh, Holds, WellShaped;
      ghost var top := boards[|boards| - 1];
      TopSlot(net, boards, stack, sp);
      if sp >= cap - 1 {
        DeeperBoard(net, boards, stack, sp, top);
        boards := boards + [top];
        overflowDepth := overflowDepth + 1;
        return;
      }
      SlotAdded(net, boards, stack, sp, top, stack[sp]);
      boards := boards + [top];
      stack := stack[sp + 1 := stack[sp]];
      sp := sp + 1;
    }

    method PopNull()
      requires InStep() && |boards| >= 2
      modifies this`sp, this`overflowDepth, this`boards
      ensures InStep() && boards == old(boards)[..|old(boards)| - 1]
    {
      hide IsFresh, Holds, WellShaped;
      SlotDropped(net, boards, stack, sp, if overflowDepth > 0 then sp else sp - 1);
      boards := boards[..|boards| - 1];
      if overflowDepth > 0 {
        overflowDepth := overflowDepth - 1;
        return;
      }
      sp := sp - 1;
    }
  }

  /** The board after a move whose men are in place. */
  ghost function AfterMove(b: Board, us: Color, m: Move): Board
    requires Liftable(b, us, m)
  {
    BoardAfter(b, us, m)
  }

  lemma ValueInRange(n: Net, b: Board, stm: Color)
    requires WellShaped(n)
    ensures -EVAL_LIMIT <= Value(n, b, stm) <= EVAL_LIMIT
  {
  }

  // ---- the deltas of one move

  lemma CastlingSquaresFree(b: Board, us: Color, from: Square, to: Square)
    requires Liftable(b, us, Castling(from, to))
    ensures var r := RightOf(us, Castling(from, to));
      KingTo(r) !in b - {from, to} && RookTo(r) !in b - {from, to} && KingTo(r) != RookTo(r)
  {
  }

  method PlayedCastling(n: Net, acc: Accumulator, b: Board, us: Color, from: Square, to: Square)
      returns (out: Accumulator)
    requires WellShaped(n) && IsFresh(n, b, acc) && Liftable(b, us, Castling(from, to))
    ensures IsFresh(n, BoardAfter(b, us, Castling(from, to)), out)
  {
    hide IsFresh, KingTo, RookTo;
    CastlingSquaresFree(b, us, from, to);
    var king, rook := b[from], b[to];
    var r := Right(us, to > from);
    out := Remove(n, acc, king, from, b);
    out := Remove(n, out, rook, to, b - {from});
    assert b - {from} - {to} == b - {from, to};
    out := Add(n, out, king, KingTo(r), b - {from, to});
    out := Add(n, out, rook, RookTo(r), (b - {from, to})[KingTo(r) := king]);
  }

  method PlayedEnPassant(n: Net, acc: Accumulator, b: Board, us: Color, from: Square, to: Square)
      returns (out: Accumulator)
    requires WellShaped(n) && IsFresh(n, b, acc) && Liftable(b, us, EnPassant(from, to))
    ensures IsFresh(n, BoardAfter(b, us, EnPassant(from, to)), out)
  {
    hide IsFresh;
    var captured := Before(us, to);
    out := Remove(n, acc, Piece(us.Opposite(), Pawn), captured, b);
    out := Relocate(n, out, b[from], from, to, b - {captured});
    assert b - {captured} - {from} == b - {from, captured};
  }

  method PlayedPromotion(n: Net, acc: Accumulator, b: Board, us: Color, from: Square, to: Square, promo: Kind)
      returns (out: Accumulator)
    requires WellShaped(n) && IsFresh(n, b, acc) && Liftable(b, us, Promotion(from, to, promo))
    ensures IsFresh(n, BoardAfter(b, us, Promotion(from, to, promo)), out)
  {
    hide IsFresh;
    out := acc;
    ghost var c := b;
    if to in b {
      out := Remove(n, out, b[to], to, c);
      c := c - {to};
    }
    out := Remove(n, out, b[from], from, c);
    out := Add(n, out, Piece(us, promo), to, c - {from});
    assert (c - {from})[to := Piece(us, promo)] == (b - {from})[to := Piece(us, promo)];
  }

  method PlayedNormal(n: Net, acc: Accumulator, b: Board, us: Color, from: Square, to: Square)
      returns (out: Accumulator)
    requires WellShaped(n) && IsFresh(n, b, acc) && Liftable(b, us, Normal(from, to))
    ensures IsFresh(n, BoardAfter(b, us, Normal(from, to)), out)
  {
    hide IsFresh;
    out := acc;
    ghost var c := b;
    if to in b {
      out := Remove(n, out, b[to], to, c);
      c := c - {to};
    }
    out := Relocate(n, out, b[from], from, to, c);
    assert (c - {from})[to := b[from]] == (b - {from})[to := b[from]];
  }

  /** A few rows turn the accumulator of a position into that of the position after the move. */
  method Played(n: Net, acc: Accumulator, b: Board, us: Color, m: Move) returns (out: Accumulator)
    requires WellShaped(n) && IsFresh(n, b, acc) && Liftable(b, us, m)
    ensures IsFresh(n, BoardAfter(b, us, m), out)
  {
    hide IsFresh, BoardAfter;
    match m {
      case Castling(from, to) => out := PlayedCastling(n, acc, b, us, from, to);
      case EnPassant(from, to) => out := PlayedEnPassant(n, acc, b, us, from, to);
      case Promotion(from, to, promo) => out := PlayedPromotion(n, acc, b, us, from, to, promo);
      case Normal(from, to) => out := PlayedNormal(n, acc, b, us, from, to);
    }
  }
}
