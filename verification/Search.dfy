/** The search (negamax.go, search.go, ordering.go). What is proved is not that the score is a minimax value
    (the pruning is heuristic) but that the search never loses its place: position and accumulators are given
    back exactly on every exit, per-ply slots are written in bounds, scores stay inside the window of
    possible scores, and the principal variation is a line of legal moves. */
module Search {
  import opened Squares
  import opened Rules
  import opened PositionState
  import opened MoveGen
  import opened Generator
  import opened Repetition
  import opened DeadPosition
  import opened GameRules
  import opened Network
  import opened Incremental

  const MAX_PLY := 128
  const INFINITE := 32000
  const MATE_SCORE := 31000
  const MAX_MATE_DEPTH := 256
  const DRAW_SCORE := 0

  predicate IsMateScore(score: int) { Abs(score) > MATE_SCORE - MAX_MATE_DEPTH }

  /** Scores lie strictly inside the widest window. */
  predicate Sane(score: int) { -INFINITE < score < INFINITE }

  predicate Window(alpha: int, beta: int) { -INFINITE <= alpha < beta <= INFINITE }

  function Swapped<T>(s: seq<T>, i: nat, j: nat): seq<T>
    requires i < |s| && j < |s|
  {
    s[i := s[j]][j := s[i]]
  }

  /** pickMove brings a move with the highest remaining score into place i; moves and scores are swapped alike,
      so every move keeps its own score. */
  method PickMove(ml: MoveList, scores: seq<int>, i: nat) returns (m: Move, after: seq<int>, ghost best: nat)
    requires i < |ml.moves| == |scores|
    modifies ml
    ensures i <= best < |scores| && forall j | i <= j < |scores| :: scores[j] <= scores[best]
    ensures m == old(ml.moves)[best]
    ensures ml.moves == Swapped(old(ml.moves), i, best) && after == Swapped(scores, i, best)
    ensures |ml.moves| == |after| == |scores| && multiset(ml.moves) == multiset(old(ml.moves))
  {
    var top := i;
    for j := i + 1 to |ml.moves|
      invariant i <= top < |ml.moves|
      invariant forall k | i <= k < j :: scores[k] <= scores[top]
    {
      if scores[j] > scores[top] {
        top := j;
      }
    }
    after := scores;
    best := top;
    if top != i {
      ml.moves := ml.moves[i := ml.moves[top]][top := ml.moves[i]];
      after := after[i := scores[top]][top := scores[i]];
    }
    m := ml.moves[i];
  }

  /** The entries of a row of the triangular table from column ply up to length spell this line. */
  ghost predicate RowHolds(row: seq<Option<Move>>, length: int, ply: nat, line: seq<Move>) {
    && length == ply + |line| <= |row|
    && forall i | 0 <= i < |line| :: row[ply + i] == Some(line[i])
  }

  ghost predicate RowLegal(row: seq<Option<Move>>, length: int, ply: nat, p: Pos) {
    exists line :: RowHolds(row, length, ply, line) && LegalLine(p, line)
  }

  class State {
    const pos: Position
    const ev: IncrementalEvaluator
    var pv: seq<seq<Option<Move>>>
    var pvLength: seq<int>
    var killers: seq<(Option<Move>, Option<Move>)>
    var nodes: nat
    var selDepth: int
    var aborted: bool

    /** newState: a private copy of the root, and an evaluator primed for it. */
    constructor (root: Position, ev: IncrementalEvaluator)
      requires root.Consistent() && ev.Shaped()
      modifies ev
      ensures Ready() && fresh(pos) && this.ev == ev && pos.Model() == root.Model() && !aborted
      ensures ev.boards == [root.board] && pos.past == root.past && pos.history == root.history
    {
      pos := new Position.Clone(root);
      this.ev := ev;
      pv := seq(MAX_PLY, i => seq(MAX_PLY, j => None));
      pvLength := seq(MAX_PLY, i => 0);
      killers := seq(MAX_PLY, i => (None, None));
      nodes, selDepth, aborted := 0, 0, false;
      new;
      ev.Reset(pos);
    }

    ghost predicate PvTables()
      reads this`pv, this`pvLength
    {
      |pv| == MAX_PLY && |pvLength| == MAX_PLY && forall i | 0 <= i < MAX_PLY :: |pv[i]| == MAX_PLY
    }

    ghost predicate Tables()
      reads this`pv, this`pvLength, this`killers
    {
      PvTables() && |killers| == MAX_PLY
    }

    /** Everything stored for one ply. */
    ghost function Slot(i: nat): (seq<Option<Move>>, int, (Option<Move>, Option<Move>))
      reads this`pv, this`pvLength, this`killers
      requires Tables() && i < MAX_PLY
    {
      (pv[i], pvLength[i], killers[i])
    }

    /** The position is sound and the accumulators stand for it. */
    ghost predicate Ready()
      reads this, pos, ev
    {
      Tables() && pos.Consistent() && ev.At(pos.board)
    }

    /** The line stored from this ply can be played from p. */
    ghost predicate LineLegal(ply: nat, p: Pos)
      reads this`pv, this`pvLength
      requires PvTables() && ply < MAX_PLY
    {
      RowLegal(pv[ply], pvLength[ply], ply, p)
    }

    // ---- stepping

    method Make(m: Move)
      requires Ready() && Legal(pos.Model(), m)
      modifies pos, ev
      ensures Ready()
      ensures pos.Model() == Apply(old(pos.Model()), m)
      ensures pos.history == old(pos.history) + [UndoOf(pos.z, Entry(old(pos.Model()), Some(m)))]
      ensures pos.past == old(pos.past) + [Entry(old(pos.Model()), Some(m))]
      ensures |pos.past| == |pos.history| && pos.history[|pos.history| - 1].move == Some(m)
      ensures ev.boards == old(ev.boards) + [pos.board]
    {
      hide Position.Consistent, IncrementalEvaluator.InStep, Legal, Liftable, BoardAfter;
      RecordMatches(pos);
      MakeFacts(pos, m);
      ev.Push(pos, m);
      pos.MakeMove(m);
    }

    method Unmake()
      requires Ready() && pos.history != [] && pos.history[|pos.history| - 1].move.Some? && |ev.boards| >= 2
      requires |pos.past| == |pos.history| && ev.boards[|ev.boards| - 2] == pos.past[|pos.past| - 1].pos.board
      modifies pos, ev
      ensures Ready()
      ensures pos.Model() == old(pos.past)[|old(pos.past)| - 1].pos
      ensures pos.past == old(pos.past)[..|old(pos.past)| - 1]
      ensures pos.history == old(pos.history)[..|old(pos.history)| - 1]
      ensures ev.boards == old(ev.boards)[..|old(ev.boards)| - 1]
    {
      hide Position.Consistent, Holds;
      pos.UnmakeMove();
      ev.Pop();
    }

    method MakeNull()
      requires Ready() && !InCheck(pos.Model())
      modifies pos, ev
      ensures Ready()
      ensures pos.Model() == PassTurn(old(pos.Model()))
      ensures pos.history == old(pos.history) + [UndoOf(pos.z, Entry(old(pos.Model()), None))]
      ensures pos.past == old(pos.past) + [Entry(old(pos.Model()), None)]
      ensures ev.boards == old(ev.boards) + [pos.board]
    {
      hide ViewsOf, Sound, IsFresh, KingSafe, UndoOf;
      ev.PushNull();
      pos.MakeNullMove();
    }

    method UnmakeNull()
      requires Ready() && pos.history != [] && pos.history[|pos.history| - 1].move.None? && |ev.boards| >= 2
      requires |pos.past| == |pos.history| && ev.boards[|ev.boards| - 2] == pos.past[|pos.past| - 1].pos.board
      modifies pos, ev
      ensures Ready()
      ensures pos.Model() == old(pos.past)[|old(pos.past)| - 1].pos
      ensures pos.past == old(pos.past)[..|old(pos.past)| - 1]
      ensures pos.history == old(pos.history)[..|old(pos.history)| - 1]
      ensures ev.boards == old(ev.boards)[..|old(ev.boards)| - 1]
    {
      hide Position.Consistent, Holds;
      pos.UnmakeNullMove();
      ev.PopNull();
    }

    // ---- the principal variation

    /** updatePV: the move, followed by whatever line the child left. */
    method UpdatePV(m: Move, ply: nat, ghost child: seq<Move>)
      requires Tables() && ply + 1 < MAX_PLY && pvLength[ply + 1] <= MAX_PLY
      modifies this`pv, this`pvLength
      ensures Tables() && pv[ply][ply] == Some(m)
      ensures pvLength[ply] == Max(ply + 1, old(pvLength[ply + 1]))
      ensures RowHolds(old(pv[ply + 1]), old(pvLength[ply + 1]), ply + 1, child) ==>
        RowHolds(pv[ply], pvLength[ply], ply, [m] + child)
      ensures forall i | 0 <= i < MAX_PLY && i != ply :: pv[i] == old(pv[i]) && pvLength[i] == old(pvLength[i])
    {
      pv := pv[ply := pv[ply][ply := Some(m)]];
      var next := ply + 1;
      while next < pvLength[ply + 1]
        invariant Tables() && pvLength == old(pvLength) && pv[ply][ply] == Some(m)
        invariant ply + 1 <= next <= Max(ply + 1, pvLength[ply + 1])
        invariant forall j | ply + 1 <= j < next :: pv[ply][j] == pv[ply + 1][j]
        invariant forall i | 0 <= i < MAX_PLY && i != ply :: pv[i] == old(pv[i])
      {
        pv := pv[ply := pv[ply][next := pv[ply + 1][next]]];
        next := next + 1;
      }
      pvLength := pvLength[ply := pvLength[ply + 1]];
      if pvLength[ply] <= ply {
        pvLength := pvLength[ply := ply + 1];
      }
      ghost var line := [m] + child;
      if RowHolds(old(pv[ply + 1]), old(pvLength[ply + 1]), ply + 1, child) {
        forall i | 0 <= i < |line| ensures pv[ply][ply + i] == Some(line[i]) {
          if i > 0 { assert pv[ply][ply + i] == pv[ply + 1][ply + i]; }
        }
      }
    }

    method RecordKiller(m: Move, ply: nat)
      requires Tables() && ply < MAX_PLY
      modifies this`killers
      ensures Tables() && forall i: nat | i < MAX_PLY && i != ply :: Slot(i) == old(Slot(i))
    {
      if killers[ply].0 == Some(m) { return; }
      killers := killers[ply := (Some(m), killers[ply].0)];
    }

    /** The clock, the node budget and the stop flag are outside the model: at a sampled node the search
        may be told to abort, and it stays aborted. */
    method CheckStop()
      modifies this`aborted
      ensures old(aborted) ==> aborted
    {
      if nodes % 2048 != 0 { return; }
      var stopping: bool := *;
      if stopping {
        aborted := true;
      }
    }

    /** The table is shared with other threads, so a probe may return anything a store could have left there. */
    method Probe() returns (score: int, usable: bool)
      ensures Sane(score)
    {
      score :| Sane(score);
      usable := *;
    }

    /** Ordering scores only decide the order in which moves are tried. */
    method ScoreMoves(count: nat) returns (scores: seq<int>)
      ensures |scores| == count
    {
      scores := seq(count, i => 0);
      for i := 0 to count
        invariant |scores| == count
      {
        var s: int := *;
        scores := scores[i := s];
      }
    }

    // ---- quiescence

    /** A repetition, the fifty-move clock or a dead position ends the line. */
    ghost predicate RuleDraws()
      reads pos
    {
      || Scan(pos.history, pos.key, |pos.history| - 2, ScanEnd(pos.history, pos.halfmove)) >= 1
      || pos.halfmove >= FIFTY_MOVE_PLIES || InsufficientMaterial(pos.board) || BlockedDead(pos.Model())
    }

    method DrawnByRule() returns (drawn: bool)
      requires pos.Consistent()
      ensures drawn <==> RuleDraws()
    {
      hide ViewsOf, Sound, BlockedDead, InsufficientMaterial, NoPawnsOnEdges, OneKing;
      ConsistentFacts(pos);
      KingsFacts(pos);
      var repetitions := RepetitionCount(pos);
      var insufficient := IsInsufficientMaterial(pos);
      var blocked := IsBlockedDeadPosition(pos);
      return repetitions >= 1 || pos.halfmove >= FIFTY_MOVE_PLIES || insufficient || blocked;
    }

    method Check() returns (inCheck: bool)
      requires pos.Consistent()
      ensures inCheck <==> InCheck(pos.Model())
    {
      hide ViewsOf, Sound, KingSafe, Position.AttackersTo, OneKing;
      ConsistentFacts(pos);
      CheckTest(pos);
      inCheck := pos.AttackersTo(pos.KingSquareOf(pos.side), pos.Occupied()) * pos.byColor[pos.side.Opposite()] != {};
    }

    /** The rest of the move loop may not look at a move without trying it (delta pruning). */
    method Prunes() returns (skip: bool)
    {
      skip := *;
    }

    /** In step, the evaluator reads its stack and changes nothing: the static score of this node is the
        network's value of this board, from scratch. */
    method StaticEval() returns (score: int)
      requires Ready()
      modifies ev
      ensures Ready() && ev.boards == old(ev.boards)
      ensures score == Value(ev.net, pos.board, pos.side) && Sane(score)
    {
      hide Position.Consistent, IsFresh, Value;
      score := ev.Evaluate(pos);
    }

    /** Unless aborted: the deepest ply is worth its evaluation, a draw by rule nothing, a mate its distance from
        the root, and a side that is not in check never less than its evaluation, for it need not capture. */
    method Quiescence(alpha0: int, beta: int, ply: nat) returns (score: int)
      requires Ready() && ply < MAX_PLY && Window(alpha0, beta)
      modifies this`nodes, this`selDepth, this`aborted, pos, ev
      ensures Ready()
      ensures pos.Model() == old(pos.Model()) && pos.history == old(pos.history) && pos.past == old(pos.past)
      ensures ev.boards == old(ev.boards)
      ensures old(aborted) ==> aborted
      ensures !aborted ==> Sane(score)
      ensures !aborted && ply == MAX_PLY - 1 ==> score == Value(ev.net, pos.board, pos.side)
      ensures !aborted && ply < MAX_PLY - 1 && old(RuleDraws()) ==> score == DRAW_SCORE
      ensures !aborted && ply < MAX_PLY - 1 && !old(RuleDraws()) && Checkmate(pos.Model()) ==>
        score == -MATE_SCORE + ply
      ensures !aborted && ply < MAX_PLY - 1 && !old(RuleDraws()) && !InCheck(pos.Model()) ==>
        score >= Value(ev.net, pos.board, pos.side)
      decreases MAX_PLY - ply, 0
    {
      hide Position.Consistent, IncrementalEvaluator.InStep, KingSafe, RuleDraws, InCheck, Checkmate, Value;
      nodes := nodes + 1;
      CheckStop();
      if aborted { return 0; }
      if ply > selDepth { selDepth := ply; }
      if ply >= MAX_PLY - 1 {
        score := StaticEval();
        return;
      }
      var drawn := DrawnByRule();
      if drawn { return DRAW_SCORE; }
      score := StandPat(alpha0, beta, ply);
    }

    /** quiescence once draws are out of the way: the side to move may decline to capture unless it is in check. */
    method StandPat(alpha0: int, beta: int, ply: nat) returns (score: int)
      requires Ready() && ply + 1 < MAX_PLY && Window(alpha0, beta)
      modifies this`nodes, this`selDepth, this`aborted, pos, ev
      ensures Ready()
      ensures pos.Model() == old(pos.Model()) && pos.history == old(pos.history) && pos.past == old(pos.past)
      ensures ev.boards == old(ev.boards)
      ensures old(aborted) ==> aborted
      ensures !aborted ==> Sane(score)
      ensures !aborted && Checkmate(pos.Model()) ==> score == -MATE_SCORE + ply
      ensures !aborted && !InCheck(pos.Model()) ==> score >= Value(ev.net, pos.board, pos.side)
      decreases MAX_PLY - ply, 0, 1
    {
      hide Position.Consistent, IncrementalEvaluator.InStep, Legal, KingSafe, Forcing, BlockedDead, InCheck, Checkmate;
      hide InsufficientMaterial, Scan, Apply, Value;
      var inCheck := Check();
      var alpha := alpha0;
      var bestScore := -INFINITE;
      if !inCheck {
        bestScore := StaticEval();
        NotInCheckNoMate(pos.Model());
        if bestScore >= beta { return bestScore; }
        if bestScore > alpha { alpha := bestScore; }
      }
      var ml := new MoveList();
      GenerateCaptures(pos, ml);
      if inCheck { MateIsNoMove(pos.Model(), ml.moves); }
      if |ml.moves| == 0 && inCheck { return -MATE_SCORE + ply; }
      if |ml.moves| == 0 { return bestScore; }
      score := TryCaptures(ml, alpha, beta, bestScore, inCheck, ply);
    }

    /** The loop of quiescence over the moves it considers. */
    method TryCaptures(ml: MoveList, alpha0: int, beta: int, best0: int, inCheck: bool, ply: nat)
        returns (bestScore: int)
      requires Ready() && ply + 1 < MAX_PLY && Window(alpha0, beta)
      requires forall m | m in ml.moves :: Legal(pos.Model(), m)
      requires |ml.moves| > 0 && (if inCheck then best0 == -INFINITE else Sane(best0))
      modifies this`nodes, this`selDepth, this`aborted, pos, ev, ml
      ensures Ready()
      ensures pos.Model() == old(pos.Model()) && pos.history == old(pos.history) && pos.past == old(pos.past)
      ensures ev.boards == old(ev.boards)
      ensures old(aborted) ==> aborted
      ensures !aborted ==> Sane(bestScore) && bestScore >= best0
      decreases MAX_PLY - ply, 0, 0
    {
      hide Position.Consistent, IncrementalEvaluator.InStep, Legal;
      bestScore := best0;
      var alpha := alpha0;
      var scores := ScoreMoves(|ml.moves|);
      var i := 0;
      while i < |ml.moves|
        invariant Ready() && |scores| == |ml.moves| == |old(ml.moves)| && i <= |ml.moves|
        invariant forall m | m in ml.moves :: Legal(old(pos.Model()), m)
        invariant pos.Model() == old(pos.Model()) && pos.history == old(pos.history) && pos.past == old(pos.past)
        invariant ev.boards == old(ev.boards) && (old(aborted) ==> aborted)
        invariant Window(alpha, beta) && best0 <= bestScore < INFINITE
        invariant i > 0 || !inCheck ==> Sane(bestScore)
      {
        ghost var before := ml.moves;
        var m;
        ghost var best;
        m, scores, best := PickMove(ml, scores, i);
        SameMembers(before, ml.moves);
        i := i + 1;
        var skip := Prunes();
        if skip && !inCheck && !IsMateScore(alpha) { continue; }
        var score := TryCapture(m, alpha, beta, ply);
        if aborted { return 0; }
        if score > bestScore {
          bestScore := score;
          if score > alpha {
            alpha := score;
            if alpha >= beta { break; }
          }
        }
      }
    }

    method TryCapture(m: Move, alpha: int, beta: int, ply: nat) returns (score: int)
      requires Ready() && ply + 1 < MAX_PLY && Window(alpha, beta) && Legal(pos.Model(), m)
      modifies this`nodes, this`selDepth, this`aborted, pos, ev
      ensures Ready()
      ensures pos.Model() == old(pos.Model()) && pos.history == old(pos.history) && pos.past == old(pos.past)
      ensures ev.boards == old(ev.boards)
      ensures old(aborted) ==> aborted
      ensures !aborted ==> Sane(score)
      decreases MAX_PLY - ply, 0, 0, 0
    {
      hide Position.Consistent, IncrementalEvaluator.InStep, Legal, Apply, UndoOf;
      RecordMatches(pos);
      Make(m);
      score := Quiescence(-beta, -alpha, ply + 1);
      score := -score;
      Unmake();
    }

    // ---- negamax

    predicate HasNonPawnMaterial()
      requires pos.Views()
      reads this, pos
    {
      pos.PiecesOf(pos.side, Knight) + pos.PiecesOf(pos.side, Bishop) +
      pos.PiecesOf(pos.side, Rook) + pos.PiecesOf(pos.side, Queen) != {}
    }

    /** Draws come before anything else, then the end of the per-ply tables. */
    method EndsHere(ply: nat) returns (ended: bool, score: int)
      requires Ready() && ply < MAX_PLY
      modifies ev
      ensures Ready() && ev.boards == old(ev.boards)
      ensures Sane(score) && (ended <==> RuleDraws() || ply == MAX_PLY - 1)
      ensures ended ==> score == if RuleDraws() then DRAW_SCORE else Value(ev.net, pos.board, pos.side)
    {
      hide Position.Consistent, IncrementalEvaluator.InStep, Legal, KingSafe, InsufficientMaterial, BlockedDead, Scan;
      hide Value, RuleDraws;
      var drawn := DrawnByRule();
      if drawn { return true, DRAW_SCORE; }
      if ply >= MAX_PLY - 1 {
        score := StaticEval();
        return true, score;
      }
      return false, DRAW_SCORE;
    }

    /** Every node, whatever the pruning decides: the position, its history and the accumulators are as on
        entry, aborted or not; and unless aborted, the stored line from this ply is legal, and the root has
        one whenever it beat alpha. A draw by rule below the root and the last ply are scored before anything
        else; and a node without moves that neither the table nor a closer mate may answer is a mate at its
        distance from the root, or a stalemate. */
    method Negamax(alpha0: int, beta0: int, depth: int, ply: nat, allowNull: bool) returns (score: int)
      requires Ready() && ply < MAX_PLY && Window(alpha0, beta0)
      modifies this, pos, ev
      ensures Ready()
      ensures pos.Model() == old(pos.Model()) && pos.history == old(pos.history) && pos.past == old(pos.past)
      ensures ev.boards == old(ev.boards)
      ensures old(aborted) ==> aborted
      ensures forall i: nat | i < ply :: Slot(i) == old(Slot(i))
      ensures !aborted ==> Sane(score) && LineLegal(ply, pos.Model())
      ensures !aborted && ply == 0 && depth > 0 && score > alpha0 && (exists m :: Legal(pos.Model(), m)) ==>
        pvLength[0] > 0
      ensures !aborted && depth > 0 && ply > 0 && old(RuleDraws()) ==> score == DRAW_SCORE
      ensures !aborted && depth > 0 && ply == MAX_PLY - 1 && !old(RuleDraws()) ==>
        score == Value(ev.net, pos.board, pos.side)
      ensures !aborted && depth > 0 && Decided(alpha0, beta0, ply, old(RuleDraws())) && NoMove(pos.Model()) ==>
        score == Moveless(pos.Model(), ply)
      decreases MAX_PLY - ply, 5
    {
      hide Position.Consistent, IncrementalEvaluator.InStep, Legal, KingSafe, InsufficientMaterial, BlockedDead, Scan;
      hide Value, RowLegal, RuleDraws, NoMove, InCheck, Decided;
      pvLength := pvLength[ply := ply];
      if ply > selDepth { selDepth := ply; }
      CheckStop();
      if aborted { return 0; }
      NoLineYet(ply);
      if depth <= 0 {
        score := Quiescence(alpha0, beta0, ply);
        return;
      }
      score := Interior(alpha0, beta0, depth, ply, allowNull);
    }

    /** negamax above the horizon: draws, the last ply and mate distances. */
    method Interior(alpha0: int, beta0: int, depth: int, ply: nat, allowNull: bool) returns (score: int)
      requires Ready() && ply < MAX_PLY && Window(alpha0, beta0) && !aborted && pvLength[ply] == ply
      modifies this, pos, ev
      ensures Ready()
      ensures pos.Model() == old(pos.Model()) && pos.history == old(pos.history) && pos.past == old(pos.past)
      ensures ev.boards == old(ev.boards)
      ensures forall i: nat | i < ply :: Slot(i) == old(Slot(i))
      ensures !aborted ==> Sane(score) && LineLegal(ply, pos.Model())
      ensures !aborted && ply == 0 && score > alpha0 && (exists m :: Legal(pos.Model(), m)) ==> pvLength[0] > 0
      ensures !aborted && ply > 0 && old(RuleDraws()) ==> score == DRAW_SCORE
      ensures !aborted && ply == MAX_PLY - 1 && !old(RuleDraws()) ==> score == Value(ev.net, pos.board, pos.side)
      ensures !aborted && Decided(alpha0, beta0, ply, old(RuleDraws())) && NoMove(pos.Model()) ==>
        score == Moveless(pos.Model(), ply)
      decreases MAX_PLY - ply, 4
    {
      hide Position.Consistent, IncrementalEvaluator.InStep, Legal, KingSafe, Value, RowLegal, RuleDraws, NoMove;
      hide InCheck;
      var alpha, beta := alpha0, beta0;
      var isRoot := ply == 0;
      var isPV := beta - alpha > 1;
      NoLineYet(ply);
      nodes := nodes + 1;
      if !isRoot {
        var ended;
        ended, score := EndsHere(ply);
        if ended { return; }
        alpha := Max(alpha, -MATE_SCORE + ply);
        beta := if beta < MATE_SCORE - ply - 1 then beta else MATE_SCORE - ply - 1;
        if alpha >= beta { return alpha; }
      }
      score := SearchNode(alpha, beta, depth, ply, isPV, allowNull);
    }

    /** negamax once draws and mate distances are out of the way: table, pruning, moves. */
    method SearchNode(alpha: int, beta: int, depth: int, ply: nat, isPV: bool, allowNull: bool) returns (score: int)
      requires Ready() && ply + 1 < MAX_PLY && Window(alpha, beta) && !aborted
      requires pvLength[ply] == ply
      modifies this, pos, ev
      ensures Ready()
      ensures pos.Model() == old(pos.Model()) && pos.history == old(pos.history) && pos.past == old(pos.past)
      ensures ev.boards == old(ev.boards)
      ensures forall i: nat | i < ply :: Slot(i) == old(Slot(i))
      ensures !aborted ==> Sane(score) && LineLegal(ply, pos.Model())
      ensures !aborted && ply == 0 && score > alpha && (exists m :: Legal(pos.Model(), m)) ==> pvLength[0] > 0
      ensures !aborted && (isPV || ply == 0) && NoMove(pos.Model()) ==> score == Moveless(pos.Model(), ply)
      decreases MAX_PLY - ply, 3
    {
      hide Position.Consistent, IncrementalEvaluator.InStep, Legal, KingSafe, Value, RowLegal, NoMove, InCheck;
      var isRoot := ply == 0;
      NoLineYet(ply);
      var ttScore, ttUsable := Probe();
      if ttUsable && !isPV && !isRoot { return ttScore; }
      var inCheck := Check();
      var staticEval := 0;
      if !inCheck { staticEval := StaticEval(); }
      if !isPV && !inCheck && !isRoot {
        if depth <= 6 && staticEval - 120 * depth >= beta && !IsMateScore(beta) { return staticEval; }
        if allowNull && depth >= 3 && staticEval >= beta {
          var cut;
          score, cut := TryNull(beta, depth, ply);
          if aborted { return 0; }
          if cut { return; }
        }
      }
      var ml := new MoveList();
      GenerateLegalMoves(pos, ml);
      EmptyIsNoMove(pos.Model(), ml.moves);
      if |ml.moves| == 0 {
        return if inCheck then -MATE_SCORE + ply else DRAW_SCORE;
      }
      score := TryMoves(ml, alpha, beta, depth, ply, inCheck, isPV);
    }

    /** A freshly started ply holds the empty line. */
    lemma NoLineYet(ply: nat)
      requires Tables() && ply < MAX_PLY && pvLength[ply] == ply
      ensures LineLegal(ply, pos.Model())
    {
      assert RowHolds(pv[ply], pvLength[ply], ply, []);
    }

    /** Null-move pruning: pass, search, take the pass back. */
    method TryNull(beta: int, depth: int, ply: nat) returns (score: int, cut: bool)
      requires Ready() && 0 < ply && ply + 1 < MAX_PLY && -INFINITE <= beta - 1 && beta <= INFINITE &&
        !InCheck(pos.Model()) && !aborted
      modifies this, pos, ev
      ensures Ready()
      ensures pos.Model() == old(pos.Model()) && pos.history == old(pos.history) && pos.past == old(pos.past)
      ensures ev.boards == old(ev.boards)
      ensures Slot(ply) == old(Slot(ply)) && forall i: nat | i < ply :: Slot(i) == old(Slot(i))
      ensures !aborted ==> Sane(score)
      decreases MAX_PLY - ply, 2
    {
      hide IsFresh, Legal, KingSafe, PassTurn, ViewsOf, Sound, RowLegal;
      score, cut := 0, false;
      if !HasNonPawnMaterial() { return; }
      RecordMatches(pos);
      var reduction := 3 + depth / 6;
      MakeNull();
      var s := Negamax(-beta, -beta + 1, depth - reduction, ply + 1, false);
      UnmakeNull();
      if aborted { return; }
      score := -s;
      cut := score >= beta && !IsMateScore(score);
    }

    /** The move loop of negamax. */
    method TryMoves(ml: MoveList, alpha0: int, beta: int, depth: int, ply: nat, inCheck: bool, isPV: bool)
        returns (bestScore: int)
      requires Ready() && ply + 1 < MAX_PLY && Window(alpha0, beta) && !aborted
      requires |ml.moves| > 0 && forall m | m in ml.moves :: Legal(pos.Model(), m)
      requires pvLength[ply] == ply
      modifies this, pos, ev, ml
      ensures Ready()
      ensures pos.Model() == old(pos.Model()) && pos.history == old(pos.history) && pos.past == old(pos.past)
      ensures ev.boards == old(ev.boards)
      ensures forall i: nat | i < ply :: Slot(i) == old(Slot(i))
      ensures !aborted ==> Sane(bestScore) && LineLegal(ply, pos.Model())
      ensures !aborted && bestScore > alpha0 ==> pvLength[ply] > ply
      decreases MAX_PLY - ply, 2
    {
      hide Position.Consistent, IncrementalEvaluator.InStep, Legal, RowLegal, Swapped;
      bestScore := -INFINITE;
      var alpha := alpha0;
      var scores := ScoreMoves(|ml.moves|);
      NoLineYet(ply);
      var searched := 0;
      while searched < |ml.moves|
        invariant Ready() && |scores| == |ml.moves| == |old(ml.moves)| && searched <= |ml.moves|
        invariant forall m | m in ml.moves :: Legal(old(pos.Model()), m)
        invariant pos.Model() == old(pos.Model()) && pos.history == old(pos.history) && pos.past == old(pos.past)
        invariant ev.boards == old(ev.boards) && !aborted
        invariant forall i: nat | i < ply :: Slot(i) == old(Slot(i))
        invariant Window(alpha, beta) && alpha0 <= alpha
        invariant if searched == 0 then bestScore == -INFINITE else Sane(bestScore)
        invariant bestScore > alpha0 ==> alpha == bestScore && pvLength[ply] > ply
        invariant bestScore <= alpha0 ==> alpha == alpha0
        invariant LineLegal(ply, old(pos.Model()))
      {
        ghost var before := ml.moves;
        var m;
        ghost var best;
        m, scores, best := PickMove(ml, scores, searched);
        SameMembers(before, ml.moves);
        var isQuiet := !IsCapture(pos.board, m) && !m.Promotion?;
        var score := TryMove(m, alpha, beta, depth, ply, searched, isQuiet, inCheck, isPV);
        searched := searched + 1;
        if aborted { return 0; }
        if score > bestScore {
          bestScore := score;
          if score > alpha {
            alpha := score;
            ExtendLine(m, ply);
            if alpha >= beta {
              if isQuiet { RecordKiller(m, ply); }
              break;
            }
          }
        }
      }
    }

    /** updatePV right after the child returned: the longer line is legal from here. */
    method ExtendLine(m: Move, ply: nat)
      requires Tables() && ply + 1 < MAX_PLY && Movable(pos.Model(), m) && Legal(pos.Model(), m)
      requires LineLegal(ply + 1, Apply(pos.Model(), m))
      modifies this`pv, this`pvLength
      ensures Tables() && LineLegal(ply, pos.Model()) && pvLength[ply] > ply
      ensures forall i: nat | i < MAX_PLY && i != ply :: Slot(i) == old(Slot(i))
    {
      hide Legal;
      ghost var child :| RowHolds(pv[ply + 1], pvLength[ply + 1], ply + 1, child) &&
        LegalLine(Apply(pos.Model(), m), child);
      UpdatePV(m, ply, child);
      assert ([m] + child)[1..] == child;
      assert RowHolds(pv[ply], pvLength[ply], ply, [m] + child) && LegalLine(pos.Model(), [m] + child);
    }

    /** One move: make it, search it, take it back. */
    method TryMove(m: Move, alpha: int, beta: int, depth: int, ply: nat, searched: nat, isQuiet: bool, inCheck: bool,
        isPV: bool)
        returns (score: int)
      requires Ready() && ply + 1 < MAX_PLY && Window(alpha, beta) && Legal(pos.Model(), m) && !aborted
      modifies this, pos, ev
      ensures Ready()
      ensures pos.Model() == old(pos.Model()) && pos.history == old(pos.history) && pos.past == old(pos.past)
      ensures ev.boards == old(ev.boards)
      ensures Slot(ply) == old(Slot(ply)) && forall i: nat | i < ply :: Slot(i) == old(Slot(i))
      ensures !aborted ==> Sane(score) && Movable(pos.Model(), m) && LineLegal(ply + 1, Apply(pos.Model(), m))
      decreases MAX_PLY - ply, 1
    {
      hide Position.Consistent, IncrementalEvaluator.InStep, Legal, RowLegal, Liftable, LegalLine, UndoOf, LineLegal;
      hide Apply, BoardAfter, Movable;
      MakeFacts(pos, m);
      RecordMatches(pos);
      Make(m);
      score := SearchChild(alpha, beta, depth, ply, searched, isQuiet, inCheck, isPV);
      Unmake();
    }

    /** The first move gets the full window; later ones a null window, reduced when they come late, and a
        wider search only if they surprise. */
    method SearchChild(alpha: int, beta: int, depth: int, ply: nat, searched: nat, isQuiet: bool, inCheck: bool,
        isPV: bool)
        returns (score: int)
      requires Ready() && ply + 1 < MAX_PLY && Window(alpha, beta)
      modifies this, pos, ev
      ensures Ready()
      ensures pos.Model() == old(pos.Model()) && pos.history == old(pos.history) && pos.past == old(pos.past)
      ensures ev.boards == old(ev.boards)
      ensures Slot(ply) == old(Slot(ply)) && forall i: nat | i < ply :: Slot(i) == old(Slot(i))
      ensures !aborted ==> Sane(score) && LineLegal(ply + 1, pos.Model())
      decreases MAX_PLY - ply, 0
    {
      hide Position.Consistent, IncrementalEvaluator.InStep, Legal, RowLegal, Apply;
      if searched == 0 {
        score := Negamax(-beta, -alpha, depth - 1, ply + 1, true);
        return -score;
      }
      var reduction := 0;
      if depth >= 3 && isQuiet && !inCheck && searched >= 4 {
        reduction := 1 + searched / 12;
        if isPV { reduction := reduction - 1; }
        if reduction < 0 { reduction := 0; }
        if reduction > depth - 2 { reduction := depth - 2; }
      }
      score := Negamax(-alpha - 1, -alpha, depth - 1 - reduction, ply + 1, true);
      score := -score;
      if score > alpha && reduction > 0 {
        score := Negamax(-alpha - 1, -alpha, depth - 1, ply + 1, true);
        score := -score;
      }
      if score > alpha && score < beta {
        score := Negamax(-beta, -alpha, depth - 1, ply + 1, true);
        score := -score;
      }
    }

    // ---- iterative deepening

    /** The stop flag, the context, the node budget and the clock. */
    method Stopping() returns (stop: bool)
    {
      stop := *;
    }

    /** searchRoot: a window around the last score, doubled on every failure until it is given up for the
        widest one. The loop ends, and a completed iteration leaves a legal, non-empty line at the root. */
    method SearchRoot(depth: int, prevScore: int) returns (score: int, completed: bool)
      requires Ready() && depth > 0 && Sane(prevScore) && (exists m :: Legal(pos.Model(), m))
      modifies this, pos, ev
      ensures Ready()
      ensures pos.Model() == old(pos.Model()) && pos.history == old(pos.history) && pos.past == old(pos.past)
      ensures ev.boards == old(ev.boards)
      ensures completed ==> Sane(score) && LineLegal(0, pos.Model()) && pvLength[0] > 0
    {
      hide Position.Consistent, IncrementalEvaluator.InStep, Legal, RowLegal;
      var alpha, beta := -INFINITE, INFINITE;
      var window := 25;
      if depth >= 4 && !IsMateScore(prevScore) {
        alpha := prevScore - window;
        beta := prevScore + window;
      }
      while true
        invariant Ready()
        invariant pos.Model() == old(pos.Model()) && pos.history == old(pos.history) && pos.past == old(pos.past)
        invariant ev.boards == old(ev.boards)
        invariant Window(alpha, beta) && 25 <= window
        invariant (alpha == -INFINITE && beta == INFINITE) ||
          (!IsMateScore(prevScore) && window <= 1000 && prevScore - window <= alpha && beta <= prevScore + window)
        decreases if alpha == -INFINITE && beta == INFINITE then 0 else 2000 - window
      {
        score := Negamax(alpha, beta, depth, 0, true);
        if aborted { return 0, false; }
        if score <= alpha {
          beta := TruncDiv(alpha + beta, 2);
          alpha := alpha - window;
          window := window * 2;
        } else if score >= beta {
          beta := beta + window;
          window := window * 2;
        } else {
          return score, true;
        }
        if window > 1000 {
          alpha, beta := -INFINITE, INFINITE;
        }
        var stop := Stopping();
        if stop { return 0, false; }
      }
    }

    /** iterate: whatever stops the search, the move it reports is one an iteration completed with. */
    method Iterate(maxDepth: int) returns (best: Option<Move>, ponder: Option<Move>)
      requires Ready() && (exists m :: Legal(pos.Model(), m))
      modifies this, pos, ev
      ensures Ready()
      ensures pos.Model() == old(pos.Model()) && pos.history == old(pos.history) && pos.past == old(pos.past)
      ensures best.Some? ==> Legal(pos.Model(), best.value) && Movable(pos.Model(), best.value)
      ensures ponder.Some? ==> best.Some? && Legal(Apply(pos.Model(), best.value), ponder.value)
    {
      hide Position.Consistent, IncrementalEvaluator.InStep, Legal, RowLegal;
      best, ponder := None, None;
      var depth := 1;
      var lastScore := 0;
      while depth <= maxDepth
        invariant Ready() && Sane(lastScore) && depth >= 1
        invariant pos.Model() == old(pos.Model()) && pos.history == old(pos.history) && pos.past == old(pos.past)
        invariant ev.boards == old(ev.boards)
        invariant best.Some? ==> Legal(pos.Model(), best.value) && Movable(pos.Model(), best.value)
        invariant ponder.Some? ==> best.Some? && Legal(Apply(pos.Model(), best.value), ponder.value)
      {
        var score, completed := SearchRoot(depth, lastScore);
        if !completed { break; }
        lastScore := score;
        FirstMovesLegal(pv[0], pvLength[0], pos.Model());
        best := pv[0][0];
        ponder := None;
        if pvLength[0] > 1 {
          ponder := pv[0][1];
        }
        var enough := Stopping();
        if enough { break; }
        depth := depth + 1;
      }
    }
  }

  /** The node must be searched: it is the root, or one with an open window that neither a draw nor a mate nearer
      the root takes out of play. */
  predicate Decided(alpha: int, beta: int, ply: nat, drawn: bool) {
    && ply < MAX_PLY - 1
    && (ply == 0 || (!drawn && beta - alpha > 1 && alpha < MATE_SCORE - ply - 1 && -MATE_SCORE + ply < beta))
  }

  ghost predicate NoMove(p: Pos) { forall m :: !Legal(p, m) }

  ghost function Moveless(p: Pos, ply: nat): int { if InCheck(p) then -MATE_SCORE + ply else DRAW_SCORE }

  lemma EmptyIsNoMove(p: Pos, moves: seq<Move>)
    requires forall m :: m in moves <==> Legal(p, m)
    ensures NoMove(p) <==> |moves| == 0
  {
    hide Legal;
    if |moves| > 0 {
      assert moves[0] in moves;
    } else {
      NoMoves(p, moves);
    }
  }

  lemma NotInCheckNoMate(p: Pos)
    requires !InCheck(p)
    ensures !Checkmate(p)
  {
  }

  lemma MateIsNoMove(p: Pos, moves: seq<Move>)
    requires InCheck(p) && forall m :: m in moves <==> Legal(p, m)
    ensures Checkmate(p) <==> |moves| == 0
  {
    hide Legal, InCheck;
    if |moves| > 0 {
      assert moves[0] in moves;
    } else {
      NoMoves(p, moves);
    }
  }

  lemma FirstMovesLegal(row: seq<Option<Move>>, length: int, p: Pos)
    requires |row| == MAX_PLY && RowLegal(row, length, 0, p) && length > 0
    ensures row[0].Some? && Movable(p, row[0].value) && Legal(p, row[0].value)
    ensures length > 1 ==> length <= |row| && row[1].Some? && Legal(Apply(p, row[0].value), row[1].value)
  {
    hide Legal;
    var line :| RowHolds(row, length, 0, line) && LegalLine(p, line);
    assert row[0 + 0] == Some(line[0]);
    if length > 1 {
      var rest := line[1..];
      assert LegalLine(Apply(p, line[0]), rest) && rest != [];
      assert row[0 + 1] == Some(line[1]) && rest[0] == line[1];
    }
  }

  /** Search returns a legal move whenever there is one, even if it is stopped before finishing anything, and
      leaves the caller's position untouched. */
  method FindBest(root: Position, net: Net, capacity: nat, threads: nat, maxDepth: int) returns (best: Option<Move>)
    requires root.Consistent() && WellShaped(net) && capacity >= 1
    ensures best.Some? <==> exists m :: Legal(root.Model(), m)
    ensures best.Some? ==> Legal(root.Model(), best.value)
  {
    hide Position.Consistent, IncrementalEvaluator.InStep, Legal;
    var moves := new MoveList();
    GenerateLegalMoves(root, moves);
    if |moves.moves| == 0 {
      NoMoves(root.Model(), moves.moves);
      return None;
    }
    SomeMove(root.Model(), moves.moves);
    var first := moves.moves[0];
    assert first in moves.moves;
    ghost var model := root.Model();
    var depth := if maxDepth <= 0 || maxDepth > MAX_PLY - 1 then MAX_PLY - 1 else maxDepth;
    for id := 1 to Max(threads, 1)
      invariant root.Model() == model && root.Consistent()
    {
      var helped := SearchThread(root, net, capacity, depth);
    }
    best := SearchThread(root, net, capacity, depth);
    if best.None? {
      best := Some(first);
    }
    assert root.Model() == model && Legal(model, best.value);
  }

  /** One thread: a private copy of the root, an evaluator of its own, and whatever the shared table answers. */
  method SearchThread(root: Position, net: Net, capacity: nat, depth: int) returns (best: Option<Move>)
    requires root.Consistent() && WellShaped(net) && capacity >= 1 && exists m :: Legal(root.Model(), m)
    ensures best.Some? ==> Legal(root.Model(), best.value)
  {
    hide Position.Consistent, IncrementalEvaluator.InStep, Legal;
    var ev := new IncrementalEvaluator(net, capacity);
    var st := new State(root, ev);
    var ponder;
    best, ponder := st.Iterate(depth);
  }

  lemma SameMembers(a: seq<Move>, b: seq<Move>)
    requires multiset(a) == multiset(b)
    ensures forall m :: m in a <==> m in b
  {
    forall m ensures m in a <==> m in b {
      assert m in multiset(a) <==> m in multiset(b);
    }
  }

  lemma RecordMatches(p: Position)
    requires p.Consistent()
    ensures |p.past| == |p.history|
  {
  }

  lemma MakeFacts(p: Position, m: Move)
    requires p.Consistent() && Legal(p.Model(), m)
    ensures Liftable(p.board, p.side, m)
    ensures m.from in p.board && Movable(p.Model(), m) && Apply(p.Model(), m).board == BoardAfter(p.board, p.side, m)
  {
    hide ViewsOf, RecordOf, KingSafe, OneKing, NoPawnsOnEdges, EpValid, PseudoLegal, Position.KeyAgrees;
    LegalIsLiftable(p.Model(), m);
  }
}
