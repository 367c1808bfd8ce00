/** Making and unmaking, well bracketed: whatever is played and taken back in any nesting of real and null
    moves, position and accumulators end as they began, and every evaluation on the way is the fresh one. */
module Nesting {
  import opened Rules
  import opened PositionState
  import opened Network
  import opened Incremental
  import opened Search
  import opened Zobrist

  /** At one position: play a move (or pass), do something inside, take it back, go on. */
  datatype Nest = Leaf | Real(m: Move, inside: Nest, rest: Nest) | Pass(inside: Nest, rest: Nest)

  ghost predicate Fits(p: Pos, n: Nest)
    decreases n
  {
    match n
    case Leaf => true
    case Real(m, inside, rest) => Movable(p, m) && Legal(p, m) && Fits(Apply(p, m), inside) && Fits(p, rest)
    case Pass(inside, rest) => !InCheck(p) && Fits(PassTurn(p), inside) && Fits(p, rest)
  }

  /** The fresh value of every position visited, in order. */
  ghost function FreshValues(net: Net, p: Pos, n: Nest): seq<int>
    requires WellShaped(net) && Fits(p, n)
    decreases n
  {
    [Value(net, p.board, p.side)] +
      match n
      case Leaf => []
      case Real(m, inside, rest) => FreshValues(net, Apply(p, m), inside) + FreshValues(net, p, rest)
      case Pass(inside, rest) => FreshValues(net, PassTurn(p), inside) + FreshValues(net, p, rest)
  }

  /** Runs a nesting and evaluates at every position on the way. */
  method Run(st: State, n: Nest) returns (scores: seq<int>)
    requires st.Ready() && Fits(st.pos.Model(), n)
    modifies st.pos, st.ev
    ensures st.Ready()
    ensures st.pos.Model() == old(st.pos.Model()) && st.pos.history == old(st.pos.history) &&
      st.pos.past == old(st.pos.past)
    ensures st.pos.key == old(st.pos.key) && st.ev.boards == old(st.ev.boards)
    ensures scores == FreshValues(st.ev.net, old(st.pos.Model()), n)
    decreases n
  {
    hide Position.Consistent, IncrementalEvaluator.InStep, Legal, Apply, BoardAfter, Value, CapturedBy, InCheck, KeyOf;
    RecordMatches(st.pos);
    KeyIsDetermined(st.pos);
    var here := st.StaticEval();
    match n {
      case Leaf =>
        return [here];
      case Real(m, inside, rest) =>
        st.Make(m);
        var within := Run(st, inside);
        st.Unmake();
        KeyIsDetermined(st.pos);
        var after := Run(st, rest);
        return [here] + (within + after);
      case Pass(inside, rest) =>
        st.MakeNull();
        var within := Run(st, inside);
        st.UnmakeNull();
        KeyIsDetermined(st.pos);
        var after := Run(st, rest);
        return [here] + (within + after);
    }
  }

  lemma KeyIsDetermined(p: Position)
    requires p.Consistent()
    ensures p.key == PosKey(p.z, p.Model())
  {
  }
}
