/** The gate (gate/match.go, gate.go): colour-reversed pairs played by concurrent workers, their results folded
    into a report whose verdict latches. */
module Gate {
  import opened Squares

  datatype GameOutcome = WhiteWon | BlackWon | Drawn

  datatype PairResult = PairResult(index: nat, wins: nat, losses: nat, draws: nat, nodes: nat)

  /** One finished game. A game is a pure function of the two evaluations, the opening and the settings; it
      fails when the opening does not parse. */
  datatype Game = Game(outcome: GameOutcome, nodes: nat)

  type Play<!E, !O> = (E, E, O) -> Option<Game>

  datatype Verdict = Inconclusive | Accept | Reject

  /** SPRT.Test: verdict and log-likelihood ratio of a tally. */
  type Test = (nat, nat, nat) -> (Verdict, real)

  // ---- one pair

  /** The candidate's result in one game. */
  function Scored(r: PairResult, g: Game, candidateIsWhite: bool): PairResult {
    var counted := r.(nodes := r.nodes + g.nodes);
    if g.outcome.Drawn? then counted.(draws := r.draws + 1)
    else if g.outcome.WhiteWon? == candidateIsWhite then counted.(wins := r.wins + 1)
    else counted.(losses := r.losses + 1)
  }

  /** Candidate as White, then as Black, from one opening; nothing if there is no opening or a game fails. */
  function Pair<E, O>(play: Play<E, O>, opening: Option<O>, candidate: E, incumbent: E, index: nat): Option<PairResult>
  {
    match opening
    case None => None
    case Some(o) =>
      match (play(candidate, incumbent, o), play(incumbent, candidate, o))
      case (Some(g), Some(h)) => Some(Scored(Scored(PairResult(index, 0, 0, 0, 0), g, true), h, false))
      case _ => None
  }

  method PlayPair<E, O>(play: Play<E, O>, opening: Option<O>, candidate: E, incumbent: E, index: nat)
      returns (result: PairResult, ok: bool)
    ensures Pair(play, opening, candidate, incumbent, index) == if ok then Some(result) else None
  {
    result, ok := PairResult(index, 0, 0, 0, 0), true;
    if opening.None? {
      return result, false;
    }
    var o := opening.value;
    for game := 0 to 2
      invariant ok
      invariant game == 0 ==> result == PairResult(index, 0, 0, 0, 0)
      invariant game > 0 ==> play(candidate, incumbent, o).Some?
      invariant game == 1 ==> result == Scored(PairResult(index, 0, 0, 0, 0), play(candidate, incumbent, o).value, true)
      invariant game == 2 ==> Pair(play, opening, candidate, incumbent, index) == Some(result)
    {
      var candidateIsWhite := game == 0;
      var white, black := candidate, incumbent;
      if !candidateIsWhite {
        white, black := incumbent, candidate;
      }
      var finished := play(white, black, o);
      if finished.None? {
        return result, false;
      }
      var played := finished.value;
      result := result.(nodes := result.nodes + played.nodes);
      if played.outcome.Drawn? {
        result := result.(draws := result.draws + 1);
      } else if played.outcome.WhiteWon? == candidateIsWhite {
        result := result.(wins := result.wins + 1);
      } else {
        result := result.(losses := result.losses + 1);
      }
    }
  }

  /** Each game counts once, for whoever won it: the candidate has White in the first and Black in the second. */
  lemma PairCounts<E, O>(play: Play<E, O>, o: O, candidate: E, incumbent: E, index: nat)
    requires play(candidate, incumbent, o).Some? && play(incumbent, candidate, o).Some?
    ensures var g, h := play(candidate, incumbent, o).value, play(incumbent, candidate, o).value;
      Pair(play, Some(o), candidate, incumbent, index) == Some(PairResult(index,
        (if g.outcome.WhiteWon? then 1 else 0) + (if h.outcome.BlackWon? then 1 else 0),
        (if g.outcome.BlackWon? then 1 else 0) + (if h.outcome.WhiteWon? then 1 else 0),
        (if g.outcome.Drawn? then 1 else 0) + (if h.outcome.Drawn? then 1 else 0), g.nodes + h.nodes))
  {
  }

  /** Openings cancel out: from the incumbent's side the same pair reads with wins and losses exchanged, and
      against itself nobody gains, whatever the opening favours. */
  lemma PairIsFair<E, O>(play: Play<E, O>, opening: Option<O>, a: E, b: E, index: nat)
    ensures var r, s := Pair(play, opening, a, b, index), Pair(play, opening, b, a, index);
      && (r.Some? <==> s.Some?)
      && (r.Some? ==> r.value.wins == s.value.losses && r.value.losses == s.value.wins)
      && (r.Some? ==> r.value.draws == s.value.draws && r.value.nodes == s.value.nodes)
      && (r.Some? ==> r.value.wins + r.value.losses + r.value.draws == 2)
      && (r.Some? && a == b ==> r.value.wins == r.value.losses)
  {
  }

  // ---- folding

  datatype Summary = Summary(wins: nat, losses: nat, draws: nat, games: nat, nodes: nat, verdict: Verdict, llr: real)

  function Blank(): Summary { Summary(0, 0, 0, 0, 0, Inconclusive, 0.0) }

  function Total(rs: seq<PairResult>): PairResult {
    if rs == [] then PairResult(0, 0, 0, 0, 0)
    else
      var t, r := Total(rs[..|rs| - 1]), rs[|rs| - 1];
      PairResult(0, t.wins + r.wins, t.losses + r.losses, t.draws + r.draws, t.nodes + r.nodes)
  }

  function TestOf(sprt: Test, rs: seq<PairResult>): (Verdict, real) {
    sprt(Total(rs).wins, Total(rs).losses, Total(rs).draws)
  }

  /** The arrivals up to and including the first that crosses a bound; all of them if none does. */
  function Deciding(sprt: Test, rs: seq<PairResult>): (k: nat)
    ensures k <= |rs|
  {
    if rs == [] then 0
    else
      var before := Deciding(sprt, rs[..|rs| - 1]);
      if before < |rs| - 1 || (|rs| > 1 && TestOf(sprt, rs[..|rs| - 1]).0 != Inconclusive) then before else |rs|
  }

  /** It is the first: nothing shorter crosses, and if anything does it crosses. */
  lemma {:induction false} DecidingIsFirst(sprt: Test, rs: seq<PairResult>)
    ensures var k := Deciding(sprt, rs);
      && (forall j | 0 < j < k :: TestOf(sprt, rs[..j]).0 == Inconclusive)
      && (k < |rs| ==> k > 0 && TestOf(sprt, rs[..k]).0 != Inconclusive)
      && (rs != [] ==> k > 0)
  {
    hide TestOf;
    if rs != [] {
      var n := |rs| - 1;
      DecidingIsFirst(sprt, rs[..n]);
      assert forall j | 0 <= j <= n :: rs[..n][..j] == rs[..j];
    }
  }

  /** What the report must say after some arrivals: the tally of all, the verdict of the deciding ones. */
  function Expected(sprt: Test, rs: seq<PairResult>): Summary {
    var t := Total(rs);
    var decided := if rs == [] then (Inconclusive, 0.0) else TestOf(sprt, rs[..Deciding(sprt, rs)]);
    Summary(t.wins, t.losses, t.draws, t.wins + t.losses + t.draws, t.nodes, decided.0, decided.1)
  }

  class Report {
    var wins: nat
    var losses: nat
    var draws: nat
    var games: nat
    var nodes: nat
    var verdict: Verdict
    var llr: real

    function Reading(): Summary
      reads this
    {
      Summary(wins, losses, draws, games, nodes, verdict, llr)
    }

    constructor ()
      ensures Reading() == Blank()
    {
      wins, losses, draws, games, nodes, verdict, llr := 0, 0, 0, 0, 0, Inconclusive, 0.0;
    }

    /** fold: arrivals are the results folded in before this one. */
    method Fold(sprt: Test, r: PairResult, ghost arrivals: seq<PairResult>) returns (stop: bool)
      requires Reading() == Expected(sprt, arrivals)
      modifies this
      ensures Reading() == Expected(sprt, arrivals + [r])
      ensures stop <==> Reading().verdict != Inconclusive
    {
      hide Expected;
      OneMoreFolded(sprt, arrivals, r);
      wins := wins + r.wins;
      losses := losses + r.losses;
      draws := draws + r.draws;
      games := games + r.wins + r.losses + r.draws;
      nodes := nodes + r.nodes;
      if verdict != Inconclusive {
        return true;
      }
      var tested := sprt(wins, losses, draws);
      verdict, llr := tested.0, tested.1;
      return verdict != Inconclusive;
    }
  }

  lemma OneMoreResult(sprt: Test, rs: seq<PairResult>, r: PairResult)
    ensures var t, u := Total(rs), Total(rs + [r]);
      u.wins == t.wins + r.wins && u.losses == t.losses + r.losses && u.draws == t.draws + r.draws &&
        u.nodes == t.nodes + r.nodes
    ensures var was, now := Expected(sprt, rs), Expected(sprt, rs + [r]);
      if was.verdict != Inconclusive then now.verdict == was.verdict && now.llr == was.llr
      else (now.verdict, now.llr) == TestOf(sprt, rs + [r])
  {
    hide TestOf;
    var all := rs + [r];
    assert all[..|all| - 1] == rs;
    DecidingIsFirst(sprt, rs);
    if rs != [] {
      var k := Deciding(sprt, rs);
      assert all[..k] == rs[..k];
      if k == |rs| { assert rs[..k] == rs; }
    }
    assert all[..|all|] == all;
  }

  /** One result more, from the report alone. */
  function Folded(sprt: Test, was: Summary, r: PairResult): Summary {
    var tally := was.(wins := was.wins + r.wins, losses := was.losses + r.losses, draws := was.draws + r.draws,
      games := was.games + r.wins + r.losses + r.draws, nodes := was.nodes + r.nodes);
    if was.verdict != Inconclusive then tally
    else
      var tested := sprt(tally.wins, tally.losses, tally.draws);
      tally.(verdict := tested.0, llr := tested.1)
  }

  lemma OneMoreFolded(sprt: Test, rs: seq<PairResult>, r: PairResult)
    ensures Expected(sprt, rs + [r]) == Folded(sprt, Expected(sprt, rs), r)
  {
    hide Total, Deciding;
    OneMoreResult(sprt, rs, r);
  }

  /** A verdict once reached is the verdict for good: later arrivals add to the tally and change nothing else. */
  lemma {:induction false} VerdictLatches(sprt: Test, rs: seq<PairResult>, later: seq<PairResult>)
    requires Expected(sprt, rs).verdict != Inconclusive
    ensures Expected(sprt, rs + later).verdict == Expected(sprt, rs).verdict &&
      Expected(sprt, rs + later).llr == Expected(sprt, rs).llr
    decreases |later|
  {
    hide Expected;
    if later == [] {
      assert rs + later == rs;
    } else {
      var n := |later| - 1;
      VerdictLatches(sprt, rs, later[..n]);
      assert rs + later == (rs + later[..n]) + [later[n]];
      OneMoreResult(sprt, rs + later[..n], later[n]);
    }
  }

  // ---- the schedule

  /** A match: how many pairs, what each would return, and which of them cannot be played at all. */
  datatype Match = Match(pairs: nat, play: nat -> PairResult, unplayable: set<nat>, sprt: Test)

  ghost predicate Proper(m: Match) { forall i :: m.play(i).index == i }

  datatype Worker = Idle | Playing(index: nat) | Delivering(result: PairResult) | Exited

  datatype Failure = Interrupted | Unusable(index: nat)

  datatype Return = Running | Success | Cancelled | Failed(failure: Failure)

  datatype State = State(
    next: nat,                      // indices handed out so far
    closed: bool,                   // the feeder has closed its channel
    workers: seq<Worker>,
    cancelled: bool,                // the pairs' context
    outer: bool,                    // the caller's context
    error: Option<Failure>,         // the buffered error, of which only the first is kept
    arrivals: seq<PairResult>,      // results delivered to onResult, in order
    lost: set<nat>,                 // pairs abandoned in flight
    done: Return)

  datatype Step =
    | Hand(worker: nat)
    | CloseIndices
    | Leave(worker: nat)
    | Finish(worker: nat, interrupted: bool)
    | Deliver(worker: nat)
    | OuterCancel
    | ReturnNow

  function Start(m: Match, concurrency: nat): State {
    var wanted := if concurrency > m.pairs then m.pairs else concurrency;
    var workers := if wanted < 1 then 1 else wanted;
    State(0, false, seq(workers, i => Idle), false, false, None, [], {}, Running)
  }

  predicate Enabled(m: Match, s: State, step: Step) {
    s.done.Running? &&
    match step
    case Hand(w) => w < |s.workers| && s.workers[w].Idle? && !s.closed && s.next < m.pairs
    case CloseIndices => !s.closed && (s.cancelled || s.next == m.pairs)
    case Leave(w) => w < |s.workers| && s.workers[w].Idle? && s.closed
    case Finish(w, interrupted) => w < |s.workers| && s.workers[w].Playing? && (interrupted ==> s.cancelled)
    case Deliver(w) => w < |s.workers| && s.workers[w].Delivering?
    case OuterCancel => !s.outer
    case ReturnNow => forall w | 0 <= w < |s.workers| :: s.workers[w].Exited?
  }

  function Fail(s: State, w: nat, f: Failure): State
    requires w < |s.workers| && s.workers[w].Playing?
  {
    s.(workers := s.workers[w := Exited], cancelled := true, lost := s.lost + {s.workers[w].index},
       error := if s.error.None? then Some(f) else s.error)
  }

  function After(m: Match, s: State, step: Step): State
    requires Enabled(m, s, step)
  {
    match step
    case Hand(w) => s.(workers := s.workers[w := Playing(s.next)], next := s.next + 1)
    case CloseIndices => s.(closed := true)
    case Leave(w) => s.(workers := s.workers[w := Exited])
    case Finish(w, interrupted) =>
      var i := s.workers[w].index;
      if interrupted then Fail(s, w, Interrupted)
      else if i in m.unplayable then Fail(s, w, Unusable(i))
      else s.(workers := s.workers[w := Delivering(m.play(i))])
    case Deliver(w) =>
      var arrivals := s.arrivals + [s.workers[w].result];
      s.(workers := s.workers[w := Idle], arrivals := arrivals,
         cancelled := s.cancelled || Expected(m.sprt, arrivals).verdict != Inconclusive)
    case OuterCancel => s.(outer := true, cancelled := true)
    case ReturnNow =>
      s.(done := if s.outer then Cancelled
                 else if s.error.Some? && !s.error.value.Interrupted? then Failed(s.error.value) else Success)
  }

  function Execute(m: Match, concurrency: nat, steps: seq<Step>): State {
    if steps == [] then Start(m, concurrency)
    else
      var s := Execute(m, concurrency, steps[..|steps| - 1]);
      if Enabled(m, s, steps[|steps| - 1]) then After(m, s, steps[|steps| - 1]) else s
  }

  // ---- what every schedule keeps

  /** Where index i is: with exactly one worker, delivered, or lost. */
  function Held(w: Worker): Option<nat> {
    match w
    case Playing(i) => Some(i)
    case Delivering(r) => Some(r.index)
    case _ => None
  }

  predicate Delivered(s: State, i: nat) { exists k :: 0 <= k < |s.arrivals| && s.arrivals[k].index == i }

  predicate InHand(s: State, i: nat) { exists w :: 0 <= w < |s.workers| && Held(s.workers[w]) == Some(i) }

  ghost predicate Exclusive(s: State) {
    forall v, w | 0 <= v < w < |s.workers| && Held(s.workers[v]).Some? :: Held(s.workers[v]) != Held(s.workers[w])
  }

  predicate Everywhere(s: State) { forall i: nat | i < s.next :: Delivered(s, i) || InHand(s, i) || i in s.lost }

  predicate Open(s: State, i: nat) { i < s.next && i !in s.lost && !Delivered(s, i) }

  ghost predicate Inv(m: Match, s: State) {
    && s.next <= m.pairs && |s.workers| > 0
    && (forall k | 0 <= k < |s.arrivals| ::
      s.arrivals[k] == m.play(s.arrivals[k].index) && s.arrivals[k].index < s.next)
    && (forall k, l | 0 <= k < l < |s.arrivals| :: s.arrivals[k].index != s.arrivals[l].index)
    && (forall w | 0 <= w < |s.workers| && s.workers[w].Delivering? ::
      s.workers[w].result == m.play(s.workers[w].result.index))
    && Exclusive(s)
    && (forall w | 0 <= w < |s.workers| && Held(s.workers[w]).Some? :: Open(s, Held(s.workers[w]).value))
    && (forall i | i in s.lost :: i < s.next && !Delivered(s, i))
    && Everywhere(s)
    && Causes(m, s)
  }

  /** Nothing is cancelled, lost or closed early without a cause that the return value or the verdict shows. */
  ghost predicate Causes(m: Match, s: State) {
    && (s.closed ==> s.cancelled || s.next == m.pairs)
    && (s.lost != {} ==> s.error.Some?)
    && (s.error.Some? ==> s.cancelled)
    && (s.outer ==> s.cancelled)
    && (s.cancelled ==>
          || s.outer
          || Expected(m.sprt, s.arrivals).verdict != Inconclusive
          || (s.error.Some? && s.error.value.Unusable?))
    && (Expected(m.sprt, s.arrivals).verdict != Inconclusive ==> s.cancelled)
    && (s.error.Some? && s.error.value.Unusable? ==>
          s.error.value.index in m.unplayable && s.error.value.index in s.lost)
    && (s.done.Cancelled? ==> s.outer)
    && (s.done.Failed? ==> !s.outer && s.error == Some(s.done.failure) && s.done.failure.Unusable?)
    && (forall w | 0 <= w < |s.workers| && s.workers[w].Exited? :: s.closed || s.cancelled)
    && (!s.done.Running? ==> forall w | 0 <= w < |s.workers| :: s.workers[w].Exited?)
    && (s.done.Success? ==> !s.outer && (s.error.Some? ==> s.error.value.Interrupted?))
  }

  lemma StartIsSafe(m: Match, concurrency: nat)
    ensures Inv(m, Start(m, concurrency))
  {
    var s := Start(m, concurrency);
    assert forall w | 0 <= w < |s.workers| :: s.workers[w] == Idle;
  }

  lemma HandHasCauses(m: Match, s: State, w: nat)
    requires Inv(m, s) && Enabled(m, s, Hand(w))
    ensures Causes(m, After(m, s, Hand(w)))
  {
    hide Expected, Delivered;
  }

  lemma HandKeeps(m: Match, s: State, w: nat)
    requires Inv(m, s) && Enabled(m, s, Hand(w))
    ensures Inv(m, After(m, s, Hand(w)))
  {
    hide Expected, Causes;
    HandHasCauses(m, s, w);
    var t := After(m, s, Hand(w));
    NoneDeliveredAhead(m, s);
    assert t.workers[w] == Playing(s.next);
    forall i: nat | i < t.next ensures Delivered(t, i) || InHand(t, i) || i in t.lost {
      if i == s.next {
        assert Held(t.workers[w]) == Some(i);
      } else if InHand(s, i) {
        StillInHand(s, t, w, i);
      } else {
        assert Delivered(s, i) ==> Delivered(t, i);
      }
    }
    forall v | 0 <= v < |t.workers| && Held(t.workers[v]).Some? ensures Open(t, Held(t.workers[v]).value) {
      assert v != w ==> Open(s, Held(s.workers[v]).value);
    }
    assert forall i: nat :: Delivered(t, i) <==> Delivered(s, i);
  }

  lemma NoneDeliveredAhead(m: Match, s: State)
    requires Inv(m, s)
    ensures !Delivered(s, s.next)
  {
  }

  /** A worker that held nothing, or not i, does not matter for i. */
  lemma StillInHand(s: State, t: State, w: nat, i: nat)
    requires w < |s.workers| && InHand(s, i) && Held(s.workers[w]) != Some(i)
    requires |t.workers| == |s.workers| && forall v | 0 <= v < |s.workers| && v != w :: t.workers[v] == s.workers[v]
    ensures InHand(t, i)
  {
    var v :| 0 <= v < |s.workers| && Held(s.workers[v]) == Some(i);
    assert Held(t.workers[v]) == Some(i);
  }

  lemma FinishHasCauses(m: Match, s: State, w: nat, interrupted: bool)
    requires Proper(m) && Inv(m, s) && Enabled(m, s, Finish(w, interrupted))
    ensures Causes(m, After(m, s, Finish(w, interrupted)))
  {
    hide Expected, Delivered;
  }

  lemma FinishKeeps(m: Match, s: State, w: nat, interrupted: bool)
    requires Proper(m) && Inv(m, s) && Enabled(m, s, Finish(w, interrupted))
    ensures Inv(m, After(m, s, Finish(w, interrupted)))
  {
    hide Expected, Causes, Exclusive, Everywhere, InHand, Delivered;
    FinishHasCauses(m, s, w, interrupted);
    var t := After(m, s, Finish(w, interrupted));
    var j := s.workers[w].index;
    assert Held(s.workers[w]) == Some(j) && Open(s, j);
    ExclusiveStays(s, t, w);
    EverywhereStays(s, t, w, j);
    SameDelivered(s, t);
    forall v | 0 <= v < |t.workers| && Held(t.workers[v]).Some? ensures Open(t, Held(t.workers[v]).value) {
      if v != w {
        OthersHoldOthers(s, v, w);
        assert Open(s, Held(s.workers[v]).value);
      }
    }
  }

  lemma SameDelivered(s: State, t: State)
    requires t.arrivals == s.arrivals
    ensures forall i: nat :: Delivered(t, i) <==> Delivered(s, i)
  {
  }

  lemma OthersHoldOthers(s: State, v: nat, w: nat)
    requires Exclusive(s) && v < |s.workers| && w < |s.workers| && v != w && Held(s.workers[v]).Some?
    ensures Held(s.workers[v]) != Held(s.workers[w])
  {
  }

  lemma ExclusiveStays(s: State, t: State, w: nat)
    requires Exclusive(s) && w < |s.workers| && |t.workers| == |s.workers|
    requires forall v | 0 <= v < |s.workers| && v != w :: t.workers[v] == s.workers[v]
    requires Held(t.workers[w]) == Held(s.workers[w]) || Held(t.workers[w]) == None
    ensures Exclusive(t)
  {
  }

  lemma EverywhereStays(s: State, t: State, w: nat, j: nat)
    requires Everywhere(s) && w < |s.workers| && Held(s.workers[w]) == Some(j)
    requires |t.workers| == |s.workers| && forall v | 0 <= v < |s.workers| && v != w :: t.workers[v] == s.workers[v]
    requires t.next == s.next && t.arrivals == s.arrivals && s.lost <= t.lost
    requires Held(t.workers[w]) == Some(j) || j in t.lost
    ensures Everywhere(t)
  {
    forall i: nat | i < t.next ensures Delivered(t, i) || InHand(t, i) || i in t.lost {
      if i != j && InHand(s, i) {
        StillInHand(s, t, w, i);
      }
      assert Delivered(s, i) ==> Delivered(t, i);
    }
  }

  lemma DeliverHasCauses(m: Match, s: State, w: nat)
    requires Inv(m, s) && Enabled(m, s, Deliver(w))
    ensures Causes(m, After(m, s, Deliver(w)))
  {
    hide Expected, Delivered;
    OneMoreResult(m.sprt, s.arrivals, s.workers[w].result);
  }

  lemma DeliverKeeps(m: Match, s: State, w: nat)
    requires Inv(m, s) && Enabled(m, s, Deliver(w))
    ensures Inv(m, After(m, s, Deliver(w)))
  {
    hide Expected, Causes, Delivered, Exclusive, Everywhere;
    DeliverHasCauses(m, s, w);
    var t := After(m, s, Deliver(w));
    var r := s.workers[w].result;
    assert Held(s.workers[w]) == Some(r.index) && Open(s, r.index);
    forall i: nat ensures Delivered(t, i) <==> Delivered(s, i) || i == r.index {
      OneMoreDelivered(s, t, r, i);
    }
    NotYetDelivered(s, r.index);
    ExclusiveStays(s, t, w);
    EverywhereDelivered(s, t, w, r);
    forall v | 0 <= v < |t.workers| && Held(t.workers[v]).Some? ensures Open(t, Held(t.workers[v]).value) {
      assert v != w && Open(s, Held(s.workers[v]).value);
      OthersHoldOthers(s, v, w);
    }
  }

  lemma EverywhereDelivered(s: State, t: State, w: nat, r: PairResult)
    requires Everywhere(s) && w < |s.workers| && Held(s.workers[w]) == Some(r.index)
    requires |t.workers| == |s.workers| && forall v | 0 <= v < |s.workers| && v != w :: t.workers[v] == s.workers[v]
    requires t.next == s.next && t.arrivals == s.arrivals + [r] && t.lost == s.lost
    ensures Everywhere(t)
  {
    hide Delivered;
    forall i: nat | i < t.next ensures Delivered(t, i) || InHand(t, i) || i in t.lost {
      OneMoreDelivered(s, t, r, i);
      if i != r.index && InHand(s, i) {
        StillInHand(s, t, w, i);
      }
    }
  }

  lemma NotYetDelivered(s: State, i: nat)
    requires !Delivered(s, i)
    ensures forall k | 0 <= k < |s.arrivals| :: s.arrivals[k].index != i
  {
  }

  lemma OneMoreDelivered(s: State, t: State, r: PairResult, i: nat)
    requires t.arrivals == s.arrivals + [r]
    ensures Delivered(t, i) <==> Delivered(s, i) || i == r.index
  {
    if Delivered(s, i) {
      var k :| 0 <= k < |s.arrivals| && s.arrivals[k].index == i;
      assert t.arrivals[k].index == i;
    }
    assert t.arrivals[|s.arrivals|].index == r.index;
  }

  lemma QuietHasCauses(m: Match, s: State, step: Step)
    requires Inv(m, s) && Enabled(m, s, step)
    requires step.CloseIndices? || step.Leave? || step.OuterCancel? || step.ReturnNow?
    ensures Causes(m, After(m, s, step))
  {
    hide Expected, Delivered, Exclusive, Everywhere;
  }

  lemma QuietKeeps(m: Match, s: State, step: Step)
    requires Inv(m, s) && Enabled(m, s, step)
    requires step.CloseIndices? || step.Leave? || step.OuterCancel? || step.ReturnNow?
    ensures Inv(m, After(m, s, step))
  {
    hide Expected, Causes, Exclusive, Everywhere;
    QuietHasCauses(m, s, step);
    var t := After(m, s, step);
    assert forall v | 0 <= v < |t.workers| :: Held(t.workers[v]) == Held(s.workers[v]);
    SameHands(s, t);
    assert forall i: nat :: Delivered(t, i) <==> Delivered(s, i);
    forall v | 0 <= v < |t.workers| && Held(t.workers[v]).Some? ensures Open(t, Held(t.workers[v]).value) {
      assert Open(s, Held(s.workers[v]).value);
    }
  }

  lemma SameHands(s: State, t: State)
    requires Exclusive(s) && Everywhere(s)
    requires |t.workers| == |s.workers| && forall v | 0 <= v < |s.workers| :: Held(t.workers[v]) == Held(s.workers[v])
    requires t.next == s.next && t.arrivals == s.arrivals && t.lost == s.lost
    ensures Exclusive(t) && Everywhere(t)
  {
    forall i: nat | i < t.next ensures Delivered(t, i) || InHand(t, i) || i in t.lost {
      if InHand(s, i) {
        var v :| 0 <= v < |s.workers| && Held(s.workers[v]) == Some(i);
        assert Held(t.workers[v]) == Some(i);
      }
      assert Delivered(s, i) ==> Delivered(t, i);
    }
  }

  lemma {:induction false} EveryScheduleIsSafe(m: Match, concurrency: nat, steps: seq<Step>)
    requires Proper(m)
    ensures Inv(m, Execute(m, concurrency, steps))
  {
    hide Inv, Enabled, After, Start;
    if steps == [] {
      StartIsSafe(m, concurrency);
    } else {
      var before := steps[..|steps| - 1];
      EveryScheduleIsSafe(m, concurrency, before);
      var s, step := Execute(m, concurrency, before), steps[|steps| - 1];
      if Enabled(m, s, step) {
        match step {
          case Hand(w) => HandKeeps(m, s, w);
          case Finish(w, interrupted) => FinishKeeps(m, s, w, interrupted);
          case Deliver(w) => DeliverKeeps(m, s, w);
          case _ => QuietKeeps(m, s, step);
        }
      }
    }
  }

  // ---- main results

  /** Under every schedule each pair is delivered at most once and as it would be played alone, and runPairs
      returns only when no worker is left. */
  lemma DeliveredAtMostOnce(m: Match, concurrency: nat, steps: seq<Step>)
    requires Proper(m)
    ensures var s := Execute(m, concurrency, steps);
      && (forall k, l | 0 <= k < l < |s.arrivals| :: s.arrivals[k].index != s.arrivals[l].index)
      && (forall k | 0 <= k < |s.arrivals| ::
        s.arrivals[k].index < m.pairs && s.arrivals[k] == m.play(s.arrivals[k].index))
      && (!s.done.Running? ==> forall w | 0 <= w < |s.workers| :: s.workers[w].Exited?)
  {
    hide Expected, Execute;
    EveryScheduleIsSafe(m, concurrency, steps);
  }

  /** A match is called off exactly when the caller ends it, a verdict is reached or a pair has failed; and it returns
      the caller's cancellation if there was one, else the failure of a pair that cannot be played and was not
      delivered, else success. */
  lemma StopsForACause(m: Match, concurrency: nat, steps: seq<Step>)
    requires Proper(m)
    ensures var s := Execute(m, concurrency, steps);
      && (s.cancelled <==> s.outer || Expected(m.sprt, s.arrivals).verdict != Inconclusive || s.error.Some?)
      && (!s.done.Running? ==> (s.done.Cancelled? <==> s.outer))
      && (s.done.Failed? ==> s.done.failure.Unusable? && s.done.failure.index in m.unplayable)
      && (s.done.Failed? ==> !Delivered(s, s.done.failure.index))
  {
    hide Expected, Execute, Exclusive, Everywhere;
    EveryScheduleIsSafe(m, concurrency, steps);
  }

  /** A run that returns success without a verdict has delivered every pair exactly once. */
  lemma UndecidedMeansComplete(m: Match, concurrency: nat, steps: seq<Step>)
    requires Proper(m)
    requires var s := Execute(m, concurrency, steps);
      s.done.Success? && Expected(m.sprt, s.arrivals).verdict == Inconclusive
    ensures forall i: nat | i < m.pairs :: Delivered(Execute(m, concurrency, steps), i)
  {
    hide Expected, Execute;
    EveryScheduleIsSafe(m, concurrency, steps);
    var s := Execute(m, concurrency, steps);
    assert s.workers[0].Exited?;
    forall i: nat | i < m.pairs ensures Delivered(s, i) {
      NoOneHolds(s, i);
    }
  }

  lemma NoOneHolds(s: State, i: nat)
    requires forall w | 0 <= w < |s.workers| :: s.workers[w].Exited?
    ensures !InHand(s, i)
  {
  }

  /** The tally of pairs 0 to n - 1, played one after the other. */
  function Sequential(m: Match, n: nat): PairResult {
    if n == 0 then PairResult(0, 0, 0, 0, 0)
    else
      var t, r := Sequential(m, n - 1), m.play(n - 1);
      PairResult(0, t.wins + r.wins, t.losses + r.losses, t.draws + r.draws, t.nodes + r.nodes)
  }

  predicate Arrived(rs: seq<PairResult>, i: nat) { exists k :: 0 <= k < |rs| && rs[k].index == i }

  lemma {:induction false} TotalWithout(rs: seq<PairResult>, k: nat)
    requires k < |rs|
    ensures var t, u, r := Total(rs), Total(rs[..k] + rs[k + 1..]), rs[k];
      t.wins == u.wins + r.wins && t.losses == u.losses + r.losses && t.draws == u.draws + r.draws &&
        t.nodes == u.nodes + r.nodes
    decreases |rs|
  {
    var n := |rs| - 1;
    var out := rs[..k] + rs[k + 1..];
    if k == n {
      assert out == rs[..n];
    } else {
      TotalWithout(rs[..n], k);
      assert out[..|out| - 1] == rs[..n][..k] + rs[..n][k + 1..] && out[|out| - 1] == rs[n];
    }
  }

  /** Delivered once each in any order, the pairs below n sum to the sequential tally. */
  lemma {:induction false} OrderDoesNotMatter(m: Match, rs: seq<PairResult>, n: nat)
    requires Proper(m)
    requires forall k | 0 <= k < |rs| :: rs[k].index < n && rs[k] == m.play(rs[k].index)
    requires forall k, l | 0 <= k < l < |rs| :: rs[k].index != rs[l].index
    requires forall i: nat | i < n :: Arrived(rs, i)
    ensures Total(rs) == Sequential(m, n)
    decreases n
  {
    hide Total;
    assert rs == [] || rs[0].index < n;
    if n == 0 {
      NoTotal();
    } else {
      assert Arrived(rs, n - 1);
      var k :| 0 <= k < |rs| && rs[k].index == n - 1;
      var out := rs[..k] + rs[k + 1..];
      TotalWithout(rs, k);
      LeavingOneOut(m, rs, k, n);
      OrderDoesNotMatter(m, out, n - 1);
      TotalIndex(rs);
    }
  }

  lemma LeavingOneOut(m: Match, rs: seq<PairResult>, k: nat, n: nat)
    requires 0 < n && k < |rs| && rs[k].index == n - 1
    requires forall j | 0 <= j < |rs| :: rs[j].index < n && rs[j] == m.play(rs[j].index)
    requires forall j, l | 0 <= j < l < |rs| :: rs[j].index != rs[l].index
    requires forall i: nat | i < n :: Arrived(rs, i)
    ensures var out := rs[..k] + rs[k + 1..];
      && (forall j | 0 <= j < |out| :: out[j].index < n - 1 && out[j] == m.play(out[j].index))
      && (forall j, l | 0 <= j < l < |out| :: out[j].index != out[l].index)
      && (forall i: nat | i < n - 1 :: Arrived(out, i))
  {
    var out := rs[..k] + rs[k + 1..];
    forall j | 0 <= j < |out| ensures out[j] == rs[if j < k then j else j + 1] {
    }
    forall i: nat | i < n - 1 ensures Arrived(out, i) {
      assert Arrived(rs, i);
      var l :| 0 <= l < |rs| && rs[l].index == i;
      assert out[if l < k then l else l - 1].index == i;
    }
  }

  lemma NoTotal()
    ensures Total([]) == PairResult(0, 0, 0, 0, 0)
  {
  }

  lemma TotalIndex(rs: seq<PairResult>)
    ensures Total(rs).index == 0
  {
  }

  /** Hence the tally of a match that ran to completion does not depend on how its workers were scheduled. */
  lemma CompleteTallyIsScheduleIndependent(m: Match, concurrency: nat, steps: seq<Step>)
    requires Proper(m)
    requires var s := Execute(m, concurrency, steps);
      s.done.Success? && Expected(m.sprt, s.arrivals).verdict == Inconclusive
    ensures Total(Execute(m, concurrency, steps).arrivals) == Sequential(m, m.pairs)
  {
    hide Expected, Execute;
    DeliveredAtMostOnce(m, concurrency, steps);
    UndecidedMeansComplete(m, concurrency, steps);
    var s := Execute(m, concurrency, steps);
    forall i: nat | i < m.pairs ensures Arrived(s.arrivals, i) {
      assert Delivered(s, i);
    }
    OrderDoesNotMatter(m, s.arrivals, m.pairs);
  }

  // ---- progress

  function Weight(w: Worker): nat {
    match w
    case Exited => 0
    case Idle => 1
    case Delivering(_) => 2
    case Playing(_) => 3
  }

  function Weights(ws: seq<Worker>): nat {
    if ws == [] then 0 else Weights(ws[..|ws| - 1]) + Weight(ws[|ws| - 1])
  }

  /** How much there is left to do: pairs not handed out, workers not gone, the channel and the call itself. */
  function Remaining(m: Match, s: State): int {
    3 * (m.pairs - s.next) + Weights(s.workers) + (if s.closed then 0 else 1) + if s.done.Running? then 1 else 0
  }

  lemma {:induction false} WeightsChange(ws: seq<Worker>, w: nat, x: Worker)
    requires w < |ws|
    ensures Weights(ws[w := x]) == Weights(ws) - Weight(ws[w]) + Weight(x)
  {
    var n := |ws| - 1;
    if w < n {
      WeightsChange(ws[..n], w, x);
      assert ws[w := x][..n] == ws[..n][w := x];
    } else {
      assert ws[w := x][..n] == ws[..n];
    }
  }

  /** Every step lowers what is left to do, except that the caller may cancel, once. */
  lemma StepLowers(m: Match, s: State, step: Step)
    requires Enabled(m, s, step)
    ensures step.OuterCancel? ==> Remaining(m, After(m, s, step)) == Remaining(m, s) && !s.outer
    ensures !step.OuterCancel? ==> Remaining(m, After(m, s, step)) < Remaining(m, s)
  {
    hide Expected, Weights;
    match step {
      case Hand(w) => WeightsChange(s.workers, w, Playing(s.next));
      case Leave(w) => WeightsChange(s.workers, w, Exited);
      case Deliver(w) => WeightsChange(s.workers, w, Idle);
      case Finish(w, interrupted) =>
        WeightsChange(s.workers, w, Exited);
        WeightsChange(s.workers, w, Delivering(m.play(s.workers[w].index)));
      case _ =>
    }
  }

  /** While the call is running somebody can take a step without any cancellation: no deadlock. */
  lemma NeverStuck(m: Match, s: State) returns (step: Step)
    requires s.done.Running? && s.next <= m.pairs
    ensures Enabled(m, s, step) && !step.OuterCancel?
  {
    if w :| 0 <= w < |s.workers| && !s.workers[w].Exited? {
      match s.workers[w] {
        case Playing(_) => step := Finish(w, false);
        case Delivering(_) => step := Deliver(w);
        case Idle => step := if s.closed then Leave(w) else if s.next < m.pairs then Hand(w) else CloseIndices;
      }
    } else {
      step := ReturnNow;
    }
  }

  /** How many of the steps were taken, the caller's cancellation apart. */
  function Taken(m: Match, concurrency: nat, steps: seq<Step>): nat {
    if steps == [] then 0
    else
      var n := |steps| - 1;
      Taken(m, concurrency, steps[..n]) +
        if Enabled(m, Execute(m, concurrency, steps[..n]), steps[n]) && !steps[n].OuterCancel? then 1 else 0
  }

  /** At the start: three for every pair, one for every worker, one for the channel and one for the call. */
  lemma RemainingAtStart(m: Match, concurrency: nat)
    ensures Remaining(m, Start(m, concurrency)) == 3 * m.pairs + |Start(m, concurrency).workers| + 2
  {
    IdleWeights(Start(m, concurrency).workers);
  }

  lemma {:induction false} IdleWeights(ws: seq<Worker>)
    requires forall w | 0 <= w < |ws| :: ws[w].Idle?
    ensures Weights(ws) == |ws|
  {
    if ws != [] {
      IdleWeights(ws[..|ws| - 1]);
    }
  }

  /** No schedule takes more steps than that before the call has returned. */
  lemma {:induction false} StepsAreBounded(m: Match, concurrency: nat, steps: seq<Step>)
    requires Proper(m)
    ensures Taken(m, concurrency, steps) + Remaining(m, Execute(m, concurrency, steps)) <=
      3 * m.pairs + |Start(m, concurrency).workers| + 2
    ensures 0 <= Remaining(m, Execute(m, concurrency, steps))
  {
    hide Enabled, After, Start, Remaining;
    RemainingAtStart(m, concurrency);
    EveryScheduleIsSafe(m, concurrency, steps);
    RemainingIsNatural(m, Execute(m, concurrency, steps));
    if steps != [] {
      var n := |steps| - 1;
      StepsAreBounded(m, concurrency, steps[..n]);
      var s := Execute(m, concurrency, steps[..n]);
      if Enabled(m, s, steps[n]) { StepLowers(m, s, steps[n]); }
    }
  }

  lemma RemainingIsNatural(m: Match, s: State)
    requires Inv(m, s)
    ensures Remaining(m, s) >= 0 && s.next <= m.pairs
  {
  }

  /** So runPairs always returns: somebody can step until it has, and only so many steps can be taken. One way
      on from any reachable state, without any cancellation. */
  lemma {:induction false} AlwaysReturns(m: Match, concurrency: nat, steps: seq<Step>) returns (more: seq<Step>)
    requires Proper(m)
    ensures !Execute(m, concurrency, steps + more).done.Running?
    ensures forall step | step in more :: !step.OuterCancel?
    ensures |more| <= Remaining(m, Execute(m, concurrency, steps))
    decreases Remaining(m, Execute(m, concurrency, steps))
  {
    hide Enabled, After, Remaining;
    var s := Execute(m, concurrency, steps);
    EveryScheduleIsSafe(m, concurrency, steps);
    RemainingIsNatural(m, s);
    if !s.done.Running? {
      more := [];
      assert steps + more == steps;
    } else {
      var step := NeverStuck(m, s);
      StepLowers(m, s, step);
      assert (steps + [step])[..|steps|] == steps;
      EveryScheduleIsSafe(m, concurrency, steps + [step]);
      RemainingIsNatural(m, Execute(m, concurrency, steps + [step]));
      var rest := AlwaysReturns(m, concurrency, steps + [step]);
      more := [step] + rest;
      assert steps + more == steps + [step] + rest;
    }
  }
}
