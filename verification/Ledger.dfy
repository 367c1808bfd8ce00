/** The coordinator's bookkeeping as a value: what each critical section of the coordinator does to it. */
module Ledgers {
  import opened UnitNames

  datatype Batch = Batch(unit: string, generation: nat, uri: string, size: int, checksum: string, positions: int,
      games: int)

  datatype Entry = Entry(unit: string, uri: string, positions: int, games: int)

  /** live holds the indices published in this run, covered those found on disk, pending the batches whose
      handler stands between its two critical sections. */
  datatype Ledger = Ledger(generation: nat, resolved: set<string>, covered: set<nat>, live: set<nat>, nextIndex: nat,
    pending: map<string, Batch>, counted: seq<Entry>)

  function Empty(generation: nat): Ledger { Ledger(generation, {}, {}, {}, 0, map[], []) }

  function Positions(entries: seq<Entry>): int {
    if entries == [] then 0 else Positions(entries[..|entries| - 1]) + entries[|entries| - 1].positions
  }

  function Games(entries: seq<Entry>): int {
    if entries == [] then 0 else Games(entries[..|entries| - 1]) + entries[|entries| - 1].games
  }

  function URIs(entries: seq<Entry>): seq<string> { seq(|entries|, i requires 0 <= i < |entries| => entries[i].uri) }

  predicate Distinct(entries: seq<Entry>) {
    forall i, j | 0 <= i < j < |entries| :: entries[i].unit != entries[j].unit
  }

  /** Each unit is counted at most once, only after being resolved, and never while its check is running;
      published and covered indices split the prefix below nextIndex between them. */
  ghost predicate Sound(l: Ledger) {
    && Distinct(l.counted)
    && (forall e | e in l.counted :: e.unit in l.resolved && e.unit !in l.pending)
    && (forall u | u in l.pending :: u in l.resolved && l.pending[u].unit == u)
    && (forall i | i in l.covered :: UnitID(l.generation, i) in l.resolved)
    && l.live !! l.covered
    && (forall i: nat :: i < l.nextIndex <==> i in l.live || (i in l.covered && i < l.nextIndex))
  }

  /** The first critical section of handleBatch. */
  function Claim(l: Ledger, b: Batch): Ledger {
    if b.generation != l.generation || b.unit in l.resolved then l
    else l.(resolved := l.resolved + {b.unit}, pending := l.pending[b.unit := b])
  }

  predicate Claims(l: Ledger, b: Batch) { b.generation == l.generation && b.unit !in l.resolved }

  /** What follows: nothing for an empty or unverifiable batch, else the second critical section. */
  function Settle(l: Ledger, unit: string, verified: bool): Ledger
    requires unit in l.pending
  {
    var b := l.pending[unit];
    var released := l.(pending := l.pending - {unit});
    if b.positions == 0 || b.uri == "" || !verified then released
    else released.(counted := l.counted + [Entry(unit, b.uri, b.positions, b.games)])
  }

  /** One valid artifact found by resume. */
  function Cover(l: Ledger, index: nat, uri: string, positions: int): Ledger {
    var id := UnitID(l.generation, index);
    if id in l.resolved then l
    else l.(resolved := l.resolved + {id}, covered := l.covered + {index},
      counted := l.counted + [Entry(id, uri, positions, 0)])
  }

  /** topUp's walk forward over an index: covered ones are stepped over, others are published. */
  function Skip(l: Ledger): Ledger
    requires l.nextIndex in l.covered
  {
    l.(nextIndex := l.nextIndex + 1)
  }

  function Publish(l: Ledger): Ledger
    requires l.nextIndex !in l.covered
  {
    l.(nextIndex := l.nextIndex + 1, live := l.live + {l.nextIndex})
  }

  function Handle(l: Ledger, b: Batch, verified: bool): Ledger {
    if Claims(l, b) then Settle(Claim(l, b), b.unit, verified) else l
  }

  // ---- every critical section keeps the ledger sound

  lemma ClaimKeepsSound(l: Ledger, b: Batch)
    requires Sound(l)
    ensures Sound(Claim(l, b))
  {
  }

  lemma SettleKeepsSound(l: Ledger, unit: string, verified: bool)
    requires Sound(l) && unit in l.pending
    ensures Sound(Settle(l, unit, verified))
  {
    var m := Settle(l, unit, verified);
    assert forall e | e in m.counted :: e in l.counted || e.unit == unit;
  }

  lemma CoverKeepsSound(l: Ledger, index: nat, uri: string, positions: int)
    requires Sound(l) && l.live == {} && l.nextIndex == 0
    ensures Sound(Cover(l, index, uri, positions))
  {
    var m := Cover(l, index, uri, positions);
    assert forall e | e in m.counted :: e in l.counted || e.unit == UnitID(l.generation, index);
  }

  lemma WalkKeepsSound(l: Ledger)
    requires Sound(l)
    ensures l.nextIndex in l.covered ==> Sound(Skip(l))
    ensures l.nextIndex !in l.covered ==> Sound(Publish(l)) && l.nextIndex !in l.live
  {
  }

  // ---- outstanding work

  /** Published units that have not reported back. */
  function Outstanding(l: Ledger): set<nat> { set i | i in l.live && UnitID(l.generation, i) !in l.resolved }

  /** issued - len(resolved), as topUp computes it. */
  function Balance(l: Ledger): int { |l.live| + |l.covered| - |l.resolved| }

  lemma {:induction false} IDsAreAsMany(generation: nat, indices: set<nat>) returns (ids: set<string>)
    ensures ids == set i | i in indices :: UnitID(generation, i)
    ensures |ids| == |indices|
  {
    ids := {};
    if indices != {} {
      var i :| i in indices;
      var rest := IDsAreAsMany(generation, indices - {i});
      ids := rest + {UnitID(generation, i)};
      if UnitID(generation, i) in rest {
        var j :| j in indices - {i} && UnitID(generation, j) == UnitID(generation, i);
        UnitIDsDiffer(generation, i, generation, j);
      }
    }
  }

  /** The balance never overstates the work in flight: strays, duplicates and units resolved without being
      published can only make it smaller. */
  lemma BalanceIsSafe(l: Ledger)
    requires Sound(l)
    ensures Balance(l) <= |Outstanding(l)|
  {
    var back := l.live - Outstanding(l);
    var ids := IDsAreAsMany(l.generation, back + l.covered);
    assert ids <= l.resolved;
    Counts(ids, l.resolved);
    assert |back + l.covered| == |back| + |l.covered|;
    assert l.live == back + Outstanding(l);
  }

  lemma {:induction false} Counts<T>(a: set<T>, b: set<T>)
    requires a <= b
    ensures |a| <= |b|
  {
    assert b == a + (b - a);
  }

  // ---- any stream of batches

  function HandleAll(l: Ledger, stream: seq<Batch>, verified: Batch -> bool): Ledger {
    if stream == [] then l
    else Handle(HandleAll(l, stream[..|stream| - 1], verified), stream[|stream| - 1], verified(stream[|stream| - 1]))
  }

  /** The units of this generation that a stream reports on. */
  function Reported(generation: nat, stream: seq<Batch>): set<string> {
    set b | b in stream && b.generation == generation :: b.unit
  }

  ghost function SumOver(units: set<string>, worth: string -> int): int {
    if units == {} then 0
    else
      var u :| u in units;
      worth(u) + SumOver(units - {u}, worth)
  }

  lemma {:induction false} SumWithout(units: set<string>, worth: string -> int, u: string)
    requires u in units
    ensures SumOver(units, worth) == worth(u) + SumOver(units - {u}, worth)
  {
    var v :| v in units && SumOver(units, worth) == worth(v) + SumOver(units - {v}, worth);
    if u != v {
      SumWithout(units - {v}, worth, u);
      SumWithout(units - {u}, worth, v);
      assert units - {u} - {v} == units - {v} - {u};
    }
  }

  /** Positions that a batch adds if it is counted at all. */
  function Contribution(b: Batch, verified: Batch -> bool): int {
    if b.positions == 0 || b.uri == "" || !verified(b) then 0 else b.positions
  }

  /** However often and in whatever order batches arrive, the total is the sum over the distinct units newly
      reported, each taken once. */
  lemma {:induction false} StreamTotal(l: Ledger, stream: seq<Batch>, verified: Batch -> bool, worth: string -> int)
    requires forall b | b in stream && b.generation == l.generation :: Contribution(b, verified) == worth(b.unit)
    ensures var after := HandleAll(l, stream, verified);
      && after.generation == l.generation
      && after.resolved == l.resolved + Reported(l.generation, stream)
      && Positions(after.counted) == Positions(l.counted) + SumOver(Reported(l.generation, stream) - l.resolved, worth)
  {
    hide Handle, Contribution, SumOver, Reported;
    if stream == [] {
      NothingReported(l.generation);
      NoSum({} - l.resolved, worth);
    } else {
      var rest, b := stream[..|stream| - 1], stream[|stream| - 1];
      StreamTotal(l, rest, verified, worth);
      HandleCounts(HandleAll(l, rest, verified), b, verified);
      assert stream == rest + [b];
      OneMoreReport(l.generation, rest, b);
      var before, after := Reported(l.generation, rest), Reported(l.generation, stream);
      if b.generation == l.generation && b.unit !in l.resolved + before {
        SumWithout(after - l.resolved, worth, b.unit);
        assert after - l.resolved - {b.unit} == before - l.resolved;
      } else {
        assert after - l.resolved == before - l.resolved;
      }
    }
  }

  lemma NothingReported(generation: nat)
    ensures Reported(generation, []) == {}
  {
  }

  lemma NoSum(units: set<string>, worth: string -> int)
    ensures units == {} ==> SumOver(units, worth) == 0
  {
  }

  lemma OneMoreReport(generation: nat, rest: seq<Batch>, b: Batch)
    ensures Reported(generation, rest + [b]) == Reported(generation, rest) + if b.generation == generation then {b.unit}
      else {}
  {
  }

  /** One batch: a claimed unit is resolved and adds its contribution; anything else changes nothing. */
  lemma HandleCounts(l: Ledger, b: Batch, verified: Batch -> bool)
    ensures var after := Handle(l, b, verified(b));
      && after.generation == l.generation
      && after.resolved == l.resolved + (if b.generation == l.generation then {b.unit} else {})
      && Positions(after.counted) == Positions(l.counted) + if Claims(l, b) then Contribution(b, verified) else 0
  {
    var after := Handle(l, b, verified(b));
    assert after.counted == l.counted || after.counted[..|after.counted| - 1] == l.counted;
  }
}
