/** The coordinator (coordinator.go): issues work, counts what comes back, announces the dataset. */
module CoordinatorState {
  import opened Squares
  import opened UnitNames
  import opened DataFile
  import opened Ledgers

  /** A work unit's varying part; games, plies, nodes and network are the configuration's. */
  datatype WorkUnit = WorkUnit(id: string, generation: nat, seed: nat)

  datatype Dataset = Dataset(generation: nat, uris: seq<string>, positions: int)

  /** A publish is stored and acknowledged, stored though its caller sees an error, or refused. */
  datatype Answer = Accepted | ReplyLost | Refused

  /** The two durable streams that the coordinator writes, answering as the broker happens to. */
  class Bus {
    var work: seq<WorkUnit>
    var datasets: seq<Dataset>
    var calls: nat
    const answers: nat -> Answer

    constructor (answers: nat -> Answer)
      ensures work == [] && datasets == []
    {
      this.answers := answers;
      work, datasets, calls := [], [], 0;
    }

    method PublishWork(u: WorkUnit) returns (ok: bool)
      modifies this`work, this`calls
      ensures calls == old(calls) + 1 && (ok <==> answers(old(calls)).Accepted?)
      ensures ok ==> work == old(work) + [u]
      ensures !ok ==> work == old(work) || work == old(work) + [u]
    {
      var answer := answers(calls);
      calls := calls + 1;
      if !answer.Refused? {
        work := work + [u];
      }
      return answer.Accepted?;
    }

    method PublishDataset(d: Dataset) returns (ok: bool)
      modifies this`datasets, this`calls
      ensures calls == old(calls) + 1 && (ok <==> answers(old(calls)).Accepted?)
      ensures ok ==> datasets == old(datasets) + [d]
      ensures !ok ==> datasets == old(datasets) || datasets == old(datasets) + [d]
    {
      var answer := answers(calls);
      calls := calls + 1;
      if !answer.Refused? {
        datasets := datasets + [d];
      }
      return answer.Accepted?;
    }
  }

  /** The artifact store as one reader sees it: contents, files whose reading fails, the checksum. */
  datatype Store = Store(files: map<string, Bytes>, failing: set<string>, digest: Bytes -> string)

  predicate Readable(s: Store, uri: string) { uri in s.files && uri !in s.failing }

  /** store.Verify. */
  predicate Verifies(s: Store, b: Batch) {
    Readable(s, b.uri) && s.digest(s.files[b.uri]) == b.checksum && |s.files[b.uri]| == b.size
  }

  /** What resume learns of one listed file: a valid artifact of this generation, or nothing. */
  function Scanned(generation: nat, s: Store, uri: string): Option<(nat, nat)> {
    match UnitIndex(generation, uri)
    case None => None
    case Some(index) =>
      if !Readable(s, uri) then None
      else match Count(s.files[uri])
           case None => None
           case Some(n) => Some((index, n))
  }

  /** The listed files applied in order. */
  function CoverAll(l: Ledger, s: Store, uris: seq<string>): Ledger {
    if uris == [] then l
    else
      var before := CoverAll(l, s, uris[..|uris| - 1]);
      var uri := uris[|uris| - 1];
      match Scanned(l.generation, s, uri)
      case None => before
      case Some(found) => Cover(before, found.0, uri, found.1)
  }

  /** A resumed coordinator knows every unit with a valid artifact, and had reported each before or covers it. */
  lemma {:induction false} CoverAllKnows(l: Ledger, s: Store, uris: seq<string>)
    requires Sound(l) && l.live == {} && l.nextIndex == 0
    ensures var m := CoverAll(l, s, uris);
      && Sound(m) && m.live == {} && m.nextIndex == 0 && m.generation == l.generation && m.pending == l.pending
      && l.resolved <= m.resolved && l.covered <= m.covered
      && (forall uri | uri in uris && Scanned(l.generation, s, uri).Some? ::
            UnitID(l.generation, Scanned(l.generation, s, uri).value.0) in m.resolved)
      && (forall i | i in m.covered - l.covered :: UnitID(l.generation, i) !in l.resolved)
  {
    hide Sound, Scanned, UnitID;
    if uris != [] {
      var before, uri := uris[..|uris| - 1], uris[|uris| - 1];
      CoverAllKnows(l, s, before);
      assert uris == before + [uri];
      if Scanned(l.generation, s, uri).Some? {
        CoverKeepsSound(CoverAll(l, s, before), Scanned(l.generation, s, uri).value.0, uri,
          Scanned(l.generation, s, uri).value.1);
      }
    }
  }

  datatype Walk = Passed | Sent | Failed

  datatype Event = Report(batch: Batch, verified: bool) | Tick(alive: nat -> bool) | Cancel | Wake

  /** The broker answered one of the calls from lo up to hi with an error. */
  ghost predicate Disturbed(answers: nat -> Answer, lo: nat, hi: nat) {
    exists k: nat | lo <= k < hi :: !answers(k).Accepted?
  }

  lemma Later(answers: nat -> Answer, first: nat, lo: nat, hi: nat)
    requires first <= lo
    ensures Disturbed(answers, lo, hi) ==> Disturbed(answers, first, hi)
  {
  }

  /** Nothing stops the loop before its last event, and that event looks whether the target is reached. */
  ghost predicate RunsToAWake(script: seq<Event>) {
    && (forall e | e in script :: !e.Cancel? && (e.Tick? ==> forall n: nat :: e.alive(n)))
    && (script == [] || script[|script| - 1].Wake?)
  }

  class Coordinator {
    const generation: nat
    const target: nat
    const unitsInFlight: nat
    const seedOf: nat -> nat

    var resolved: set<string>
    var artifacts: seq<string>
    var positions: int
    var games: int
    var issued: int
    var nextIndex: nat
    var covered: set<nat>
    var done: bool
    ghost var ledger: Ledger

    ghost predicate Valid()
      reads this
    {
      && Sound(ledger)
      && ledger.generation == generation
      && ledger.resolved == resolved
      && ledger.covered == covered
      && ledger.nextIndex == nextIndex
      && issued == |ledger.live| + |covered|
      && artifacts == URIs(ledger.counted)
      && positions == Positions(ledger.counted)
      && games == Games(ledger.counted)
      && (done ==> positions >= target)
    }

    constructor (generation: nat, target: nat, unitsInFlight: nat, seedOf: nat -> nat)
      requires target > 0 && unitsInFlight > 0
      ensures Valid() && ledger == Empty(generation) && !done
      ensures this.generation == generation && this.target == target && this.unitsInFlight == unitsInFlight
    {
      this.generation, this.target, this.unitsInFlight, this.seedOf := generation, target, unitsInFlight, seedOf;
      resolved, covered, artifacts := {}, {}, [];
      positions, games, issued, nextIndex, done := 0, 0, 0, 0, false;
      ledger := Empty(generation);
    }

    function Unit(index: nat): WorkUnit { WorkUnit(UnitID(generation, index), generation, seedOf(index)) }

    /** The units of the indices from lo up to hi that were not found on disk. */
    function Units(lo: nat, hi: nat, skipped: set<nat>): seq<WorkUnit>
      requires lo <= hi
    {
      if lo == hi then []
      else Units(lo, hi - 1, skipped) + if hi - 1 in skipped then [] else [Unit(hi - 1)]
    }

    lemma NoUnits(lo: nat, skipped: set<nat>)
      ensures Units(lo, lo, skipped) == []
    {
    }

    lemma OneMoreUnit(lo: nat, hi: nat, skipped: set<nat>)
      requires lo <= hi
      ensures Units(lo, hi + 1, skipped) == Units(lo, hi, skipped) + if hi in skipped then [] else [Unit(hi)]
    {
    }

    lemma BalanceOf()
      requires Valid()
      ensures issued - |resolved| == Balance(ledger) && Sound(ledger) && nextIndex == ledger.nextIndex &&
        covered == ledger.covered
    {
    }

    /** handleBatch under the lock: a unit of this generation is claimed once, before anything is known of its batch. */
    method Receive(b: Batch) returns (claimed: bool)
      requires Valid()
      modifies this`resolved, this`ledger
      ensures Valid() && ledger == Claim(old(ledger), b)
      ensures claimed == Claims(old(ledger), b)
    {
      ClaimKeepsSound(ledger, b);
      ledger := Claim(ledger, b);
      if b.generation != generation || b.unit in resolved {
        return false;
      }
      resolved := resolved + {b.unit};
      return true;
    }

    /** The rest of handleBatch, once for every claimed batch, interleaved with anything. */
    method Conclude(b: Batch, verified: bool)
      requires Valid() && b.unit in ledger.pending && ledger.pending[b.unit] == b
      requires b.positions >= 0
      modifies this`artifacts, this`positions, this`games, this`done, this`ledger
      ensures Valid() && ledger == Settle(old(ledger), b.unit, verified)
      ensures old(done) ==> done
      ensures old(done) || positions == old(positions) || (done <==> positions >= target)
      ensures old(done) || old(positions) < target ==> (done <==> positions >= target)
    {
      hide Sound, Positions, Games, URIs;
      SettleKeepsSound(ledger, b.unit, verified);
      OneMoreEntry(ledger.counted, Entry(b.unit, b.uri, b.positions, b.games));
      ledger := Settle(ledger, b.unit, verified);
      if b.positions == 0 || b.uri == "" {
        return;
      }
      if !verified {
        return;
      }
      artifacts := artifacts + [b.uri];
      positions := positions + b.positions;
      games := games + b.games;
      if positions >= target {
        done := true;
      }
    }

    method HandleBatch(b: Batch, verified: bool)
      requires Valid() && b.positions >= 0
      modifies this`resolved, this`artifacts, this`positions, this`games, this`done, this`ledger
      ensures Valid() && ledger == Handle(old(ledger), b, verified) && ledger.live == old(ledger).live
      ensures old(done) ==> done
      ensures old(done) || old(positions) < target ==> (done <==> positions >= target)
    {
      hide Sound;
      var claimed := Receive(b);
      if claimed {
        Conclude(b, verified);
      }
    }

    /** One turn of that loop: step over a covered index, or publish its unit, giving the index back when
        the publish fails. */
    method WalkOn(bus: Bus) returns (walk: Walk)
      requires Valid()
      modifies this`nextIndex, this`issued, this`ledger, bus`work, bus`calls
      ensures Valid()
      ensures walk.Passed? ==>
        old(nextIndex) in covered && ledger == Skip(old(ledger)) && issued == old(issued) && bus.work == old(bus.work)
      ensures walk.Sent? ==>
        old(nextIndex) !in covered && ledger == Publish(old(ledger)) && issued == old(issued) + 1 &&
          bus.work == old(bus.work) + [Unit(old(nextIndex))]
      ensures old(bus.calls) <= bus.calls
      ensures walk.Failed? ==>
        && Disturbed(bus.answers, old(bus.calls), bus.calls)
        && old(nextIndex) !in covered && ledger == old(ledger) && issued == old(issued)
        && (bus.work == old(bus.work) || bus.work == old(bus.work) + [Unit(old(nextIndex))])
    {
      hide Sound, Positions, Games, URIs;
      WalkKeepsSound(ledger);
      var index := nextIndex;
      nextIndex := nextIndex + 1;
      if index in covered {
        ledger := Skip(ledger);
        return Passed;
      }
      var published := bus.PublishWork(Unit(index));
      if !published {
        nextIndex := nextIndex - 1;
        return Failed;
      }
      ledger := Publish(ledger);
      issued := issued + 1;
      return Sent;
    }

    /** Issues exactly the units that were missing when it was called, and no more when it fails; one that failed
        to be reported as published may have been published all the same. alive(n) says whether the context still
        stands at the n-th turn of the loop. */
    method TopUp(bus: Bus, alive: nat -> bool) returns (ok: bool)
      requires Valid()
      modifies this`nextIndex, this`issued, this`ledger, bus`work, bus`calls
      ensures Valid()
      ensures old(nextIndex) <= nextIndex
      ensures ledger == old(ledger).(nextIndex := nextIndex, live := ledger.live) && old(ledger.live) <= ledger.live
      ensures ok ==> |Outstanding(ledger)| >= unitsInFlight
      ensures ok ==> bus.work == old(bus.work) + Units(old(nextIndex), nextIndex, covered)
      ensures ok ==> |bus.work| == |old(bus.work)| + Max(0, unitsInFlight - Balance(old(ledger)))
      ensures ok ==> Balance(ledger) == Max(unitsInFlight, Balance(old(ledger)))
      ensures old(bus.calls) <= bus.calls
      ensures !ok ==> (exists n: nat :: !alive(n)) || Disturbed(bus.answers, old(bus.calls), bus.calls)
      ensures !ok ==> |old(bus.work)| <= |bus.work| <= |old(bus.work)| + Max(0, unitsInFlight - Balance(old(ledger)))
      ensures !ok ==>
        || bus.work == old(bus.work) + Units(old(nextIndex), nextIndex, covered)
        || bus.work == old(bus.work) + Units(old(nextIndex), nextIndex, covered) + [Unit(nextIndex)]
    {
      hide Sound, Positions, Games, URIs, Outstanding, Units, Unit, Valid, Balance, Ahead;
      BalanceOf();
      var needed := unitsInFlight - (issued - |resolved|);
      var issuedThisCall := 0;
      var turn: nat := 0;
      NoUnits(nextIndex, covered);
      while issuedThisCall < needed
        invariant Valid()
        invariant old(nextIndex) <= nextIndex
        invariant ledger == old(ledger).(nextIndex := nextIndex, live := ledger.live) && old(ledger.live) <= ledger.live
        invariant Balance(ledger) == Balance(old(ledger)) + issuedThisCall
        invariant old(bus.calls) <= bus.calls
        invariant 0 <= issuedThisCall <= Max(0, needed) && |bus.work| == |old(bus.work)| + issuedThisCall
        invariant bus.work == old(bus.work) + Units(old(nextIndex), nextIndex, covered)
        decreases needed - issuedThisCall, |Ahead(covered, nextIndex)|
      {
        if !alive(turn) {
          return false;
        }
        turn := turn + 1;
        OneMoreUnit(old(nextIndex), nextIndex, covered);
        BalanceOf();
        FewerAhead(covered, nextIndex);
        var walk := WalkOn(bus);
        BalanceOf();
        if walk.Failed? {
          return false;
        }
        if walk.Sent? {
          issuedThisCall := issuedThisCall + 1;
        }
      }
      BalanceOf();
      BalanceIsSafe(ledger);
      return true;
    }

    method TakeOver(index: nat, uri: string, n: nat)
      requires Valid() && ledger.live == {} && nextIndex == 0
      modifies this`resolved, this`covered, this`artifacts, this`positions, this`issued, this`ledger
      ensures Valid() && ledger == Cover(old(ledger), index, uri, n) && ledger.live == {}
    {
      hide Sound, UnitID, Positions, Games, URIs;
      ghost var l := ledger;
      CoverKeepsSound(l, index, uri, n);
      ledger := Cover(l, index, uri, n);
      var unitID := UnitID(generation, index);
      if unitID !in resolved {
        CoveredIsNew(l, index);
        OneMoreEntry(l.counted, Entry(unitID, uri, n, 0));
        resolved := resolved + {unitID};
        covered := covered + {index};
        artifacts := artifacts + [uri];
        positions := positions + n;
        issued := issued + 1;
      }
    }

    /** Takes over what an earlier run left on disk. */
    method Resume(store: Store, uris: seq<string>)
      requires Valid() && ledger.live == {} && nextIndex == 0
      modifies this`resolved, this`covered, this`artifacts, this`positions, this`issued, this`ledger
      ensures Valid() && ledger == CoverAll(old(ledger), store, uris)
    {
      hide Sound, UnitIndex, Count, Scanned, Cover, Positions, Games, URIs;
      var results: seq<Option<(nat, nat)>> := [];
      for i := 0 to |uris|
        invariant |results| == i && forall j | 0 <= j < i :: results[j] == Scanned(generation, store, uris[j])
      {
        results := results + [Scanned(generation, store, uris[i])];
      }
      for i := 0 to |uris|
        invariant Valid() && ledger.live == {} && nextIndex == 0
        invariant ledger == CoverAll(old(ledger), store, uris[..i])
      {
        assert uris[..i + 1][..i] == uris[..i];
        if results[i].Some? {
          var (index, n) := results[i].value;
          TakeOver(index, uris[i], n);
        }
      }
      assert uris[..|uris|] == uris;
    }

    method Announce(bus: Bus) returns (ok: bool)
      requires Valid() && positions >= target
      modifies bus`datasets, bus`calls
      ensures old(bus.calls) <= bus.calls && (ok || Disturbed(bus.answers, old(bus.calls), bus.calls))
      ensures ok ==> bus.datasets == old(bus.datasets) + [Ready(ledger)]
      ensures bus.datasets == old(bus.datasets) || bus.datasets == old(bus.datasets) + [Ready(ledger)]
    {
      ok := bus.PublishDataset(Dataset(generation, artifacts, positions));
    }

    /** The generation: batches may arrive before the scan is applied and at any later time; the loop's
        select meets the script's events in order. */
    method RunGeneration(bus: Bus, store: Store, uris: seq<string>, early: seq<Event>, script: seq<Event>)
        returns (complete: bool)
      requires Valid() && ledger.live == {} && nextIndex == 0
      requires forall e | (e in early || e in script) && e.Report? :: e.batch.positions >= 0
      modifies this, bus
      ensures Valid()
      ensures complete ==> bus.datasets == old(bus.datasets) + [Ready(ledger)] && positions >= target
      ensures bus.datasets == old(bus.datasets) ||
        (bus.datasets == old(bus.datasets) + [Ready(ledger)] && positions >= target)
      ensures old(bus.calls) <= bus.calls
      ensures RunsToAWake(script) && positions >= target ==>
        complete || Disturbed(bus.answers, old(bus.calls), bus.calls)
    {
      hide Sound, Disturbed, Positions, Games, URIs, Outstanding, Handle, CoverAll;
      for i := 0 to |early|
        invariant Valid() && ledger.live == {} && nextIndex == 0
        invariant bus.datasets == old(bus.datasets) && bus.calls == old(bus.calls)
      {
        assert early[i] in early;
        if early[i].Report? {
          HandleBatch(early[i].batch, early[i].verified);
        }
      }
      Resume(store, uris);
      if positions >= target {
        complete := Announce(bus);
        return;
      }
      var topped := TopUp(bus, n => true);
      if !topped {
        return false;
      }
      Later(bus.answers, old(bus.calls), old(bus.calls), bus.calls);
      for i := 0 to |script|
        invariant Valid() && old(bus.calls) <= bus.calls
        invariant done <==> positions >= target
        invariant i == 0 || script[i - 1].Wake? ==> positions < target
        invariant bus.datasets == old(bus.datasets)
      {
        assert script[i] in script;
        ghost var before := bus.calls;
        match script[i]
        case Report(b, verified) =>
          HandleBatch(b, verified);
        case Cancel =>
          return false;
        case Wake =>
          if done {
            complete := Announce(bus);
            Later(bus.answers, old(bus.calls), before, bus.calls);
            return;
          }
        case Tick(alive) =>
          topped := TopUp(bus, alive);
          Later(bus.answers, old(bus.calls), before, bus.calls);
          if !topped {
            return false;
          }
      }
      return false;
    }
  }

  /** The dataset a ledger amounts to: the counted artifacts and the sum of their positions. */
  function Ready(l: Ledger): Dataset { Dataset(l.generation, URIs(l.counted), Positions(l.counted)) }

  function Ahead(covered: set<nat>, index: nat): set<nat> { set i | i in covered && i >= index }

  lemma FewerAhead(covered: set<nat>, index: nat)
    ensures index in covered ==> |Ahead(covered, index + 1)| < |Ahead(covered, index)|
  {
    if index in covered {
      assert Ahead(covered, index) == Ahead(covered, index + 1) + {index};
    }
  }

  lemma OneMoreEntry(entries: seq<Entry>, e: Entry)
    ensures Positions(entries + [e]) == Positions(entries) + e.positions
    ensures Games(entries + [e]) == Games(entries) + e.games
    ensures URIs(entries + [e]) == URIs(entries) + [e.uri]
  {
    assert (entries + [e])[..|entries|] == entries;
  }

  lemma CoveredIsNew(l: Ledger, index: nat)
    requires Sound(l) && UnitID(l.generation, index) !in l.resolved
    ensures index !in l.covered
  {
  }
}
