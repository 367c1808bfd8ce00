/** The self-play pipeline as a state machine: a work queue with at-least-once delivery, workers that generate,
    store, announce and only then acknowledge, an artifact store that publishes by rename, and a coordinator
    that may die and resume. Any interleaving of any number of them is a sequence of steps. */
module SelfPlay {
  import opened Squares
  import opened UnitNames
  import opened DataFile
  import opened Ledgers
  import opened CoordinatorState

  /** What does not change during a generation. play is the deterministic outcome of a unit. */
  datatype World = World(generation: nat, target: nat, directory: string, play: nat -> seq<Record>, games: nat -> nat,
      digest: Bytes -> string)

  /** Where a worker is in handle: playing, filling its temporary file, holding the stored artifact, done. */
  datatype Phase = Playing | Writing(temp: string) | Holding(uri: string, size: int,
      checksum: string) | Announced | Stuck

  /** One delivery of one message. */
  datatype Run = Run(message: nat, index: nat, phase: Phase)

  datatype Boss = Down | Scanning(ledger: Ledger, listed: seq<string>, found: map<string, nat>) | Up(ledger: Ledger)

  datatype State = State(
    queue: map<nat, nat>,          // message to unit index, until acknowledged
    sent: nat,                     // messages published so far
    issued: set<nat>,              // every unit whose publish was ever acknowledged
    runs: map<nat, Run>,
    files: map<string, Bytes>,
    batches: seq<Batch>,           // the durable stream of announcements
    datasets: seq<Dataset>,
    boss: Boss)

  datatype Step =
    | Issue(stored: bool, confirmed: bool)
    | Deliver(run: nat, message: nat)
    | CreateTemp(run: nat, suffix: string)
    | Write(run: nat, upTo: nat)
    | Rename(run: nat)
    | Announce(run: nat, stored: bool, confirmed: bool)
    | Acknowledge(run: nat, arrives: bool)
    | Reject(run: nat)
    | Crash(run: nat)
    | BossStarts(listing: seq<string>)
    | BossReads(uri: string)
    | BossResumes
    | BossDies
    | BossClaims(batch: nat)
    | BossConcludes(id: string, readable: bool)
    | BossAnnounces(stored: bool)

  function ArtifactURI(w: World, index: nat): string { w.directory + "/" + FileName(w.generation, index) }

  function TempURI(w: World, suffix: string): string { w.directory + "/.partial-" + suffix }

  function Artifact(w: World, index: nat): Bytes { Frame(w.play(index)) }

  function BatchOf(w: World, index: nat, uri: string, size: int, checksum: string): Batch {
    Batch(UnitID(w.generation, index), w.generation, uri, size, checksum, |w.play(index)|, w.games(index))
  }

  function Initial(): State { State(map[], 0, {}, map[], map[], [], [], Down) }

  predicate HexDigits(s: string) { forall c | c in s :: IsDigit(c) || 'a' <= c <= 'f' }

  // ---- the steps

  function LedgerOf(b: Boss): Option<Ledger> {
    match b
    case Down => None
    case Scanning(l, _, _) => Some(l)
    case Up(l) => Some(l)
  }

  function WithLedger(b: Boss, l: Ledger): Boss
    requires !b.Down?
  {
    match b
    case Scanning(_, listed, found) => Scanning(l, listed, found)
    case Up(_) => Up(l)
  }

  /** May the step happen here? */
  predicate Enabled(w: World, s: State, step: Step) {
    match step
    case Issue(stored, confirmed) => s.boss.Up? && (confirmed ==> stored)
    case Deliver(run, message) => run !in s.runs && message in s.queue
    case CreateTemp(run, suffix) =>
      && run in s.runs && s.runs[run].phase.Playing? && w.play(s.runs[run].index) != []
      && HexDigits(suffix) && TempURI(w, suffix) !in s.files
    case Write(run, upTo) =>
      && run in s.runs && s.runs[run].phase.Writing? && s.runs[run].phase.temp in s.files
      && |s.files[s.runs[run].phase.temp]| <= upTo <= |Artifact(w, s.runs[run].index)|
    case Rename(run) =>
      && run in s.runs && s.runs[run].phase.Writing? && s.runs[run].phase.temp in s.files
      && |s.files[s.runs[run].phase.temp]| == |Artifact(w, s.runs[run].index)|
    case Announce(run, stored, confirmed) =>
      && run in s.runs && (confirmed ==> stored)
      && (s.runs[run].phase.Holding? || (s.runs[run].phase.Playing? && w.play(s.runs[run].index) == []))
    case Acknowledge(run, arrives) => run in s.runs && s.runs[run].phase.Announced?
    case Reject(run) => run in s.runs && !s.runs[run].phase.Announced?
    case Crash(run) => run in s.runs
    case BossStarts(listing) => s.boss.Down? && forall uri | uri in listing :: uri in s.files
    case BossReads(uri) => s.boss.Scanning? && uri in s.boss.listed && uri in s.files
    case BossResumes => s.boss.Scanning?
    case BossDies => !s.boss.Down?
    case BossClaims(batch) => !s.boss.Down? && batch < |s.batches|
    case BossConcludes(id, readable) => !s.boss.Down? && id in LedgerOf(s.boss).value.pending
    case BossAnnounces(stored) => s.boss.Up? && Positions(s.boss.ledger.counted) >= w.target
  }

  function After(w: World, s: State, step: Step): State
    requires Enabled(w, s, step)
  {
    match step
    case Issue(stored, confirmed) =>
      // topUp: step over covered indices; a failed publish gives the index back
      var l := s.boss.ledger;
      if l.nextIndex in l.covered then s.(boss := Up(Skip(l)))
      else
        var published := if stored then s.(queue := s.queue[s.sent := l.nextIndex], sent := s.sent + 1) else s;
        if confirmed then published.(issued := s.issued + {l.nextIndex}, boss := Up(Publish(l))) else published
    case Deliver(run, message) => s.(runs := s.runs[run := Run(message, s.queue[message], Playing)])
    case CreateTemp(run, suffix) =>
      InPhase(s, run, Writing(TempURI(w, suffix))).(files := s.files[TempURI(w, suffix) := []])
    case Write(run, upTo) =>
      s.(files := s.files[s.runs[run].phase.temp := Artifact(w, s.runs[run].index)[..upTo]])
    case Rename(run) =>
      var r := s.runs[run];
      var contents := s.files[r.phase.temp];
      var uri := ArtifactURI(w, r.index);
      InPhase(s, run, Holding(uri, |contents|, w.digest(contents))).(files :=
        (s.files - {r.phase.temp})[uri := contents])
    case Announce(run, stored, confirmed) =>
      var r := s.runs[run];
      var b := if r.phase.Holding? then BatchOf(w, r.index, r.phase.uri, r.phase.size, r.phase.checksum)
               else BatchOf(w, r.index, "", 0, "");
      InPhase(s, run, if confirmed then Announced else Stuck).(batches := if stored then s.batches + [b] else s.batches)
    case Acknowledge(run, arrives) =>
      s.(runs := s.runs - {run}, queue := if arrives then s.queue - {s.runs[run].message} else s.queue)
    case Reject(run) =>
      var phase := s.runs[run].phase;
      s.(runs := s.runs - {run}, files := if phase.Writing? then s.files - {phase.temp} else s.files)
    case Crash(run) => s.(runs := s.runs - {run})
    case BossStarts(listing) => s.(boss := Scanning(Empty(w.generation), listing, map[]))
    case BossReads(uri) =>
      if UnitIndex(w.generation, uri).Some? && Count(s.files[uri]).Some?
      then s.(boss := s.boss.(found := s.boss.found[uri := Count(s.files[uri]).value]))
      else s
    case BossResumes => s.(boss := Up(CoverFound(w, s.boss.ledger, s.boss.listed, s.boss.found)))
    case BossDies => s.(boss := Down)
    case BossClaims(batch) =>
      s.(boss := WithLedger(s.boss, Claim(LedgerOf(s.boss).value, s.batches[batch])))
    case BossConcludes(id, readable) =>
      var l := LedgerOf(s.boss).value;
      s.(boss := WithLedger(s.boss,
        Settle(l, id, Verifies(Store(s.files, if readable then {} else s.files.Keys, w.digest), l.pending[id]))))
    case BossAnnounces(stored) =>
      if stored then s.(datasets := s.datasets + [Ready(s.boss.ledger)]) else s
  }

  function InPhase(s: State, run: nat, phase: Phase): State
    requires run in s.runs
  {
    s.(runs := s.runs[run := s.runs[run].(phase := phase)])
  }

  /** resume's second half: what the scan found, in listing order. */
  function CoverFound(w: World, l: Ledger, listed: seq<string>, found: map<string, nat>): Ledger {
    if listed == [] then l
    else
      var before := CoverFound(w, l, listed[..|listed| - 1], found);
      var uri := listed[|listed| - 1];
      if uri in found && UnitIndex(w.generation, uri).Some?
        then Cover(before, UnitIndex(w.generation, uri).value, uri, found[uri])
      else before
  }

  function Execute(w: World, steps: seq<Step>): State {
    if steps == [] then Initial()
    else
      var s := Execute(w, steps[..|steps| - 1]);
      var step := steps[|steps| - 1];
      if Enabled(w, s, step) then After(w, s, step) else s
  }

  // ---- what every reachable state satisfies

  /** A file is either a whole artifact under its unit's name, or something under a temporary name. */
  ghost predicate FileOk(w: World, uri: string, contents: Bytes) {
    || (exists i :: IsArtifact(w, i, uri) && contents == Artifact(w, i))
    || IsTemp(w, uri)
  }

  predicate IsArtifact(w: World, i: nat, uri: string) { uri == ArtifactURI(w, i) }

  ghost predicate IsTemp(w: World, uri: string) { exists suffix :: HexDigits(suffix) && uri == TempURI(w, suffix) }

  /** An announcement tells the truth about a unit: no positions, or a stored artifact of exactly its play. */
  ghost predicate BatchOk(w: World, files: map<string, Bytes>, b: Batch) {
    exists i :: BatchTells(w, files, b, i)
  }

  ghost predicate BatchTells(w: World, files: map<string, Bytes>, b: Batch, i: nat) {
    && b.unit == UnitID(w.generation, i) && b.generation == w.generation && b.positions == |w.play(i)|
    && (b.uri == "" ==> w.play(i) == [])
    && (b.uri != "" ==> Stored(w, files, i) && b.uri == ArtifactURI(w, i))
    && (b.uri != "" ==> b.size == |Artifact(w, i)| && b.checksum == w.digest(Artifact(w, i)))
  }

  ghost predicate Stored(w: World, files: map<string, Bytes>, i: nat) {
    ArtifactURI(w, i) in files && files[ArtifactURI(w, i)] == Artifact(w, i)
  }

  ghost predicate EntryOk(w: World, files: map<string, Bytes>, e: Entry) {
    exists i :: EntryTells(w, files, e, i)
  }

  ghost predicate EntryTells(w: World, files: map<string, Bytes>, e: Entry, i: nat) {
    e.unit == UnitID(w.generation, i) && e.uri == ArtifactURI(w, i) && Stored(w, files, i) && e.positions == |w.play(i)|
  }

  ghost predicate RunOk(w: World, s: State, r: Run) {
    && r.message < s.sent
    && (r.message in s.queue ==> s.queue[r.message] == r.index)
    && match r.phase
       case Writing(temp) =>
         IsTemp(w, temp) && temp in s.files && s.files[temp] <= Artifact(w, r.index)
       case Holding(uri, size, checksum) =>
         && uri == ArtifactURI(w, r.index) && Stored(w, s.files, r.index)
         && size == |Artifact(w, r.index)| && checksum == w.digest(Artifact(w, r.index))
       case Announced => Reported(s, w.generation, r.index)
       case _ => true
  }

  ghost predicate Reported(s: State, generation: nat, i: nat) {
    exists b | b in s.batches :: b.unit == UnitID(generation, i)
  }

  ghost predicate Waiting(s: State, i: nat) { exists m | m in s.queue :: s.queue[m] == i }

  ghost predicate LedgerOk(w: World, s: State, l: Ledger) {
    && Sound(l) && l.generation == w.generation
    && (forall u | u in l.pending :: BatchOk(w, s.files, l.pending[u]))
    && (forall e | e in l.counted :: EntryOk(w, s.files, e))
  }

  /** A dataset lists different artifacts, all stored, whose records number exactly what it claims. */
  ghost predicate DatasetOk(w: World, files: map<string, Bytes>, d: Dataset) {
    && d.positions >= w.target
    && (forall i, j | 0 <= i < j < |d.uris| :: d.uris[i] != d.uris[j])
    && (forall uri | uri in d.uris :: ListedOk(w, files, uri))
    && d.positions == RecordsOf(files, d.uris)
  }

  ghost predicate ListedOk(w: World, files: map<string, Bytes>, uri: string) {
    exists i :: IsArtifact(w, i, uri) && Stored(w, files, i)
  }

  ghost function RecordsOf(files: map<string, Bytes>, uris: seq<string>): int {
    if uris == [] then 0
    else
      var uri := uris[|uris| - 1];
      RecordsOf(files, uris[..|uris| - 1]) + if uri in files &&
        Count(files[uri]).Some? then Count(files[uri]).value else 0
  }

  ghost predicate BossOk(w: World, s: State) {
    match s.boss
    case Down => true
    case Up(l) => LedgerOk(w, s, l)
    case Scanning(l, listed, found) =>
      && LedgerOk(w, s, l) && l.live == {} && l.nextIndex == 0
      && (forall uri | uri in found :: FoundOk(w, s.files, uri, found[uri]))
  }

  ghost predicate FoundOk(w: World, files: map<string, Bytes>, uri: string, n: nat) {
    exists i :: IsArtifact(w, i, uri) && Stored(w, files, i) && n == |w.play(i)|
  }

  /** Every issued unit is still in the queue, or its announcement is in the durable stream. */
  ghost predicate NothingLost(w: World, s: State) {
    forall i | i in s.issued :: Waiting(s, i) || Reported(s, w.generation, i)
  }

  ghost predicate Truthful(w: World, s: State) {
    && (forall b | b in s.batches :: BatchOk(w, s.files, b))
    && (forall d | d in s.datasets :: DatasetOk(w, s.files, d))
  }

  ghost predicate Inv(w: World, s: State) {
    && (forall m | m in s.queue :: m < s.sent)
    && NothingLost(w, s)
    && (forall r | r in s.runs :: RunOk(w, s, s.runs[r]))
    && TempsOwned(s)
    && (forall uri | uri in s.files :: FileOk(w, uri, s.files[uri]))
    && Truthful(w, s)
    && BossOk(w, s)
  }

  /** No two runs share a temporary file. */
  ghost predicate TempsOwned(s: State) {
    forall a, b | a in s.runs && b in s.runs && s.runs[a].phase.Writing? && s.runs[b].phase.Writing? && a != b ::
      s.runs[a].phase.temp != s.runs[b].phase.temp
  }

  // ---- stored artifacts stay, and what was said about them stays true

  ghost predicate Grown(w: World, f: map<string, Bytes>, g: map<string, Bytes>) {
    forall i | Stored(w, f, i) :: Stored(w, g, i)
  }

  lemma {:induction false} RecordsStay(w: World, f: map<string, Bytes>, g: map<string, Bytes>, uris: seq<string>)
    requires Grown(w, f, g) && forall uri | uri in uris :: ListedOk(w, f, uri)
    ensures RecordsOf(f, uris) == RecordsOf(g, uris)
  {
    hide Count;
    if uris != [] {
      var uri := uris[|uris| - 1];
      RecordsStay(w, f, g, uris[..|uris| - 1]);
      assert ListedOk(w, f, uri);
      var i :| IsArtifact(w, i, uri) && Stored(w, f, i);
      assert Stored(w, g, i);
    }
  }

  lemma TruthStays(w: World, s: State, t: State)
    requires Truthful(w, s) && Grown(w, s.files, t.files)
    requires t.batches == s.batches && t.datasets == s.datasets
    ensures Truthful(w, t)
  {
    hide Stored, Artifact;
    forall b | b in t.batches ensures BatchOk(w, t.files, b) {
      BatchStays(w, s.files, t.files, b);
    }
    forall d | d in t.datasets ensures DatasetOk(w, t.files, d) {
      RecordsStay(w, s.files, t.files, d.uris);
      forall uri | uri in d.uris ensures ListedOk(w, t.files, uri) {
        assert ListedOk(w, s.files, uri);
      }
    }
  }

  lemma BatchStays(w: World, f: map<string, Bytes>, g: map<string, Bytes>, b: Batch)
    requires BatchOk(w, f, b) && Grown(w, f, g)
    ensures BatchOk(w, g, b)
  {
    var i :| BatchTells(w, f, b, i);
    assert BatchTells(w, g, b, i);
  }

  lemma EntryStays(w: World, f: map<string, Bytes>, g: map<string, Bytes>, e: Entry)
    requires EntryOk(w, f, e) && Grown(w, f, g)
    ensures EntryOk(w, g, e)
  {
    var i :| EntryTells(w, f, e, i);
    assert EntryTells(w, g, e, i);
  }

  lemma LedgerStays(w: World, s: State, t: State, l: Ledger)
    requires LedgerOk(w, s, l) && Grown(w, s.files, t.files)
    ensures LedgerOk(w, t, l)
  {
    hide Sound, Grown, BatchOk, EntryOk;
    forall u | u in l.pending ensures BatchOk(w, t.files, l.pending[u]) { BatchStays(w, s.files, t.files, l.pending[u]);
      }
    forall e | e in l.counted ensures EntryOk(w, t.files, e) { EntryStays(w, s.files, t.files, e); }
  }

  lemma BossStays(w: World, s: State, t: State)
    requires BossOk(w, s) && Grown(w, s.files, t.files) && t.boss == s.boss
    ensures BossOk(w, t)
  {
    hide LedgerOk, Stored;
    if !s.boss.Down? {
      LedgerStays(w, s, t, LedgerOf(s.boss).value);
    }
    if s.boss.Scanning? {
      forall uri | uri in s.boss.found ensures FoundOk(w, t.files, uri, s.boss.found[uri]) {
        var i :| IsArtifact(w, i, uri) && Stored(w, s.files, i) && s.boss.found[uri] == |w.play(i)|;
        assert Stored(w, t.files, i);
      }
    }
  }

  // ---- names

  lemma TempIsNoArtifact(w: World, uri: string, i: nat)
    requires IsTemp(w, uri)
    ensures !IsArtifact(w, i, uri) && UnitIndex(w.generation, uri).None?
  {
    hide UnitIndex, FileName, HexDigits, TempURI;
    var suffix :| HexDigits(suffix) && uri == TempURI(w, suffix);
    if IsArtifact(w, i, uri) {
      ArtifactBase(w, i);
      TempBase(w, suffix);
      TempIsNoFileName(w.generation, suffix, i);
    }
    if UnitIndex(w.generation, uri).Some? {
      var j := UnitIndex(w.generation, uri).value;
      UnitIndexInvertsNaming(w.generation, uri, j);
      TempBase(w, suffix);
      TempIsNoFileName(w.generation, suffix, j);
    }
  }

  lemma TempBase(w: World, suffix: string)
    requires HexDigits(suffix)
    ensures Base(TempURI(w, suffix)) == ".partial-" + suffix
  {
    hide Base;
    var name := ".partial-" + suffix;
    forall k | 0 <= k < |name| ensures name[k] != '/' {
      assert k >= 9 ==> name[k] == suffix[k - 9] && suffix[k - 9] in suffix;
    }
    BaseOfName(w.directory, name);
    assert w.directory + "/" + name == TempURI(w, suffix);
  }

  /** The last character but one tells them apart: a unit's file ends in "novadata". */
  lemma TempIsNoFileName(generation: nat, suffix: string, i: nat)
    requires HexDigits(suffix)
    ensures ".partial-" + suffix != FileName(generation, i)
  {
    hide UnitID;
    var name := ".partial-" + suffix;
    assert |suffix| >= 2 ==> name[|name| - 2] == suffix[|suffix| - 2] && suffix[|suffix| - 2] in suffix;
    var id := UnitID(generation, i);
    assert (id + EXTENSION)[|id| + 7] == 't';
    assert FileName(generation, i)[|FileName(generation, i)| - 2] == 't';
  }

  lemma ArtifactNamesDiffer(w: World, i: nat, j: nat)
    requires ArtifactURI(w, i) == ArtifactURI(w, j)
    ensures i == j
  {
    hide UnitID, TrimSlashes, AfterLastSlash;
    ArtifactBase(w, i);
    ArtifactBase(w, j);
    var a, b := UnitID(w.generation, i), UnitID(w.generation, j);
    assert (a + EXTENSION)[..|a|] == a && (b + EXTENSION)[..|b|] == b;
    UnitIDsDiffer(w.generation, i, w.generation, j);
  }

  lemma ArtifactBase(w: World, i: nat)
    ensures Base(ArtifactURI(w, i)) == FileName(w.generation, i)
    ensures forall j :: UnitIndex(w.generation, ArtifactURI(w, i)) == Some(j) ==> i == j
  {
    hide UnitID, TrimSlashes, AfterLastSlash, UnitIndex;
    NoSlashInNames(w.generation, i);
    BaseOfName(w.directory, FileName(w.generation, i));
    forall j | UnitIndex(w.generation, ArtifactURI(w, i)) == Some(j) ensures i == j {
      UnitIndexInvertsNaming(w.generation, ArtifactURI(w, i), j);
      var a, b := UnitID(w.generation, i), UnitID(w.generation, j);
      assert (a + EXTENSION)[..|a|] == a && (b + EXTENSION)[..|b|] == b;
      UnitIDsDiffer(w.generation, i, w.generation, j);
    }
  }

  // ---- what one step of somebody else leaves of a run

  ghost predicate Undisturbed(s: State, t: State, r: Run) {
    && s.sent <= t.sent
    && (r.message in t.queue ==>
      r.message >= s.sent || (r.message in s.queue && t.queue[r.message] == s.queue[r.message]))
    && s.batches <= t.batches
    && (r.phase.Writing? && r.phase.temp in s.files ==>
      r.phase.temp in t.files && t.files[r.phase.temp] == s.files[r.phase.temp])
  }

  lemma RunStays(w: World, s: State, t: State, r: Run)
    requires RunOk(w, s, r) && Grown(w, s.files, t.files) && Undisturbed(s, t, r)
    ensures RunOk(w, t, r)
  {
    hide Stored, Artifact, IsTemp;
    if r.phase.Announced? {
      ReportStays(s, t, w.generation, r.index);
    }
  }

  lemma ReportStays(s: State, t: State, generation: nat, i: nat)
    requires Reported(s, generation, i) && s.batches <= t.batches
    ensures Reported(t, generation, i)
  {
    var b :| b in s.batches && b.unit == UnitID(generation, i);
    assert b in t.batches;
  }

  lemma WorkStays(w: World, s: State, t: State)
    requires NothingLost(w, s) && s.batches <= t.batches && t.issued == s.issued
    requires forall m | m in s.queue :: m in t.queue && t.queue[m] == s.queue[m]
    ensures NothingLost(w, t)
  {
    hide Reported;
    forall i | i in t.issued ensures Waiting(t, i) || Reported(t, w.generation, i) {
      if Waiting(s, i) {
        var m :| m in s.queue && s.queue[m] == i;
        assert t.queue[m] == i;
      } else {
        ReportStays(s, t, w.generation, i);
      }
    }
  }

  // ---- the steps of a worker

  lemma DeliverKeeps(w: World, s: State, run: nat, message: nat)
    requires Inv(w, s) && Enabled(w, s, Deliver(run, message))
    ensures Inv(w, After(w, s, Deliver(run, message)))
  {
    hide Truthful, BossOk, NothingLost, Stored, Artifact, IsTemp, FileOk;
    var t := After(w, s, Deliver(run, message));
    TruthStays(w, s, t);
    BossStays(w, s, t);
    WorkStays(w, s, t);
    forall r | r in t.runs ensures RunOk(w, t, t.runs[r]) {
      if r != run { RunStays(w, s, t, t.runs[r]); }
    }
  }

  /** Only a temporary file changes: no artifact is touched. */
  lemma TempChange(w: World, s: State, t: State, temp: string)
    requires IsTemp(w, temp) && forall uri | uri in s.files && uri != temp ::
      uri in t.files && t.files[uri] == s.files[uri]
    ensures Grown(w, s.files, t.files)
  {
    hide Artifact, IsTemp, ArtifactURI;
    forall i | Stored(w, s.files, i) ensures Stored(w, t.files, i) {
      TempIsNoArtifact(w, temp, i);
    }
  }

  lemma CreateTempKeeps(w: World, s: State, run: nat, suffix: string)
    requires Inv(w, s) && Enabled(w, s, CreateTemp(run, suffix))
    ensures Inv(w, After(w, s, CreateTemp(run, suffix))) &&
      Grown(w, s.files, After(w, s, CreateTemp(run, suffix)).files)
  {
    hide Truthful, BossOk, NothingLost, Stored, Artifact, HexDigits, TempURI;
    var t := After(w, s, CreateTemp(run, suffix));
    TempChange(w, s, t, TempURI(w, suffix));
    TruthStays(w, s, t);
    BossStays(w, s, t);
    WorkStays(w, s, t);
    forall r | r in t.runs ensures RunOk(w, t, t.runs[r]) {
      if r != run { RunStays(w, s, t, t.runs[r]); }
    }
  }

  lemma WriteKeeps(w: World, s: State, run: nat, upTo: nat)
    requires Inv(w, s) && Enabled(w, s, Write(run, upTo))
    ensures Inv(w, After(w, s, Write(run, upTo))) && Grown(w, s.files, After(w, s, Write(run, upTo)).files)
  {
    hide Truthful, BossOk, NothingLost, Stored, Artifact, IsTemp;
    var t := After(w, s, Write(run, upTo));
    assert RunOk(w, s, s.runs[run]);
    TempChange(w, s, t, s.runs[run].phase.temp);
    TruthStays(w, s, t);
    BossStays(w, s, t);
    WorkStays(w, s, t);
    forall r | r in t.runs ensures RunOk(w, t, t.runs[r]) {
      if r != run { RunStays(w, s, t, t.runs[r]); }
    }
  }

  lemma RenameKeeps(w: World, s: State, run: nat)
    requires Inv(w, s) && Enabled(w, s, Rename(run))
    ensures Inv(w, After(w, s, Rename(run))) && Grown(w, s.files, After(w, s, Rename(run)).files)
  {
    hide Truthful, BossOk, NothingLost, Artifact, IsTemp, ArtifactURI;
    var t := After(w, s, Rename(run));
    var r0 := s.runs[run];
    assert RunOk(w, s, r0);
    assert s.files[r0.phase.temp] == Artifact(w, r0.index);
    forall i | Stored(w, s.files, i) ensures Stored(w, t.files, i) {
      TempIsNoArtifact(w, r0.phase.temp, i);
      if ArtifactURI(w, i) == ArtifactURI(w, r0.index) { ArtifactNamesDiffer(w, i, r0.index); }
    }
    TruthStays(w, s, t);
    BossStays(w, s, t);
    WorkStays(w, s, t);
    forall uri | uri in t.files ensures FileOk(w, uri, t.files[uri]) {
      assert uri == ArtifactURI(w, r0.index) ==> IsArtifact(w, r0.index, uri);
    }
    forall r | r in t.runs ensures RunOk(w, t, t.runs[r]) {
      if r != run {
        TempIsOther(w, s, t.runs[r], r0.index);
        RunStays(w, s, t, t.runs[r]);
      }
    }
  }

  lemma TempIsOther(w: World, s: State, r: Run, i: nat)
    requires RunOk(w, s, r)
    ensures r.phase.Writing? ==> r.phase.temp != ArtifactURI(w, i)
  {
    hide Artifact, Stored, IsTemp, ArtifactURI;
    if r.phase.Writing? {
      TempIsNoArtifact(w, r.phase.temp, i);
    }
  }

  lemma AnnounceKeeps(w: World, s: State, run: nat, stored: bool, confirmed: bool)
    requires Inv(w, s) && Enabled(w, s, Announce(run, stored, confirmed))
    ensures Inv(w, After(w, s, Announce(run, stored, confirmed)))
  {
    hide BossOk, NothingLost, FileOk, DatasetOk, BatchOk, RunOk, Grown, UnitID;
    var t := After(w, s, Announce(run, stored, confirmed));
    var r0 := s.runs[run];
    assert RunOk(w, s, r0);
    var b := if r0.phase.Holding? then BatchOf(w, r0.index, r0.phase.uri, r0.phase.size, r0.phase.checksum)
      else BatchOf(w, r0.index, "", 0, "");
    BatchIsTrue(w, s, r0, b);
    NothingShrinks(w, s.files);
    BossStays(w, s, t);
    WorkStays(w, s, t);
    forall r | r in t.runs ensures RunOk(w, t, t.runs[r]) {
      if r != run {
        RunStays(w, s, t, t.runs[r]);
      } else {
        AnnouncerOk(w, s, t, r0, confirmed, b);
      }
    }
  }

  lemma NothingShrinks(w: World, f: map<string, Bytes>)
    ensures Grown(w, f, f)
  {
  }

  lemma AnnouncerOk(w: World, s: State, t: State, r: Run, confirmed: bool, b: Batch)
    requires RunOk(w, s, r) && t.sent == s.sent && t.queue == s.queue && (confirmed ==> b in t.batches)
    requires b.unit == UnitID(w.generation, r.index)
    ensures RunOk(w, t, r.(phase := if confirmed then Announced else Stuck))
  {
  }

  lemma BatchIsTrue(w: World, s: State, r: Run, b: Batch)
    requires RunOk(w, s, r) && (r.phase.Holding? || (r.phase.Playing? && w.play(r.index) == []))
    requires b == if r.phase.Holding? then BatchOf(w, r.index, r.phase.uri, r.phase.size, r.phase.checksum)
      else BatchOf(w, r.index, "", 0, "")
    ensures BatchOk(w, s.files, b)
  {
    hide Artifact, UnitID, IsTemp, Stored, FileName;
    assert BatchTells(w, s.files, b, r.index);
  }

  lemma AcknowledgeKeeps(w: World, s: State, run: nat, arrives: bool)
    requires Inv(w, s) && Enabled(w, s, Acknowledge(run, arrives))
    ensures Inv(w, After(w, s, Acknowledge(run, arrives)))
  {
    hide Truthful, BossOk, Artifact, IsTemp, Stored, UnitID, FileOk;
    var t := After(w, s, Acknowledge(run, arrives));
    var r0 := s.runs[run];
    assert RunOk(w, s, r0);
    TruthStays(w, s, t);
    BossStays(w, s, t);
    forall i | i in t.issued ensures Waiting(t, i) || Reported(t, w.generation, i) {
      if Reported(s, w.generation, i) {
        ReportStays(s, t, w.generation, i);
      } else {
        var m :| m in s.queue && s.queue[m] == i;
        if m == r0.message {
          ReportStays(s, t, w.generation, i);
        } else {
          assert t.queue[m] == i;
        }
      }
    }
    forall r | r in t.runs ensures RunOk(w, t, t.runs[r]) {
      RunStays(w, s, t, t.runs[r]);
    }
  }

  lemma RejectKeeps(w: World, s: State, run: nat)
    requires Inv(w, s) && Enabled(w, s, Reject(run))
    ensures Inv(w, After(w, s, Reject(run))) && Grown(w, s.files, After(w, s, Reject(run)).files)
  {
    hide Truthful, BossOk, NothingLost, Artifact, IsTemp, Stored, FileOk;
    var t := After(w, s, Reject(run));
    assert RunOk(w, s, s.runs[run]);
    if s.runs[run].phase.Writing? {
      TempChange(w, s, t, s.runs[run].phase.temp);
    }
    TruthStays(w, s, t);
    BossStays(w, s, t);
    WorkStays(w, s, t);
    forall r | r in t.runs ensures RunOk(w, t, t.runs[r]) {
      RunStays(w, s, t, t.runs[r]);
    }
  }

  lemma CrashKeeps(w: World, s: State, run: nat)
    requires Inv(w, s) && Enabled(w, s, Crash(run))
    ensures Inv(w, After(w, s, Crash(run)))
  {
    hide Truthful, BossOk, NothingLost, Artifact, IsTemp, Stored, FileOk;
    var t := After(w, s, Crash(run));
    TruthStays(w, s, t);
    BossStays(w, s, t);
    WorkStays(w, s, t);
    forall r | r in t.runs ensures RunOk(w, t, t.runs[r]) {
      RunStays(w, s, t, t.runs[r]);
    }
  }

  // ---- the steps of the coordinator

  lemma IssueKeeps(w: World, s: State, stored: bool, confirmed: bool)
    requires Inv(w, s) && Enabled(w, s, Issue(stored, confirmed))
    ensures Inv(w, After(w, s, Issue(stored, confirmed)))
  {
    hide Truthful, FileOk, UnitID, Reported, LedgerOk, RunOk, Grown;
    var t := After(w, s, Issue(stored, confirmed));
    NothingShrinks(w, s.files);
    TruthStays(w, s, t);
    WalkOk(w, s, t, s.boss.ledger);
    forall i | i in t.issued ensures Waiting(t, i) || Reported(t, w.generation, i) {
      if i in s.issued {
        if Waiting(s, i) {
          var m :| m in s.queue && s.queue[m] == i;
          assert t.queue[m] == i;
        } else {
          ReportStays(s, t, w.generation, i);
        }
      } else {
        assert t.queue[s.sent] == i;
      }
    }
    forall r | r in t.runs ensures RunOk(w, t, t.runs[r]) {
      RunStays(w, s, t, t.runs[r]);
    }
  }

  lemma WalkOk(w: World, s: State, t: State, l: Ledger)
    requires LedgerOk(w, s, l) && t.files == s.files
    ensures LedgerOk(w, t, l)
    ensures if l.nextIndex in l.covered then LedgerOk(w, t, Skip(l)) else LedgerOk(w, t, Publish(l))
  {
    hide Sound, BatchOk, EntryOk;
    WalkKeepsSound(l);
  }

  /** Steps that change nothing but the coordinator. */
  lemma OnlyBoss(w: World, s: State, t: State)
    requires Inv(w, s) && BossOk(w, t) && t == s.(boss := t.boss)
    ensures Inv(w, t)
  {
    hide Truthful, Artifact, IsTemp, Stored, FileOk, BossOk, NothingLost;
    TruthStays(w, s, t);
    WorkStays(w, s, t);
    forall r | r in t.runs ensures RunOk(w, t, t.runs[r]) {
      RunStays(w, s, t, t.runs[r]);
    }
  }

  /** What a listed file can be: an artifact, whose count is its unit's, or something that resume ignores. */
  lemma ReadingFinds(w: World, s: State, uri: string)
    requires uri in s.files && FileOk(w, uri, s.files[uri])
    requires UnitIndex(w.generation, uri).Some? && Count(s.files[uri]).Some?
    ensures FoundOk(w, s.files, uri, Count(s.files[uri]).value)
  {
    hide UnitIndex, Count, IsTemp;
    if IsTemp(w, uri) {
      TempIsNoArtifact(w, uri, 0);
    }
    var i :| IsArtifact(w, i, uri) && s.files[uri] == Artifact(w, i);
    CountOfFrame(w.play(i), 0);
  }

  lemma {:induction false} CoverFoundOk(w: World, s: State, l: Ledger, listed: seq<string>, found: map<string, nat>)
    requires LedgerOk(w, s, l) && l.live == {} && l.nextIndex == 0
    requires forall uri | uri in found :: FoundOk(w, s.files, uri, found[uri])
    ensures LedgerOk(w, s, CoverFound(w, l, listed, found))
    ensures CoverFound(w, l, listed, found).live == {} && CoverFound(w, l, listed, found).nextIndex == 0
  {
    hide UnitIndex, FoundOk, LedgerOk;
    if listed != [] {
      var uri := listed[|listed| - 1];
      CoverFoundOk(w, s, l, listed[..|listed| - 1], found);
      if uri in found && UnitIndex(w.generation, uri).Some? {
        CoverOneOk(w, s, CoverFound(w, l, listed[..|listed| - 1], found), uri, found[uri]);
      }
    }
  }

  lemma CoverOneOk(w: World, s: State, l: Ledger, uri: string, n: nat)
    requires LedgerOk(w, s, l) && l.live == {} && l.nextIndex == 0
    requires FoundOk(w, s.files, uri, n) && UnitIndex(w.generation, uri).Some?
    ensures LedgerOk(w, s, Cover(l, UnitIndex(w.generation, uri).value, uri, n))
  {
    hide UnitIndex, Sound, Artifact, ArtifactURI, BatchOk, UnitID;
    var j := UnitIndex(w.generation, uri).value;
    var i :| IsArtifact(w, i, uri) && Stored(w, s.files, i) && n == |w.play(i)|;
    ArtifactBase(w, i);
    CoverKeepsSound(l, j, uri, n);
    var m := Cover(l, j, uri, n);
    forall e | e in m.counted ensures EntryOk(w, s.files, e) {
      if e !in l.counted {
        assert EntryTells(w, s.files, e, i);
      }
    }
  }

  lemma ClaimOk(w: World, s: State, l: Ledger, b: Batch)
    requires LedgerOk(w, s, l) && BatchOk(w, s.files, b)
    ensures LedgerOk(w, s, Claim(l, b))
    ensures Claim(l, b).live == l.live && Claim(l, b).nextIndex == l.nextIndex
  {
    hide Sound, BatchOk, EntryOk;
    ClaimKeepsSound(l, b);
  }

  lemma SettleOk(w: World, s: State, l: Ledger, id: string, verified: bool)
    requires LedgerOk(w, s, l) && id in l.pending
    ensures LedgerOk(w, s, Settle(l, id, verified))
    ensures Settle(l, id, verified).live == l.live && Settle(l, id, verified).nextIndex == l.nextIndex
  {
    hide Artifact, ArtifactURI, UnitID;
    SettleKeepsSound(l, id, verified);
    var m := Settle(l, id, verified);
    forall e | e in m.counted ensures EntryOk(w, s.files, e) {
      if e !in l.counted {
        assert BatchOk(w, s.files, l.pending[id]);
        var i :| BatchTells(w, s.files, l.pending[id], i);
        assert EntryTells(w, s.files, e, i);
      }
    }
  }

  lemma BossKeeps(w: World, s: State, step: Step)
    requires Inv(w, s) && Enabled(w, s, step)
    requires step.BossStarts? || step.BossReads? || step.BossResumes? || step.BossDies? || step.BossClaims? ||
      step.BossConcludes?
    ensures Inv(w, After(w, s, step))
  {
    hide LedgerOk, UnitIndex, Count, RunOk, FileOk, NothingLost, TempsOwned, BatchOk, DatasetOk, Verifies, FoundOk;
    var t := After(w, s, step);
    match step {
      case BossStarts(listing) => EmptyOk(w, s);
      case BossReads(uri) =>
        if UnitIndex(w.generation, uri).Some? && Count(s.files[uri]).Some? {
          ReadingFinds(w, s, uri);
        }
      case BossResumes => CoverFoundOk(w, s, s.boss.ledger, s.boss.listed, s.boss.found);
      case BossDies =>
      case BossClaims(batch) => ClaimOk(w, s, LedgerOf(s.boss).value, s.batches[batch]);
      case BossConcludes(id, readable) =>
        var l := LedgerOf(s.boss).value;
        SettleOk(w, s, l, id, Verifies(Store(s.files, if readable then {} else s.files.Keys, w.digest), l.pending[id]));
    }
    if t.boss.Up? || t.boss.Scanning? {
      SameLedgerOk(w, s, t, LedgerOf(t.boss).value);
    }
    OnlyBoss(w, s, t);
  }

  lemma EmptyOk(w: World, s: State)
    ensures LedgerOk(w, s, Empty(w.generation))
  {
  }

  lemma SameLedgerOk(w: World, s: State, t: State, l: Ledger)
    requires LedgerOk(w, s, l) && s.files == t.files
    ensures LedgerOk(w, t, l)
  {
    hide Sound, BatchOk, EntryOk;
  }

  // ---- datasets

  lemma {:induction false} CountedAreRecords(w: World, files: map<string, Bytes>, entries: seq<Entry>)
    requires forall e | e in entries :: EntryOk(w, files, e)
    ensures Positions(entries) == RecordsOf(files, URIs(entries))
  {
    hide Count, Artifact, ArtifactURI;
    if entries != [] {
      var n := |entries| - 1;
      CountedAreRecords(w, files, entries[..n]);
      assert URIs(entries)[..n] == URIs(entries[..n]);
      EntryCounts(w, files, entries[n]);
    }
  }

  lemma EntryCounts(w: World, files: map<string, Bytes>, e: Entry)
    requires EntryOk(w, files, e)
    ensures e.uri in files && Count(files[e.uri]) == Some(e.positions) && ListedOk(w, files, e.uri)
  {
    hide Count, ArtifactURI;
    var i :| EntryTells(w, files, e, i);
    CountOfFrame(w.play(i), 0);
    assert IsArtifact(w, i, e.uri);
  }

  lemma UrisDiffer(w: World, files: map<string, Bytes>, x: Entry, y: Entry)
    requires EntryOk(w, files, x) && EntryOk(w, files, y) && x.unit != y.unit
    ensures x.uri != y.uri
  {
    hide Artifact, ArtifactURI, UnitID;
    var a :| EntryTells(w, files, x, a);
    var b :| EntryTells(w, files, y, b);
    if x.uri == y.uri { ArtifactNamesDiffer(w, a, b); }
  }

  lemma DatasetIsExact(w: World, s: State, l: Ledger)
    requires LedgerOk(w, s, l) && Positions(l.counted) >= w.target
    ensures DatasetOk(w, s.files, Ready(l))
  {
    hide RecordsOf, Count, Artifact, ArtifactURI, UnitID, Positions, EntryOk, BatchOk, ListedOk;
    var d := Ready(l);
    CountedAreRecords(w, s.files, l.counted);
    forall i, j | 0 <= i < j < |d.uris| ensures d.uris[i] != d.uris[j] {
      var x, y := l.counted[i], l.counted[j];
      assert x in l.counted && y in l.counted;
      UrisDiffer(w, s.files, x, y);
    }
    forall uri | uri in d.uris ensures ListedOk(w, s.files, uri) {
      var k :| 0 <= k < |d.uris| && d.uris[k] == uri;
      var x := l.counted[k];
      assert x in l.counted;
      EntryCounts(w, s.files, x);
    }
  }

  lemma BossAnnouncesKeeps(w: World, s: State, stored: bool)
    requires Inv(w, s) && Enabled(w, s, BossAnnounces(stored))
    ensures Inv(w, After(w, s, BossAnnounces(stored)))
  {
    hide LedgerOk, FileOk, BatchOk, DatasetOk, Artifact, Stored, IsTemp;
    var t := After(w, s, BossAnnounces(stored));
    DatasetIsExact(w, s, s.boss.ledger);
    BossStays(w, s, t);
    WorkStays(w, s, t);
    forall r | r in t.runs ensures RunOk(w, t, t.runs[r]) {
      RunStays(w, s, t, t.runs[r]);
    }
  }

  // ---- main results

  /** One step of anybody keeps the invariant, and every stored artifact keeps its contents. */
  lemma StepKeeps(w: World, s: State, step: Step)
    requires Inv(w, s) && Enabled(w, s, step)
    ensures Inv(w, After(w, s, step)) && Grown(w, s.files, After(w, s, step).files)
  {
    hide Inv, Enabled, After, Stored;
    match step {
      case Issue(stored, confirmed) => IssueKeeps(w, s, stored, confirmed);
      case Deliver(run, message) => DeliverKeeps(w, s, run, message);
      case CreateTemp(run, suffix) => CreateTempKeeps(w, s, run, suffix);
      case Write(run, upTo) => WriteKeeps(w, s, run, upTo);
      case Rename(run) => RenameKeeps(w, s, run);
      case Announce(run, stored, confirmed) => AnnounceKeeps(w, s, run, stored, confirmed);
      case Acknowledge(run, arrives) => AcknowledgeKeeps(w, s, run, arrives);
      case Reject(run) => RejectKeeps(w, s, run);
      case Crash(run) => CrashKeeps(w, s, run);
      case BossAnnounces(stored) => BossAnnouncesKeeps(w, s, stored);
      case _ => BossKeeps(w, s, step);
    }
    FilesUntouched(w, s, step);
  }

  lemma FilesUntouched(w: World, s: State, step: Step)
    requires Enabled(w, s, step)
    ensures step.CreateTemp? || step.Write? || step.Rename? || step.Reject? || After(w, s, step).files == s.files
  {
  }

  /** Over every interleaving of deliveries, crashes, rejections, replays and restarts. */
  lemma {:induction false} EveryRunIsSafe(w: World, steps: seq<Step>)
    ensures Inv(w, Execute(w, steps))
  {
    hide Enabled, After;
    if steps != [] {
      EveryRunIsSafe(w, steps[..|steps| - 1]);
      var s := Execute(w, steps[..|steps| - 1]);
      if Enabled(w, s, steps[|steps| - 1]) {
        StepKeeps(w, s, steps[|steps| - 1]);
      }
    }
  }

  /** An issued unit is in the work stream or has been announced; whatever has been announced verifies. */
  lemma IssuedWorkIsNeverLost(w: World, steps: seq<Step>, i: nat)
    requires i in Execute(w, steps).issued
    ensures Waiting(Execute(w, steps), i) || Reported(Execute(w, steps), w.generation, i)
  {
    EveryRunIsSafe(w, steps);
  }

  ghost function Continue(w: World, s: State, steps: seq<Step>): State {
    if steps == [] then s
    else
      var t := Continue(w, s, steps[..|steps| - 1]);
      if Enabled(w, t, steps[|steps| - 1]) then After(w, t, steps[|steps| - 1]) else t
  }

  lemma {:induction false} ContinueKeeps(w: World, s: State, steps: seq<Step>)
    requires Inv(w, s)
    ensures Inv(w, Continue(w, s, steps)) && Grown(w, s.files, Continue(w, s, steps).files)
  {
    hide Enabled, After, Inv, Stored;
    if steps != [] {
      ContinueKeeps(w, s, steps[..|steps| - 1]);
      var t := Continue(w, s, steps[..|steps| - 1]);
      if Enabled(w, t, steps[|steps| - 1]) {
        StepKeeps(w, t, steps[|steps| - 1]);
      }
    }
  }

  /** An announced checksum and size match what is stored, at once and for ever: replays write the same bytes. */
  lemma AnnouncementsVerifyForever(w: World, steps: seq<Step>, b: Batch, later: seq<Step>)
    requires b in Execute(w, steps).batches && b.uri != ""
    ensures Verifies(Store(Continue(w, Execute(w, steps), later).files, {}, w.digest), b)
    ensures Count(Continue(w, Execute(w, steps), later).files[b.uri]) == Some(b.positions)
  {
    hide Inv, Count, Artifact, ArtifactURI, Execute, Continue;
    var s := Execute(w, steps);
    EveryRunIsSafe(w, steps);
    ContinueKeeps(w, s, later);
    assert BatchOk(w, s.files, b) by { BatchIsOk(w, s, b); }
    var i :| BatchTells(w, s.files, b, i);
    assert Stored(w, Continue(w, s, later).files, i);
    CountOfFrame(w.play(i), 0);
    assert Count(Artifact(w, i)) == Some(|w.play(i)|) by { ArtifactCounts(w, i); }
  }

  lemma BatchIsOk(w: World, s: State, b: Batch)
    requires Inv(w, s) && b in s.batches
    ensures BatchOk(w, s.files, b)
  {
  }

  lemma ArtifactCounts(w: World, i: nat)
    ensures Count(Artifact(w, i)) == Some(|w.play(i)|)
  {
    CountOfFrame(w.play(i), 0);
  }

  /** Whenever a dataset has been announced, its artifacts are distinct and stored, reach the target, and hold
      together exactly the positions it claims; and it stays that way. */
  lemma DatasetsStayExact(w: World, steps: seq<Step>, d: Dataset, later: seq<Step>)
    requires d in Execute(w, steps).datasets
    ensures DatasetOk(w, Continue(w, Execute(w, steps), later).files, d)
  {
    hide Count, Artifact, ArtifactURI, Execute, Continue, Stored;
    var s := Execute(w, steps);
    EveryRunIsSafe(w, steps);
    ContinueKeeps(w, s, later);
    var t := Continue(w, s, later);
    RecordsStay(w, s.files, t.files, d.uris);
    forall uri | uri in d.uris ensures ListedOk(w, t.files, uri) {
      assert ListedOk(w, s.files, uri);
    }
  }

  /** A coordinator, however often restarted, counts each unit at most once and for exactly what it played. */
  lemma UnitsAreCountedOnce(w: World, steps: seq<Step>)
    requires !Execute(w, steps).boss.Down?
    ensures var l := LedgerOf(Execute(w, steps).boss).value;
      && (forall i, j | 0 <= i < j < |l.counted| :: l.counted[i].unit != l.counted[j].unit)
      && (forall e | e in l.counted :: EntryOk(w, Execute(w, steps).files, e))
      && Positions(l.counted) == RecordsOf(Execute(w, steps).files, URIs(l.counted))
  {
    hide Count, Artifact, ArtifactURI, Execute, EntryOk;
    EveryRunIsSafe(w, steps);
    var l := LedgerOf(Execute(w, steps).boss).value;
    CountedAreRecords(w, Execute(w, steps).files, l.counted);
  }
}
