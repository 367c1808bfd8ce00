/** The transposition table (tt.go): packed words, lockless reading, replacement. */
module TranspositionTable {
  import opened Squares
  import opened Words
  import Search

  const WORD: nat := 0x1_0000_0000_0000_0000
  const MATE_BOUND: int := Search.MATE_SCORE - Search.MAX_MATE_DEPTH
  const BUCKET_SIZE: nat := 4

  // ---- exclusive or on words

  function XorOf(a: nat, b: nat, width: nat): nat {
    if width == 0 then 0 else (if a % 2 == b % 2 then 0 else 1) + 2 * XorOf(a / 2, b / 2, width - 1)
  }

  lemma {:induction false} XorUndoes(a: nat, b: nat, width: nat)
    requires a < Pow2(width)
    ensures XorOf(XorOf(a, b, width), b, width) == a
    ensures XorOf(a, b, width) < Pow2(width)
  {
    if width > 0 {
      XorUndoes(a / 2, b / 2, width - 1);
      var low := if a % 2 == b % 2 then 0 else 1;
      var rest := XorOf(a / 2, b / 2, width - 1);
      var x := XorOf(a, b, width);
      assert x == low + 2 * rest;
      assert x % 2 == low && x / 2 == rest;
    }
  }

  lemma {:induction false} XorCommutes(a: nat, b: nat, width: nat)
    ensures XorOf(a, b, width) == XorOf(b, a, width)
  {
    if width > 0 {
      XorCommutes(a / 2, b / 2, width - 1);
    }
  }

  lemma WordBound()
    ensures Pow2(64) == WORD
  {
    hide Pow2;
    FourthPower();
    PowersMultiply(4, 4);
    PowersMultiply(8, 8);
    PowersMultiply(16, 16);
    PowersMultiply(32, 32);
  }

  lemma FourthPower()
    ensures Pow2(4) == 16
  {
  }

  function Xor64(a: nat, b: nat): nat { XorOf(a, b, 64) }

  lemma WordsUndo(a: nat, b: nat)
    requires a < WORD
    ensures Xor64(Xor64(a, b), b) == a && Xor64(b, Xor64(b, a)) == a && Xor64(a, b) < WORD && Xor64(a, b) == Xor64(b, a)
  {
    hide XorOf, Pow2;
    WordBound();
    XorUndoes(a, b, 64);
    XorCommutes(a, b, 64);
    XorCommutes(b, Xor64(a, b), 64);
  }

  // ---- the packed word

  datatype Bound = NoBound | Upper | Lower | Exact

  function Code(b: Bound): nat {
    match b
    case NoBound => 0
    case Upper => 1
    case Lower => 2
    case Exact => 3
  }

  function BoundOf(code: nat): Bound {
    if code == 0 then NoBound else if code == 1 then Upper else if code == 2 then Lower else Exact
  }

  function Pack(move: nat, score: int, staticEval: int, depth: int, bound: Bound, gen: nat): nat {
    Join(move % 0x1_0000, 0x1_0000, Join(To16(score), 0x1_0000, Join(To16(staticEval), 0x1_0000,
      Join(depth % 0x100, 0x100, Join(Code(bound), 4, gen % 64)))))
  }

  /** A field below the shifted remainder of the word; the two do not overlap, so or is a sum. */
  function Join(low: nat, base: nat, high: nat): nat { low + base * high }

  function MoveOf(d: nat): nat { d % 0x1_0000 }

  function ScoreOf(d: nat): int { From16((d / 0x1_0000) % 0x1_0000) }

  function DepthOf(d: nat): nat { (d / 0x1_0000_0000_0000) % 0x100 }

  function BoundIn(d: nat): Bound { BoundOf((d / 0x100_0000_0000_0000) % 4) }

  function GenOf(d: nat): nat { (d / 0x400_0000_0000_0000) % 64 }

  /** Every field comes back from the word as it went in, wrapped to its width. */
  lemma PackRoundTrip(move: nat, score: int, staticEval: int, depth: int, bound: Bound, gen: nat)
    requires move < 0x1_0000 && 0 <= depth < 0x100
    ensures var d := Pack(move, score, staticEval, depth, bound, gen);
      && d < WORD
      && MoveOf(d) == move && ScoreOf(d) == From16(To16(score)) && DepthOf(d) == depth && BoundIn(d) == bound &&
        GenOf(d) == gen % 64
      && (bound != NoBound ==> d != 0)
  {
    hide Join, To16, From16, Code, BoundOf;
    var top := Join(Code(bound), 4, gen % 64);
    var fromDepth := Join(depth % 0x100, 0x100, top);
    var fromEval := Join(To16(staticEval), 0x1_0000, fromDepth);
    var fromScore := Join(To16(score), 0x1_0000, fromEval);
    var d := Join(move % 0x1_0000, 0x1_0000, fromScore);
    Cut(Code(bound), gen % 64, 4) by { CodeRoundTrip(bound); }
    Cut(depth % 0x100, top, 0x100);
    Cut(To16(staticEval), fromDepth, 0x1_0000) by { SixteenBits(staticEval); }
    Cut(To16(score), fromEval, 0x1_0000) by { SixteenBits(score); }
    Cut(move % 0x1_0000, fromScore, 0x1_0000);
    CutTwice(d);
    CodeRoundTrip(bound);
    SixteenBits(score);
    if d == 0 { assert top == 0; }
  }

  lemma CodeRoundTrip(b: Bound)
    ensures Code(b) < 4 && BoundOf(Code(b)) == b && (Code(b) == 0 <==> b.NoBound?)
  {
  }

  lemma Cut(low: nat, high: nat, base: nat)
    requires low < base && (base == 4 || base == 0x100 || base == 0x1_0000)
    ensures Join(low, base, high) / base == high && Join(low, base, high) % base == low
    ensures forall limit: nat :: high < limit ==> Join(low, base, high) < base * limit
  {
    forall limit: nat | high < limit ensures Join(low, base, high) < base * limit {
      assert base * limit >= base * (high + 1);
    }
  }

  lemma CutTwice(d: nat)
    ensures d / 0x1_0000_0000_0000 == d / 0x1_0000 / 0x1_0000 / 0x1_0000
    ensures d / 0x100_0000_0000_0000 == d / 0x1_0000_0000_0000 / 0x100
    ensures d / 0x400_0000_0000_0000 == d / 0x100_0000_0000_0000 / 4
  {
  }

  // ---- mate scores

  function ToTable(score: int, ply: int): int {
    if score >= MATE_BOUND then score + ply
    else if score <= -MATE_BOUND then score - ply
    else score
  }

  function FromTable(score: int, ply: int): int {
    if score >= MATE_BOUND then score - ply
    else if score <= -MATE_BOUND then score + ply
    else score
  }

  /** A mate seen from ply p, seen from ply q: p - q further from the root. No other score moves. */
  function FromPly(score: int, p: nat, q: nat): int {
    if score >= MATE_BOUND then score + p - q
    else if score <= -MATE_BOUND then score - (p - q)
    else score
  }

  /** Storing at one ply and reading at another is exactly that shift. */
  lemma MateShift(score: int, p: nat, q: nat)
    ensures FromTable(ToTable(score, p), q) == FromPly(score, p, q)
  {
  }

  function Clamp(x: int, lo: int, hi: int): int { if x > hi then hi else if x < lo then lo else x }

  // ---- one bucket

  datatype Slot = Slot(keyx: nat, data: nat)

  type Bucket = b: seq<Slot> | |b| == BUCKET_SIZE witness seq(BUCKET_SIZE, i => Slot(0, 0))

  predicate Matches(s: Slot, key: nat) { Xor64(s.keyx, s.data) == key && s.data != 0 }

  function Written(key: nat, data: nat): Slot { Slot(Xor64(key, data), data) }

  predicate Vacant(s: Slot) { BoundIn(s.data).NoBound? }

  function KeyIn(s: Slot): nat { Xor64(s.keyx, s.data) }

  /** Slots fill from the front, vacant ones are blank, and no key is held twice. */
  ghost predicate BucketOk(b: Bucket) {
    && (forall i | 0 <= i < BUCKET_SIZE && Vacant(b[i]) :: b[i] == Slot(0, 0))
    && (forall i, j | 0 <= i < j < BUCKET_SIZE && Vacant(b[i]) :: Vacant(b[j]))
    && (forall i, j | 0 <= i < j < BUCKET_SIZE && !Vacant(b[j]) :: KeyIn(b[i]) != KeyIn(b[j]))
  }

  /** Depth, discounted for slots not of this generation; the generation compared is not reduced to six bits. */
  function Worth(s: Slot, gen: nat): int { DepthOf(s.data) - if GenOf(s.data) != gen then 64 else 0 }

  predicate Stops(s: Slot, key: nat) { Vacant(s) || Matches(s, key) }

  predicate SomeStops(b: Bucket, key: nat) { exists i :: 0 <= i < BUCKET_SIZE && Stops(b[i], key) }

  predicate NoneStopsBefore(b: Bucket, key: nat, v: nat)
    requires v <= BUCKET_SIZE
  {
    forall i | 0 <= i < v :: !Stops(b[i], key)
  }

  /** The first slot of least worth. */
  predicate LeastWorth(b: Bucket, gen: nat, v: nat)
    requires v < BUCKET_SIZE
  {
    && (forall i | 0 <= i < BUCKET_SIZE :: Worth(b[v], gen) <= Worth(b[i], gen))
    && (forall i | 0 <= i < v :: Worth(b[v], gen) < Worth(b[i], gen))
  }

  /** The slot that gives way: the first vacant or matching one, else the first of least worth. */
  predicate IsVictim(b: Bucket, key: nat, gen: nat, v: nat) {
    && v < BUCKET_SIZE
    && if SomeStops(b, key) then Stops(b[v], key) && NoneStopsBefore(b, key, v) else LeastWorth(b, gen, v)
  }

  predicate Aged(s: Slot, gen: nat) { GenOf(s.data) != gen }

  /** The aged slot i goes before the current slot j unless it is more than 63 plies deeper; at 64 the first goes. */
  predicate GoesBefore(b: Bucket, i: nat, j: nat)
    requires i < BUCKET_SIZE && j < BUCKET_SIZE
  {
    DepthOf(b[i].data) <= DepthOf(b[j].data) + 63 || (DepthOf(b[i].data) == DepthOf(b[j].data) + 64 && i < j)
  }

  /** What gives way when no slot is vacant or matching: an aged slot if and only if one goes before every current
      one, so that an older entry may stay while one of the running search goes; and among slots alike in age a
      shallowest, the first of those. */
  lemma WhatGivesWay(b: Bucket, key: nat, gen: nat, v: nat)
    requires v < BUCKET_SIZE && IsVictim(b, key, gen, v)
    requires forall i | 0 <= i < BUCKET_SIZE :: !Vacant(b[i]) && !Matches(b[i], key)
    ensures Aged(b[v], gen) <==>
      exists i: nat :: i < BUCKET_SIZE && Aged(b[i], gen) &&
        forall j: nat | j < BUCKET_SIZE && !Aged(b[j], gen) :: GoesBefore(b, i, j)
    ensures forall i | 0 <= i < BUCKET_SIZE && Aged(b[i], gen) == Aged(b[v], gen) ::
      DepthOf(b[v].data) < DepthOf(b[i].data) || (DepthOf(b[v].data) == DepthOf(b[i].data) && v <= i)
  {
    hide DepthOf, GenOf, Vacant, Matches;
    assert LeastWorth(b, gen, v);
    forall i | 0 <= i < BUCKET_SIZE
      ensures Worth(b[i], gen) == DepthOf(b[i].data) - if Aged(b[i], gen) then 64 else 0
    {
    }
    if Aged(b[v], gen) {
      forall j: nat | j < BUCKET_SIZE && !Aged(b[j], gen) ensures GoesBefore(b, v, j) {
      }
    }
  }

  /** A deeper exact result is not given up for a mere bound. */
  predicate Declines(s: Slot, key: nat, depth: int, bound: Bound) {
    Matches(s, key) && Outranks(s.data, depth, bound)
  }

  predicate Outranks(word: nat, depth: int, bound: Bound) {
    BoundIn(word).Exact? && DepthOf(word) > depth && !bound.Exact?
  }

  /** What a caller hands to Store. */
  datatype Record = Record(key: nat, move: nat, score: int, staticEval: int, depth: int, ply: nat, bound: Bound)

  /** Keys are 64-bit and moves 16-bit words. */
  predicate Storable(e: Record) { e.key < WORD && e.move < 0x1_0000 }

  /** The word a store writes when it takes the place of slot s. */
  function WordFor(s: Slot, e: Record, gen: nat): nat {
    Pack(KeptMove(s, e.key, e.move), ToTable(e.score, e.ply), Clamp(e.staticEval, -32768, 32767),
      Clamp(e.depth, 0, 255), e.bound, gen)
  }

  datatype Finding = Miss | Hit(move: nat, score: int, usable: bool)

  function Found(d: nat, depth: int, ply: int, alpha: int, beta: int): Finding {
    var score := FromTable(ScoreOf(d), ply);
    Hit(MoveOf(d), score,
      && DepthOf(d) >= depth
      && match BoundIn(d)
         case Exact => true
         case Lower => score >= beta
         case Upper => score <= alpha
         case NoBound => false)
  }

  /** What a bound says about the true score. */
  predicate Bounds(bound: Bound, score: int, truth: int) {
    match bound
    case Exact => truth == score
    case Lower => truth >= score
    case Upper => truth <= score
    case NoBound => true
  }

  /** Both scores call for the same decision of a search with this window: fail high, fail low, or the score itself. */
  predicate SameDecision(x: int, y: int, alpha: int, beta: int) {
    (x >= beta && y >= beta) || (x <= alpha && y <= alpha) || x == y
  }

  /** A stored score is usable exactly where it is deep enough, carries a bound, and every true score that the bound
      allows calls for the same decision. */
  lemma UsableExactlyWhen(d: nat, depth: int, ply: int, alpha: int, beta: int)
    requires alpha < beta
    ensures var r := Found(d, depth, ply, alpha, beta);
      r.usable <==>
        && DepthOf(d) >= depth && !BoundIn(d).NoBound?
        && forall truth | Bounds(BoundIn(d), r.score, truth) :: SameDecision(r.score, truth, alpha, beta)
  {
    hide BoundIn, DepthOf, ScoreOf, MoveOf;
    var score := FromTable(ScoreOf(d), ply);
    if BoundIn(d).Lower? && score < beta {
      assert Bounds(BoundIn(d), score, Max(beta, score + 1));
    }
    if BoundIn(d).Upper? && score > alpha {
      assert Bounds(BoundIn(d), score, if alpha < score - 1 then alpha else score - 1);
    }
  }

  /** A slot in use belongs to its bucket and holds the last effective word for its key. */
  ghost predicate SlotRemembers(last: map<nat, nat>, s: Slot, bucket: nat, count: nat)
    requires count > 0
  {
    !Vacant(s) ==> KeyIn(s) in last && last[KeyIn(s)] == s.data && KeyIn(s) % count == bucket
  }

  ghost predicate BucketRemembers(last: map<nat, nat>, b: Bucket, bucket: nat, count: nat)
    requires count > 0
  {
    forall i | 0 <= i < BUCKET_SIZE :: SlotRemembers(last, b[i], bucket, count)
  }

  predicate Answers(b: Bucket, key: nat, i: nat)
    requires i < BUCKET_SIZE
  {
    !Vacant(b[i]) && Matches(b[i], key)
  }

  class Table {
    const buckets: array<Bucket>
    var gen: nat
    /** The word of the last store for each key that was not declined. */
    ghost var last: map<nat, nat>

    ghost predicate Valid()
      reads this, buckets
    {
      && buckets.Length > 0
      && (forall k | 0 <= k < buckets.Length :: BucketOk(buckets[k]))
      && (forall k | 0 <= k < buckets.Length :: BucketRemembers(last, buckets[k], k, buckets.Length))
    }

    constructor (count: nat)
      requires count > 0
      ensures Valid() && fresh(buckets) && buckets.Length == count && gen == 0 && last == map[]
    {
      BlankIsOk();
      buckets := new Bucket[count](i => seq(BUCKET_SIZE, j => Slot(0, 0)));
      gen := 0;
      last := map[];
    }

    /** The bucket of a key; the count is a power of two, so the mask takes a remainder. */
    function Index(key: nat): (k: nat)
      requires buckets.Length > 0
      ensures k < buckets.Length
    {
      key % buckets.Length
    }

    lemma IndexIs(key: nat)
      requires buckets.Length > 0
      ensures Index(key) == key % buckets.Length
    {
    }

    method NewSearch()
      modifies this`gen
      ensures gen == (old(gen) + 1) % 0x1_0000_0000
    {
      gen := (gen + 1) % 0x1_0000_0000;
    }

    /** A hit reports the last effective store for the key, and there is one whenever some slot answers to it. */
    method Probe(key: nat, depth: int, ply: int, alpha: int, beta: int) returns (r: Finding)
      requires Valid()
      ensures r.Miss? <==> forall i | 0 <= i < BUCKET_SIZE :: !Answers(buckets[Index(key)], key, i)
      ensures r.Miss? || (key in last && r == Found(last[key], depth, ply, alpha, beta))
    {
      hide Xor64, Vacant, Index, BoundIn, ScoreOf, DepthOf, MoveOf, FromTable, BucketOk;
      var b := buckets[Index(key)];
      assert BucketRemembers(last, b, Index(key), buckets.Length);
      for i := 0 to BUCKET_SIZE
        invariant forall j | 0 <= j < i :: !Answers(b, key, j)
      {
        if !Vacant(b[i]) && Matches(b[i], key) {
          assert Answers(b, key, i) && SlotRemembers(last, b[i], Index(key), buckets.Length);
          var d := b[i].data;
          var move := MoveOf(d);
          var score := FromTable(ScoreOf(d), ply);
          if DepthOf(d) < depth {
            return Hit(move, score, false);
          }
          var usable := false;
          match BoundIn(d) {
            case Exact => usable := true;
            case Lower => usable := score >= beta;
            case Upper => usable := score <= alpha;
            case NoBound =>
          }
          return Hit(move, score, usable);
        }
      }
      return Miss;
    }

    /** Exactly one slot is written, or none when a deeper exact word would give way to a bound. The table
        stays valid whenever a real bound is stored. */
    method Store(e: Record) returns (ghost victim: nat, ghost kept: bool)
      requires buckets.Length > 0 && Storable(e)
      modifies buckets, this`last
      ensures forall k | 0 <= k < buckets.Length && k != Index(e.key) :: buckets[k] == old(buckets[k])
      ensures IsVictim(old(buckets[Index(e.key)]), e.key, gen % 256, victim)
      ensures kept == Declines(old(buckets[Index(e.key)])[victim], e.key, e.depth, e.bound)
      ensures kept ==> buckets[Index(e.key)] == old(buckets[Index(e.key)]) && last == old(last)
      ensures !kept ==>
        var word := WordFor(old(buckets[Index(e.key)])[victim], e, gen % 256);
        && buckets[Index(e.key)] == old(buckets[Index(e.key)])[victim := Written(e.key, word)]
        && last == old(last)[e.key := word]
      ensures old(Valid()) && !e.bound.NoBound? ==> Valid()
    {
      hide Xor64, Pack, Index, Vacant, BucketOk, Matches, Worth, KeyIn, BucketRemembers, WordFor;
      var b := buckets[Index(e.key)];
      var generation := gen % 256;
      var v := 0;
      var bestValue := 0x4000_0000;
      var i := 0;
      var m := e.move;
      var stopped := false;
      while i < BUCKET_SIZE && !stopped
        invariant 0 <= i <= BUCKET_SIZE && 0 <= v < BUCKET_SIZE
        invariant !stopped ==> m == e.move && NoneStopsBefore(b, e.key, i)
        invariant !stopped ==> forall j | 0 <= j < i :: bestValue <= Worth(b[j], generation)
        invariant !stopped && i > 0 ==> v < i && bestValue == Worth(b[v], generation)
        invariant !stopped && i > 0 ==> forall j | 0 <= j < v :: bestValue < Worth(b[j], generation)
        invariant buckets[..] == old(buckets[..]) && last == old(last)
        invariant i == 0 ==> bestValue == 0x4000_0000
        invariant stopped ==> v == i && Stops(b[v], e.key) && NoneStopsBefore(b, e.key, v)
        invariant stopped ==> m == KeptMove(b[v], e.key, e.move) && !Declines(b[v], e.key, e.depth, e.bound)
        decreases BUCKET_SIZE - i, if stopped then 0 else 1
      {
        var d := b[i].data;
        var matches := Matches(b[i], e.key);
        if Vacant(b[i]) || matches {
          v := i;
          if matches && BoundIn(d).Exact? && DepthOf(d) > e.depth && !e.bound.Exact? {
            return v, true;
          }
          if matches && m == 0 {
            m := MoveOf(d);
          }
          stopped := true;
        } else {
          WorthIsSmall(b[i], generation);
          if Worth(b[i], generation) < bestValue {
            bestValue := Worth(b[i], generation);
            v := i;
          }
          i := i + 1;
        }
      }
      if !stopped { NotKept(b[v], e.key, e.move, e.depth, e.bound); }
      var word := Pack(m, ToTable(e.score, e.ply), Clamp(e.staticEval, -32768, 32767), Clamp(e.depth, 0, 255),
        e.bound, generation);
      assert word == WordFor(b[v], e, generation) by { WordIs(b[v], e, generation, m); }
      IndexIs(e.key);
      StoreKeepsValid(old(buckets[..]), last, Index(e.key), v, e, generation);
      var updated: Bucket := b[v := Written(e.key, word)];
      buckets[Index(e.key)] := updated;
      last := last[e.key := word];
      assert buckets[..] == old(buckets[..])[Index(e.key) := updated];
      return v, false;
    }
  }

  lemma WordIs(s: Slot, e: Record, gen: nat, m: nat)
    requires m == KeptMove(s, e.key, e.move)
    ensures WordFor(s, e, gen) == Pack(m, ToTable(e.score, e.ply), Clamp(e.staticEval, -32768, 32767),
      Clamp(e.depth, 0, 255), e.bound, gen)
  {
  }

  /** What Valid says, about the contents of the array. */
  ghost predicate AllOk(buckets: seq<Bucket>, last: map<nat, nat>) {
    && |buckets| > 0
    && (forall k | 0 <= k < |buckets| :: BucketOk(buckets[k]))
    && (forall k | 0 <= k < |buckets| :: BucketRemembers(last, buckets[k], k, |buckets|))
  }

  lemma StoreKeepsValid(buckets: seq<Bucket>, last: map<nat, nat>, at: nat, v: nat, e: Record, gen: nat)
    requires Storable(e) && |buckets| > 0 && at == e.key % |buckets|
    requires IsVictim(buckets[at], e.key, gen, v) && v < BUCKET_SIZE
    ensures var word := WordFor(buckets[at][v], e, gen);
      AllOk(buckets, last) && !e.bound.NoBound? ==>
        AllOk(buckets[at := buckets[at][v := Written(e.key, word)]], last[e.key := word])
  {
    hide Xor64, Worth, BucketOk, IsVictim, BucketRemembers, Written;
    VictimIsSlot(buckets[at], e.key, gen, v);
    var word := WordFor(buckets[at][v], e, gen);
    if AllOk(buckets, last) && !e.bound.NoBound? {
      WordIsRead(buckets[at][v], e, gen);
      StoreKeepsBucket(buckets[at], e.key, gen, v, word);
      StoreKeepsMemory(buckets[at], e.key, gen, v, word, last, at, |buckets|);
      forall k | 0 <= k < |buckets| && k != at
        ensures BucketRemembers(last[e.key := word], buckets[k], k, |buckets|)
      {
        OtherBucketRemembers(buckets[k], last, k, |buckets|, e.key, word);
      }
    }
  }

  /** How the fields of a written word read. */
  lemma WordIsRead(s: Slot, e: Record, gen: nat)
    requires Storable(e)
    ensures var d := WordFor(s, e, gen);
      && d < WORD && (!e.bound.NoBound? ==> d != 0)
      && MoveOf(d) == KeptMove(s, e.key, e.move) && ScoreOf(d) == From16(To16(ToTable(e.score, e.ply)))
      && DepthOf(d) == Clamp(e.depth, 0, 255) && BoundIn(d) == e.bound && GenOf(d) == gen % 64
  {
    hide Pack, MoveOf, ScoreOf, DepthOf, BoundIn, GenOf, To16, From16, ToTable, KeptMove;
    PackRoundTrip(KeptMove(s, e.key, e.move), ToTable(e.score, e.ply), Clamp(e.staticEval, -32768, 32767),
      Clamp(e.depth, 0, 255), e.bound, gen);
  }

  lemma StoreKeepsMemory(b: Bucket, key: nat, gen: nat, v: nat, word: nat, last: map<nat, nat>, at: nat, count: nat)
    requires BucketOk(b) && IsVictim(b, key, gen, v) && key < WORD && word < WORD && !BoundIn(word).NoBound?
    requires count > 0 && key % count == at && BucketRemembers(last, b, at, count)
    ensures BucketRemembers(last[key := word], b[v := Written(key, word)], at, count)
  {
    hide Xor64, Worth, BucketOk, IsVictim;
    assert v < BUCKET_SIZE by { VictimIsSlot(b, key, gen, v); }
    var c: Bucket := b[v := Written(key, word)];
    forall i | 0 <= i < BUCKET_SIZE ensures SlotRemembers(last[key := word], c[i], at, count) {
      if i == v {
        WordsUndo(key, word);
      } else {
        assert SlotRemembers(last, b[i], at, count);
        if !Vacant(b[i]) { OthersDiffer(b, key, gen, v, i); }
      }
    }
  }

  lemma VictimIsSlot(b: Bucket, key: nat, gen: nat, v: nat)
    requires IsVictim(b, key, gen, v)
    ensures v < BUCKET_SIZE
  {
  }

  lemma OtherBucketRemembers(b: Bucket, last: map<nat, nat>, k: nat, count: nat, key: nat, word: nat)
    requires count > 0 && BucketRemembers(last, b, k, count) && key % count != k
    ensures BucketRemembers(last[key := word], b, k, count)
  {
    hide Xor64, Vacant;
    forall i | 0 <= i < BUCKET_SIZE ensures SlotRemembers(last[key := word], b[i], k, count) {
      assert SlotRemembers(last, b[i], k, count);
    }
  }

  /** A store without a move keeps the move already known for the position. */
  function KeptMove(s: Slot, key: nat, move: nat): (m: nat)
    ensures move < 0x1_0000 ==> m < 0x1_0000
  {
    if Matches(s, key) && move == 0 then MoveOf(s.data) else move
  }

  lemma BlankIsOk()
    ensures BucketOk(seq(BUCKET_SIZE, j => Slot(0, 0)))
    ensures Vacant(Slot(0, 0))
  {
  }

  lemma NotKept(s: Slot, key: nat, move: nat, depth: int, bound: Bound)
    requires !Stops(s, key)
    ensures KeptMove(s, key, move) == move && !Declines(s, key, depth, bound)
  {
  }

  lemma WorthIsSmall(s: Slot, gen: nat)
    ensures Worth(s, gen) < 0x4000_0000
  {
  }

  lemma StoreKeepsBucket(b: Bucket, key: nat, gen: nat, v: nat, word: nat)
    requires BucketOk(b) && IsVictim(b, key, gen, v)
    requires key < WORD && word < WORD && word != 0 && !BoundIn(word).NoBound?
    ensures BucketOk(b[v := Written(key, word)]) && Matches(Written(key, word), key)
  {
    hide Xor64, Worth;
    WordsUndo(key, word);
    var c: Bucket := b[v := Written(key, word)];
    forall i, j | 0 <= i < j < BUCKET_SIZE && !Vacant(c[j]) ensures KeyIn(c[i]) != KeyIn(c[j]) {
      if i == v {
        OthersDiffer(b, key, gen, v, j);
      } else if j == v {
        OthersDiffer(b, key, gen, v, i);
      }
    }
  }

  lemma OthersDiffer(b: Bucket, key: nat, gen: nat, v: nat, j: nat)
    requires BucketOk(b) && IsVictim(b, key, gen, v) && j < BUCKET_SIZE && j != v && (!Vacant(b[j]) || j < v)
    ensures KeyIn(b[j]) != key
  {
    hide Xor64, Worth;
    var other := b[j];
    assert !Vacant(other) && other.data != 0;
    assert KeyIn(other) != key || Stops(other, key);
    assert v < j && Stops(b[v], key) ==> Vacant(b[v]) || KeyIn(b[v]) == key;
  }

  /** The search's own scores always fit the sixteen bits. */
  lemma SearchScoresFit(score: int, ply: nat)
    requires -Search.INFINITE <= score <= Search.INFINITE && ply <= Search.MAX_PLY
    ensures -0x8000 <= ToTable(score, ply) < 0x8000
  {
  }

  /** A store and a probe of the same key: always a hit. Unless the word already held outranks the new one and
      is kept, the probe reports the record just stored: its move (or, when it has none, the move known before if the
      key was held), its score moved by the difference of the plies if it is a mate, usable by its depth and bound. */
  method StoreThenProbe(t: Table, e: Record, depth: int, ply: nat, alpha: int, beta: int)
      returns (r: Finding, ghost kept: bool)
    requires t.Valid() && Storable(e) && !e.bound.NoBound?
    modifies t.buckets, t`last
    ensures t.Valid() && e.key in t.last && r == Found(t.last[e.key], depth, ply, alpha, beta)
    ensures kept ==> t.last == old(t.last) && Outranks(t.last[e.key], e.depth, e.bound)
    ensures !kept ==> t.last == old(t.last)[e.key := t.last[e.key]] && Reports(r, e, depth, ply, alpha, beta)
    ensures !kept && e.move == 0 && r.move != 0 ==> e.key in old(t.last) && r.move == MoveOf(old(t.last)[e.key])
    ensures old(Held(t.buckets[t.Index(e.key)], e.key)) ==> e.key in old(t.last)
    ensures !kept && e.move == 0 && old(Held(t.buckets[t.Index(e.key)], e.key)) ==>
      r.move == MoveOf(old(t.last)[e.key])
  {
    hide Xor64, Pack, Found, Vacant, Worth, IsVictim, BucketOk, Reports, KeptMove;
    ghost var victim;
    var b := t.buckets[t.Index(e.key)];
    assert BucketOk(b) && BucketRemembers(t.last, b, t.Index(e.key), t.buckets.Length);
    victim, kept := t.Store(e);
    VictimIsSlot(b, e.key, t.gen % 256, victim);
    StoredAnswers(b, e, t.gen % 256, victim, kept);
    assert Answers(t.buckets[t.Index(e.key)], e.key, victim);
    r := t.Probe(e.key, depth, ply, alpha, beta);
    assert SlotRemembers(old(t.last), b[victim], t.Index(e.key), t.buckets.Length);
    KeptIsRemembered(b[victim], e, old(t.last), t.Index(e.key), t.buckets.Length);
    if Vacant(b[victim]) { VacantKnowsNothing(b, victim, e.key); }
    HeldIsVictim(b, e.key, t.gen % 256, victim);
    if !kept {
      FoundReports(b[victim], e, t.gen % 256, depth, ply, alpha, beta);
    }
  }

  /** Some slot answers to the key. */
  predicate Held(b: Bucket, key: nat) { exists i: nat :: i < BUCKET_SIZE && Answers(b, key, i) }

  /** A slot that answers to the key is the one that gives way, and its move is kept by a store without one. */
  lemma HeldIsVictim(b: Bucket, key: nat, gen: nat, v: nat)
    requires BucketOk(b) && v < BUCKET_SIZE && IsVictim(b, key, gen, v)
    ensures Held(b, key) ==> Answers(b, key, v) && KeyIn(b[v]) == key && KeptMove(b[v], key, 0) == MoveOf(b[v].data)
  {
    hide Xor64, Vacant, MoveOf, Worth;
    if i: nat :| i < BUCKET_SIZE && Answers(b, key, i) {
      assert Stops(b[i], key) && SomeStops(b, key);
    }
  }

  /** What a probe answers when a record was the last thing stored for its key. */
  predicate Reports(r: Finding, e: Record, depth: int, ply: nat, alpha: int, beta: int) {
    && r.Hit?
    && (e.move != 0 ==> r.move == e.move)
    && (-0x8000 <= ToTable(e.score, e.ply) < 0x8000 ==> r.score == FromPly(e.score, e.ply, ply))
    && (r.usable <==>
          && Clamp(e.depth, 0, 255) >= depth
          && !e.bound.NoBound?
          && (e.bound.Lower? ==> r.score >= beta)
          && (e.bound.Upper? ==> r.score <= alpha))
  }

  lemma StoredAnswers(b: Bucket, e: Record, gen: nat, v: nat, kept: bool)
    requires Storable(e) && !e.bound.NoBound? && IsVictim(b, e.key, gen, v)
    requires kept == Declines(b[v], e.key, e.depth, e.bound)
    ensures Answers(if kept then b else b[v := Written(e.key, WordFor(b[v], e, gen))], e.key, v)
  {
    hide Xor64, Worth, IsVictim, WordFor;
    VictimIsSlot(b, e.key, gen, v);
    WordIsRead(b[v], e, gen);
    WordsUndo(e.key, WordFor(b[v], e, gen));
  }

  /** A slot that answers to a key holds its last word, so its move is the one known before. */
  lemma KeptIsRemembered(s: Slot, e: Record, last: map<nat, nat>, at: nat, count: nat)
    requires count > 0 && SlotRemembers(last, s, at, count)
    ensures !Vacant(s) && Matches(s, e.key) ==> e.key in last && last[e.key] == s.data
    ensures e.move == 0 && KeptMove(s, e.key, e.move) != 0 && !Vacant(s) ==>
      e.key in last && KeptMove(s, e.key, e.move) == MoveOf(last[e.key])
  {
    hide Xor64, Vacant;
  }

  lemma VacantKnowsNothing(b: Bucket, v: nat, key: nat)
    requires BucketOk(b) && v < BUCKET_SIZE && Vacant(b[v])
    ensures KeptMove(b[v], key, 0) == 0
  {
  }

  lemma FoundReports(s: Slot, e: Record, gen: nat, depth: int, ply: nat, alpha: int, beta: int)
    requires Storable(e)
    ensures Reports(Found(WordFor(s, e, gen), depth, ply, alpha, beta), e, depth, ply, alpha, beta)
    ensures Found(WordFor(s, e, gen), depth, ply, alpha, beta).move == KeptMove(s, e.key, e.move)
  {
    hide WordFor, To16, From16, MoveOf, ScoreOf, DepthOf, BoundIn, KeptMove;
    WordIsRead(s, e, gen);
    SixteenBits(ToTable(e.score, e.ply));
    MateShift(e.score, e.ply, ply);
    GivenMoveIsKept(s, e.key, e.move);
  }

  lemma GivenMoveIsKept(s: Slot, key: nat, move: nat)
    ensures move != 0 ==> KeptMove(s, key, move) == move
  {
  }

  // ---- any sequence of stores

  datatype Op = Put(record: Record) | Advance

  /** The word is what record i left, and every later store for its key had to give way to it. */
  ghost predicate LastLeft(ops: seq<Op>, n: nat, i: nat, key: nat, word: nat)
    requires i < n <= |ops|
  {
    && ops[i].Put? && ops[i].record.key == key
    && ScoreOf(word) == From16(To16(ToTable(ops[i].record.score, ops[i].record.ply)))
    && DepthOf(word) == Clamp(ops[i].record.depth, 0, 255) && BoundIn(word) == ops[i].record.bound
    && (ops[i].record.move != 0 ==> MoveOf(word) == ops[i].record.move)
    && forall j | i < j < n && ops[j].Put? && ops[j].record.key == key ::
         Outranks(word, ops[j].record.depth, ops[j].record.bound)
  }

  ghost predicate Left(ops: seq<Op>, n: nat, key: nat, word: nat)
    requires n <= |ops|
  {
    exists i :: 0 <= i < n && LastLeft(ops, n, i, key, word)
  }

  /** After any sequence of stores and new searches, a probe of any key misses or reports exactly the last
      record stored for that key that did not have to give way to a deeper exact one. */
  method Replay(count: nat, ops: seq<Op>, key: nat, depth: int, ply: int, alpha: int, beta: int)
      returns (r: Finding, ghost word: nat)
    requires count > 0 && forall op | op in ops && op.Put? :: Storable(op.record) && !op.record.bound.NoBound?
    ensures r.Miss? || (r == Found(word, depth, ply, alpha, beta) && Left(ops, |ops|, key, word))
  {
    hide Xor64, Found, Vacant, Worth, IsVictim, BucketOk, LastLeft, WordFor, KeptMove;
    var t := new Table(count);
    for n := 0 to |ops|
      invariant t.Valid() && fresh(t) && fresh(t.buckets)
      invariant forall k | k in t.last :: Left(ops, n, k, t.last[k])
    {
      match ops[n] {
        case Advance =>
          t.NewSearch();
          forall k | k in t.last ensures Left(ops, n + 1, k, t.last[k]) {
            StillLeft(ops, n, k, t.last[k]);
          }
        case Put(e) =>
          assert ops[n] in ops;
          ghost var before := t.last;
          var b := t.buckets[t.Index(e.key)];
          assert BucketRemembers(t.last, b, t.Index(e.key), t.buckets.Length);
          ghost var victim, kept := t.Store(e);
          VictimIsSlot(b, e.key, t.gen % 256, victim);
          assert SlotRemembers(before, b[victim], t.Index(e.key), t.buckets.Length);
          KeptIsRemembered(b[victim], e, before, t.Index(e.key), t.buckets.Length);
          ExactIsInUse(b[victim], e);
          forall k | k in t.last ensures Left(ops, n + 1, k, t.last[k]) {
            if k == e.key && !kept {
              JustLeft(ops, n, b[victim], e, t.gen % 256);
            } else {
              StillLeft(ops, n, k, before[k]);
            }
          }
      }
    }
    r := t.Probe(key, depth, ply, alpha, beta);
    word := if key in t.last then t.last[key] else 0;
  }

  lemma ExactIsInUse(s: Slot, e: Record)
    ensures Declines(s, e.key, e.depth, e.bound) ==> !Vacant(s)
  {
  }

  lemma JustLeft(ops: seq<Op>, n: nat, s: Slot, e: Record, gen: nat)
    requires n < |ops| && ops[n] == Put(e) && Storable(e)
    ensures Left(ops, n + 1, e.key, WordFor(s, e, gen))
  {
    hide WordFor, To16, From16, KeptMove, MoveOf, ScoreOf, DepthOf, BoundIn;
    WordIsRead(s, e, gen);
    GivenMoveIsKept(s, e.key, e.move);
    assert LastLeft(ops, n + 1, n, e.key, WordFor(s, e, gen));
  }

  lemma StillLeft(ops: seq<Op>, n: nat, key: nat, word: nat)
    requires n < |ops| && Left(ops, n, key, word)
    requires ops[n].Put? && ops[n].record.key == key ==> Outranks(word, ops[n].record.depth, ops[n].record.bound)
    ensures Left(ops, n + 1, key, word)
  {
    var i :| 0 <= i < n && LastLeft(ops, n, i, key, word);
    assert LastLeft(ops, n + 1, i, key, word);
  }

  // ---- stores without a bound

  /** Why the search must never store without a bound: the slot then counts as vacant though others behind it
      are in use, and the next store of a key held further back takes that slot and leaves the key twice. */
  lemma NoBoundMakesDuplicates(b: Bucket, gen: nat, e: Record, e': Record)
    requires BucketOk(b) && Storable(e) && Storable(e') && e.key != e'.key
    requires Answers(b, e.key, 0) && Answers(b, e'.key, 1) && !BoundIn(b[0].data).Exact?
    requires e.bound.NoBound? && !e'.bound.NoBound?
    ensures var c := b[0 := Written(e.key, WordFor(b[0], e, gen))];
      && IsVictim(b, e.key, gen, 0) && !Declines(b[0], e.key, e.depth, e.bound)
      && IsVictim(c, e'.key, gen, 0) && !Declines(c[0], e'.key, e'.depth, e'.bound)
      && var d := c[0 := Written(e'.key, WordFor(c[0], e', gen))];
         Answers(d, e'.key, 0) && Answers(d, e'.key, 1)
  {
    hide Xor64, WordFor, Worth, BucketOk;
    var c := b[0 := Written(e.key, WordFor(b[0], e, gen))];
    WordIsRead(b[0], e, gen);
    WordsUndo(e.key, WordFor(b[0], e, gen));
    WordIsRead(c[0], e', gen);
    WordsUndo(e'.key, WordFor(c[0], e', gen));
    assert Stops(b[0], e.key) && Stops(c[0], e'.key);
  }

  // ---- ageing

  /** A slot with a bound of this depth, written for key k in generation gen. */
  function Sample(k: nat, depth: nat, gen: nat): Slot { Written(k, Pack(0, 0, 0, depth, Lower, gen)) }

  lemma SampleReads(k: nat, depth: nat, gen: nat)
    requires k < WORD && depth < 256 && gen < 64
    ensures var s := Sample(k, depth, gen);
      !Vacant(s) && KeyIn(s) == k && DepthOf(s.data) == depth && GenOf(s.data) == gen
  {
    hide Pack, DepthOf, GenOf, MoveOf, ScoreOf, BoundIn, Xor64;
    PackRoundTrip(0, 0, 0, depth, Lower, gen);
    WordsUndo(k, Pack(0, 0, 0, depth, Lower, gen));
  }

  /** An entry of the last search before three of the running one. */
  function Crowded(deep: nat, depth: nat, gen: nat): Bucket
    requires gen > 0
  {
    [Sample(0, deep, gen - 1), Sample(1, depth, gen), Sample(2, depth, gen), Sample(3, depth, gen)]
  }

  lemma CrowdedReads(deep: nat, depth: nat, gen: nat)
    requires deep < 256 && depth < 256 && 0 < gen < 64
    ensures forall i | 0 <= i < 4 :: !Vacant(Crowded(deep, depth, gen)[i]) && KeyIn(Crowded(deep, depth, gen)[i]) == i
    ensures Worth(Crowded(deep, depth, gen)[0], gen) == deep - 64 && Aged(Crowded(deep, depth, gen)[0], gen)
    ensures forall i | 0 < i < 4 ::
      Worth(Crowded(deep, depth, gen)[i], gen) == depth && !Aged(Crowded(deep, depth, gen)[i], gen)
  {
    hide Sample, DepthOf, GenOf, Vacant, KeyIn;
    SampleReads(0, deep, gen - 1);
    SampleReads(1, depth, gen);
    SampleReads(2, depth, gen);
    SampleReads(3, depth, gen);
  }

  /** For one: an entry of the last search stays, and one of the running search goes, when it is more than 64 plies
      deeper, though the older one is said to go first. */
  lemma OlderMayStay(deep: nat, depth: nat, gen: nat, v: nat)
    requires depth + 64 < deep < 256 && 0 < gen < 64
    ensures IsVictim(Crowded(deep, depth, gen), 4, gen, v) <==> v == 1
    ensures Aged(Crowded(deep, depth, gen)[0], gen) && !Aged(Crowded(deep, depth, gen)[1], gen)
  {
    hide Crowded, Vacant, Worth, Aged, KeyIn;
    CrowdedReads(deep, depth, gen);
    forall i | 0 <= i < BUCKET_SIZE ensures !Stops(Crowded(deep, depth, gen)[i], 4) {
      MatchesMeansKey(Crowded(deep, depth, gen)[i], 4);
    }
    var b := Crowded(deep, depth, gen);
    assert Worth(b[0], gen) == deep - 64 && Worth(b[1], gen) == Worth(b[2], gen) == Worth(b[3], gen) == depth;
  }

  lemma MatchesMeansKey(s: Slot, key: nat)
    ensures Matches(s, key) ==> KeyIn(s) == key
  {
    hide Xor64;
  }

  /** A word written in generation `stored` counts as current in generation `now` exactly when the eight bits
      compared equal the six bits kept. */
  lemma CurrentExactly(s: Slot, e: Record, stored: nat, now: nat)
    requires Storable(e)
    ensures var w := Written(e.key, WordFor(s, e, stored % 256));
      Worth(w, now % 256) == Clamp(e.depth, 0, 255) <==> now % 256 == stored % 64
  {
    hide WordFor, Clamp, DepthOf;
    WordIsRead(s, e, stored % 256);
    SixOfEightBits(stored);
  }

  lemma SixOfEightBits(x: nat)
    ensures x % 256 % 64 == x % 64
  {
    var q, r := x / 256, x % 256;
    assert x == 64 * (4 * q) + r;
  }

  /** n searches begin one after the other. */
  method Searches(t: Table, n: nat)
    requires t.Valid() && t.gen == 0 && n < 0x1_0000_0000
    modifies t`gen
    ensures t.Valid() && t.gen == n
  {
    hide BucketOk, BucketRemembers;
    for i := 0 to n
      invariant t.Valid() && t.gen == i
    {
      t.NewSearch();
    }
  }

  /** So what the n-th search stores is taken for current by that same search if and only if its number, in
      eight bits, is below 64. */
  method AgeingWorksUpTo64(t: Table, n: nat, e: Record) returns (ghost victim: nat, ghost kept: bool)
    requires t.Valid() && t.gen == 0 && n < 0x1_0000_0000 && Storable(e) && !e.bound.NoBound?
    modifies t`gen, t`last, t.buckets
    ensures t.Valid() && t.gen == n && victim < BUCKET_SIZE
    ensures !kept ==>
      (Worth(t.buckets[t.Index(e.key)][victim], n % 256) == Clamp(e.depth, 0, 255) <==> n % 256 < 64)
  {
    hide Xor64, Worth, WordFor, IsVictim, BucketOk, BucketRemembers, Clamp, Written, Declines, Table.Index;
    Searches(t, n);
    var b := t.buckets[t.Index(e.key)];
    victim, kept := t.Store(e);
    VictimIsSlot(b, e.key, n % 256, victim);
    CurrentExactly(b[victim], e, n, n);
  }

  // ---- one slot shared without locks

  /** A write under way has stored its key half; a read under way has loaded the data half. */
  datatype Thread = Idle | Half(key: nat, word: nat) | Loaded(key: nat, word: nat)

  /** A completed read that was accepted: what was asked, what came back, and whose key half was read. */
  datatype Accepted = Accepted(key: nat, word: nat, source: Option<(nat, nat)>)

  datatype Shared = Shared(cell: Slot, threads: map<nat, Thread>, log: seq<Accepted>,
    writes: set<(nat, nat)>, keyFrom: Option<(nat, nat)>)

  datatype Access = StoreKey(thread: nat, key: nat, word: nat) | StoreData(thread: nat) | LoadData(thread: nat,
      key: nat) | LoadKey(thread: nat)

  function At(s: Shared, t: nat): Thread { if t in s.threads then s.threads[t] else Idle }

  predicate Allowed(s: Shared, a: Access) {
    match a
    case StoreKey(t, key, word) => At(s, t).Idle? && key < WORD && word < WORD
    case StoreData(t) => At(s, t).Half?
    case LoadData(t, key) => At(s, t).Idle? && key < WORD
    case LoadKey(t) => At(s, t).Loaded?
  }

  /** The four atomic accesses of write and read. */
  function Perform(s: Shared, a: Access): Shared
    requires Allowed(s, a)
  {
    match a
    case StoreKey(t, key, word) =>
      s.(cell := s.cell.(keyx := Xor64(key, word)), threads := s.threads[t := Half(key, word)],
         writes := s.writes + {(key, word)}, keyFrom := Some((key, word)))
    case StoreData(t) =>
      s.(cell := s.cell.(data := s.threads[t].word), threads := s.threads[t := Idle])
    case LoadData(t, key) => s.(threads := s.threads[t := Loaded(key, s.cell.data)])
    case LoadKey(t) =>
      var r := s.threads[t];
      var done := s.(threads := s.threads[t := Idle]);
      if Xor64(s.cell.keyx, r.word) == r.key &&
        r.word != 0 then done.(log := s.log + [Accepted(r.key, r.word, s.keyFrom)]) else done
  }

  function Interleave(accesses: seq<Access>): Shared {
    if accesses == [] then Shared(Slot(0, 0), map[], [], {}, None)
    else
      var s := Interleave(accesses[..|accesses| - 1]);
      if Allowed(s, accesses[|accesses| - 1]) then Perform(s, accesses[|accesses| - 1]) else s
  }

  predicate WordWritten(s: Shared, word: nat) { exists w :: w in s.writes && w.1 == word }

  /** What an accepted read can be: the word of the very write whose key half it saw, or, if that write was for
      another key, a word differing from it exactly as the keys differ. */
  predicate Explained(s: Shared, r: Accepted) {
    && r.word < WORD && r.key < WORD && WordWritten(s, r.word)
    && match r.source
       case None => r.word == r.key
       case Some(w) => w in s.writes && Xor64(Xor64(w.0, w.1), r.word) == r.key && (w.0 == r.key ==> w.1 == r.word)
  }

  ghost predicate Coherent(s: Shared) {
    && s.cell.keyx == (if s.keyFrom.Some? then Xor64(s.keyFrom.value.0, s.keyFrom.value.1) else 0)
    && (s.keyFrom.Some? ==> s.keyFrom.value in s.writes)
    && (forall w | w in s.writes :: w.0 < WORD && w.1 < WORD)
    && (s.cell.data == 0 || WordWritten(s, s.cell.data))
    && (forall t | t in s.threads :: ThreadOk(s, s.threads[t]))
    && (forall r | r in s.log :: Explained(s, r))
  }

  predicate ThreadOk(s: Shared, t: Thread) {
    match t
    case Idle => true
    case Half(key, word) => (key, word) in s.writes
    case Loaded(key, word) => key < WORD && (word == 0 || WordWritten(s, word))
  }

  lemma PerformKeeps(s: Shared, a: Access)
    requires Coherent(s) && Allowed(s, a)
    ensures Coherent(Perform(s, a))
  {
    hide Xor64;
    var n := Perform(s, a);
    forall word | WordWritten(s, word) ensures WordWritten(n, word) {
      var w :| w in s.writes && w.1 == word;
      assert w in n.writes;
    }
    if a.StoreData? {
      var t := s.threads[a.thread];
      assert ThreadOk(s, t) && (t.key, t.word) in n.writes;
    }
    if a.LoadKey? && n.log != s.log {
      var r := s.threads[a.thread];
      assert ThreadOk(s, r);
      ReadIsExplained(s, r);
    }
    forall t | t in n.threads ensures ThreadOk(n, n.threads[t]) {
      assert t in s.threads ==> ThreadOk(s, s.threads[t]);
    }
    forall r | r in n.log ensures Explained(n, r) {
      assert r in s.log ==> Explained(s, r);
    }
  }

  lemma ReadIsExplained(s: Shared, r: Thread)
    requires Coherent(s) && r.Loaded? && ThreadOk(s, r)
    requires Xor64(s.cell.keyx, r.word) == r.key && r.word != 0
    ensures Explained(s, Accepted(r.key, r.word, s.keyFrom))
  {
    hide Xor64;
    var w :| w in s.writes && w.1 == r.word;
    if s.keyFrom.Some? {
      var (key, word) := s.keyFrom.value;
      if key == r.key { XorDetermines(key, word, r.word); }
    } else {
      ZeroWord(r.word);
    }
  }

  /** keyx ^ d == key with keyx == key ^ word leaves d no choice. */
  lemma XorDetermines(key: nat, word: nat, d: nat)
    requires key < WORD && word < WORD && d < WORD
    requires Xor64(Xor64(key, word), d) == key
    ensures d == word
  {
    hide Xor64;
    WordsUndo(word, key);
    WordsUndo(key, word);
    WordsUndo(d, Xor64(key, word));
    assert Xor64(Xor64(key, word), key) == d;
    WordsUndo(word, key);
  }

  lemma {:induction false} ZeroIsNeutral(a: nat, width: nat)
    requires a < Pow2(width)
    ensures XorOf(0, a, width) == a
  {
    if width > 0 {
      ZeroIsNeutral(a / 2, width - 1);
    }
  }

  lemma ZeroWord(a: nat)
    requires a < WORD
    ensures Xor64(0, a) == a
  {
    hide XorOf, Pow2;
    WordBound();
    ZeroIsNeutral(a, 64);
  }

  /** Under every interleaving of any number of readers and writers, each accepted word was once stored whole;
      and if the key half came from a write for the probed key, the word is exactly that write's. */
  lemma {:induction false} EveryInterleavingIsCoherent(accesses: seq<Access>)
    ensures Coherent(Interleave(accesses))
  {
    hide Allowed, Perform, Coherent;
    if accesses == [] {
      NothingDoneIsCoherent();
    } else {
      var before := accesses[..|accesses| - 1];
      EveryInterleavingIsCoherent(before);
      if Allowed(Interleave(before), accesses[|accesses| - 1]) {
        PerformKeeps(Interleave(before), accesses[|accesses| - 1]);
      }
    }
  }

  lemma NothingDoneIsCoherent()
    ensures Coherent(Shared(Slot(0, 0), map[], [], {}, None))
  {
  }

  /** Hence a reader is deceived only by a coincidence: two writes for different keys whose words differ by
      exactly the difference of the key asked and the key written. */
  lemma DeceptionNeedsCoincidence(accesses: seq<Access>, r: Accepted)
    requires r in Interleave(accesses).log && r.source.Some?
    requires forall w, v | w in Interleave(accesses).writes && v in Interleave(accesses).writes && w.0 != r.key ::
      Xor64(Xor64(w.0, w.1), v.1) != r.key
    ensures r.source.value.0 == r.key && r.source.value.1 == r.word && (r.key, r.word) in Interleave(accesses).writes
  {
    hide Xor64, Interleave;
    EveryInterleavingIsCoherent(accesses);
    var s := Interleave(accesses);
    assert Explained(s, r);
    var v :| v in s.writes && v.1 == r.word;
  }
}
