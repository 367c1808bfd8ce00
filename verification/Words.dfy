/** Machine words as bits, lowest first, and the subset enumeration that fills the magic tables
    (attacks.go). The trick there, occ = (occ - mask) & mask, is shown to be a counter running through the
    bits of the mask, so it visits every subset exactly once. */
module Words {
  type Bits = seq<bool>

  function Pow2(n: nat): (p: nat)
    ensures p > 0
  {
    if n == 0 then 1 else 2 * Pow2(n - 1)
  }

  function Bit(b: bool): nat { if b then 1 else 0 }

  /** The number a word stands for. */
  function Value(w: Bits): (v: nat)
    ensures v < Pow2(|w|)
  {
    if w == [] then 0 else Bit(w[0]) + 2 * Value(w[1..])
  }

  /** Two's complement in sixteen bits, truncating as the conversion does, and back. */
  function To16(x: int): nat { x % 0x1_0000 }

  function From16(u: nat): int { if u < 0x8000 then u else u - 0x1_0000 }

  lemma SixteenBits(x: int)
    ensures To16(x) < 0x1_0000 && (-0x8000 <= x < 0x8000 ==> From16(To16(x)) == x)
  {
  }

  function Zero(n: nat): (w: Bits)
    ensures |w| == n
  {
    seq(n, i => false)
  }

  function And(a: Bits, b: Bits): (c: Bits)
    requires |a| == |b|
    ensures |c| == |a| && forall i | 0 <= i < |a| :: c[i] == (a[i] && b[i])
  {
    seq(|a|, i requires 0 <= i < |a| => a[i] && b[i])
  }

  /** Whether taking y and a borrow from x borrows in turn. */
  predicate Borrows(x: bool, y: bool, borrow: bool) { (!x && (y || borrow)) || (y && borrow) }

  /** A difference as the machine keeps it: reduced modulo two to the width. */
  function Reduced(difference: int, width: nat): int {
    if difference >= 0 then difference else difference + Pow2(width)
  }

  /** Subtraction with borrow, bit by bit. */
  function Sub(a: Bits, b: Bits, borrow: bool): (c: Bits)
    requires |a| == |b|
    ensures |c| == |a|
  {
    if a == [] then []
    else [(a[0] != b[0]) != borrow] + Sub(a[1..], b[1..], Borrows(a[0], b[0], borrow))
  }

  /** It is the machine's subtraction: exact modulo two to the width. */
  lemma {:induction false} SubIsMachineSubtraction(a: Bits, b: Bits, borrow: bool)
    requires |a| == |b|
    ensures Value(Sub(a, b, borrow)) == Reduced(Value(a) - Value(b) - Bit(borrow), |a|)
  {
    hide Value, Pow2, Sub;
    if a == [] {
      NothingToSubtract(a, b, borrow);
    } else {
      SubIsMachineSubtraction(a[1..], b[1..], Borrows(a[0], b[0], borrow));
      SubStep(a, b, borrow);
      ValueStep(a);
      ValueStep(b);
      ValueStep(Sub(a, b, borrow));
      OnePowerMore(|a| - 1);
    }
  }

  lemma NothingToSubtract(a: Bits, b: Bits, borrow: bool)
    requires a == b == []
    ensures Value(Sub(a, b, borrow)) == Reduced(Value(a) - Value(b) - Bit(borrow), 0)
  {
  }

  lemma ValueStep(w: Bits)
    requires w != []
    ensures Value(w) == Bit(w[0]) + 2 * Value(w[1..])
  {
  }

  lemma SubStep(a: Bits, b: Bits, borrow: bool)
    requires |a| == |b| > 0
    ensures var c := Sub(a, b, borrow);
      c[0] == ((a[0] != b[0]) != borrow) && c[1..] == Sub(a[1..], b[1..], Borrows(a[0], b[0], borrow))
  {
  }

  /** b - 1, as subtracting nothing with a borrow. */
  function MinusOne(w: Bits): (c: Bits)
    ensures |c| == |w|
  {
    Sub(w, Zero(|w|), true)
  }

  lemma {:induction false} ZeroValue(n: nat)
    ensures Value(Zero(n)) == 0
  {
    if n > 0 {
      assert Zero(n)[1..] == Zero(n - 1);
      ZeroValue(n - 1);
    }
  }

  lemma MinusOneIsMachineDecrement(w: Bits)
    ensures Value(MinusOne(w)) == if Value(w) > 0 then Value(w) - 1 else Pow2(|w|) - 1
  {
    hide Value, Pow2, Sub, Zero;
    SubIsMachineSubtraction(w, Zero(|w|), true);
    ZeroValue(|w|);
  }

  /** b & (b - 1) keeps exactly the ones that have another one below them. */
  lemma {:induction false} DecrementClearsLowest(w: Bits, i: nat)
    requires i < |w|
    ensures And(w, MinusOne(w))[i] <==> w[i] && exists j | 0 <= j < i :: w[j]
  {
    var z := Zero(|w|);
    assert z[1..] == Zero(|w| - 1);
    var next := (!w[0] && (z[0] || true)) || (z[0] && true);
    assert MinusOne(w)[1..] == Sub(w[1..], z[1..], next);
    if i > 0 {
      if w[0] {
        NoBorrow(w[1..]);
        assert MinusOne(w)[i] == w[1..][i - 1];
        assert w[0];
      } else {
        DecrementClearsLowest(w[1..], i - 1);
        assert MinusOne(w)[i] == MinusOne(w[1..])[i - 1];
        forall j | 0 <= j < i - 1 && w[1..][j] ensures exists k | 0 <= k < i :: w[k] {
          assert w[j + 1];
        }
        forall j | 0 <= j < i && w[j] ensures exists k | 0 <= k < i - 1 :: w[1..][k] {
          assert w[1..][j - 1];
        }
      }
    }
  }

  lemma {:induction false} NoBorrow(w: Bits)
    ensures Sub(w, Zero(|w|), false) == w
  {
    if w != [] {
      assert Zero(|w|)[1..] == Zero(|w| - 1);
      NoBorrow(w[1..]);
    }
  }

  predicate SubsetOf(o: Bits, m: Bits) {
    |o| == |m| && forall i | 0 <= i < |m| :: o[i] ==> m[i]
  }

  /** The carry-rippler step. */
  function NextSubset(o: Bits, m: Bits): Bits
    requires |o| == |m|
  {
    And(Sub(o, m, false), m)
  }

  /** The bits of o at the places where m has ones, read as a number. */
  function Compress(o: Bits, m: Bits): nat
    requires |o| == |m|
  {
    if m == [] then 0
    else if m[0] then Bit(o[0]) + 2 * Compress(o[1..], m[1..])
    else Compress(o[1..], m[1..])
  }

  function Ones(m: Bits): nat { if m == [] then 0 else Bit(m[0]) + Ones(m[1..]) }

  lemma TailSubset(o: Bits, m: Bits)
    requires SubsetOf(o, m) && m != []
    ensures SubsetOf(o[1..], m[1..])
  {
  }

  lemma AndTail(a: Bits, b: Bits)
    requires |a| == |b| && a != []
    ensures And(a, b) == [a[0] && b[0]] + And(a[1..], b[1..])
  {
  }

  /** With a borrow coming in, subtracting the mask and masking again changes nothing. */
  lemma {:induction false} BorrowedStepIsIdentity(o: Bits, m: Bits)
    requires SubsetOf(o, m)
    ensures And(Sub(o, m, true), m) == o
  {
    if m != [] {
      TailSubset(o, m);
      BorrowedStepIsIdentity(o[1..], m[1..]);
      var d := Sub(o, m, true);
      assert d[1..] == Sub(o[1..], m[1..], true);
      AndTail(d, m);
    }
  }

  /** The step adds one to the compressed number: a counter over the mask bits. */
  lemma {:induction false} StepCounts(o: Bits, m: Bits)
    requires SubsetOf(o, m)
    ensures SubsetOf(NextSubset(o, m), m)
    ensures Compress(o, m) < Pow2(Ones(m))
    ensures Compress(NextSubset(o, m), m) == if Compress(o, m) + 1 == Pow2(Ones(m)) then 0 else Compress(o, m) + 1
  {
    if m != [] {
      TailSubset(o, m);
      StepCounts(o[1..], m[1..]);
      var d := Sub(o, m, false);
      AndTail(d, m);
      var n := NextSubset(o, m);
      if m[0] && !o[0] {
        assert d[1..] == Sub(o[1..], m[1..], true);
        BorrowedStepIsIdentity(o[1..], m[1..]);
        assert n[1..] == o[1..];
      } else {
        assert d[1..] == Sub(o[1..], m[1..], false);
        assert n[1..] == NextSubset(o[1..], m[1..]);
      }
    }
  }

  /** Different subsets of a mask have different numbers. */
  lemma {:induction false} CompressInjective(o: Bits, p: Bits, m: Bits)
    requires SubsetOf(o, m) && SubsetOf(p, m) && Compress(o, m) == Compress(p, m)
    ensures o == p
  {
    if m != [] {
      TailSubset(o, m);
      TailSubset(p, m);
      CompressInjective(o[1..], p[1..], m[1..]);
      assert o == [o[0]] + o[1..] && p == [p[0]] + p[1..];
    }
  }

  lemma {:induction false} CompressZero(m: Bits)
    ensures Compress(Zero(|m|), m) == 0
  {
    if m != [] {
      assert Zero(|m|)[1..] == Zero(|m| - 1);
      CompressZero(m[1..]);
    }
  }

  /** Enumerates the subsets of a mask as initMagics does, from the empty set until it comes round again:
      position i holds the subset numbered i, so every subset occurs, once. */
  method Subsets(m: Bits) returns (all: seq<Bits>)
    ensures |all| == Pow2(Ones(m))
    ensures forall i | 0 <= i < |all| :: SubsetOf(all[i], m) && Compress(all[i], m) == i
    ensures forall o | SubsetOf(o, m) :: Compress(o, m) < |all| && all[Compress(o, m)] == o
  {
    var occ := Zero(|m|);
    CompressZero(m);
    all := [];
    while true
      invariant SubsetOf(occ, m) && Compress(occ, m) == |all| < Pow2(Ones(m))
      invariant forall i | 0 <= i < |all| :: SubsetOf(all[i], m) && Compress(all[i], m) == i
      decreases Pow2(Ones(m)) - |all|
    {
      all := all + [occ];
      StepCounts(occ, m);
      occ := NextSubset(occ, m);
      if occ == Zero(|m|) {
        break;
      }
      if Compress(occ, m) == 0 { CompressInjective(occ, Zero(|m|), m); }
    }
    forall o | SubsetOf(o, m) ensures Compress(o, m) < |all| && all[Compress(o, m)] == o {
      StepCounts(o, m);
      CompressInjective(o, all[Compress(o, m)], m);
    }
  }

  // ---- the index of a magic multiplication

  /** The product that survives in a word of n bits. */
  function WordProduct(a: nat, b: nat, n: nat): (p: nat)
    ensures p < Pow2(n)
  {
    (a * b) % Pow2(n)
  }

  function ShiftRight(x: nat, n: nat): nat {
    Divide(x, Pow2(n))
  }

  function Divide(x: nat, d: nat): nat
    requires d > 0
  {
    x / d
  }

  /** (w * magic) >> (width - n) in width-bit arithmetic. */
  function MagicIndex(w: Bits, magic: nat, n: nat): nat
    requires n <= |w|
  {
    ShiftRight(WordProduct(Value(w), magic, |w|), |w| - n)
  }

  lemma {:induction false} PowersMultiply(a: nat, b: nat)
    ensures Pow2(a + b) == Pow2(a) * Pow2(b)
  {
    hide Pow2;
    if a == 0 {
      NoPower();
    } else {
      calc {
        Pow2(a + b);
        { OnePowerMore(a + b - 1); }
        2 * Pow2(a - 1 + b);
        { PowersMultiply(a - 1, b); }
        2 * (Pow2(a - 1) * Pow2(b));
        { ProductRegroups(2, Pow2(a - 1), Pow2(b)); }
        (2 * Pow2(a - 1)) * Pow2(b);
        { OnePowerMore(a - 1); }
        Pow2(a) * Pow2(b);
      }
    }
  }

  lemma NoPower()
    ensures Pow2(0) == 1
  {
  }

  lemma OnePowerMore(n: nat)
    ensures Pow2(n + 1) == 2 * Pow2(n)
  {
  }

  lemma ProductRegroups(x: int, y: int, z: int)
    ensures x * (y * z) == (x * y) * z
  {
  }

  lemma QuotientBelow(x: nat, q: nat, d: nat)
    requires d > 0 && x < q * d
    ensures x / d < q
  {
    var k := x / d;
    assert k * d <= x;
    assert (k - q) * d < 0;
  }

  /** The index always falls inside a table of two to the n slots. */
  lemma MagicIndexInRange(w: Bits, magic: nat, n: nat)
    requires n <= |w|
    ensures MagicIndex(w, magic, n) < Pow2(n)
  {
    PowersMultiply(n, |w| - n);
    QuotientBelow(WordProduct(Value(w), magic, |w|), Pow2(n), Pow2(|w| - n));
  }
}
