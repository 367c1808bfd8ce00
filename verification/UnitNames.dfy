/** How a unit's index is printed into its ID and its artifact's name, and how resume reads it back. */
module UnitNames {
  import opened Squares

  const EXTENSION := ".novadata"
  const MAX_INT: int := 0x7fff_ffff_ffff_ffff

  predicate IsDigit(c: char) { '0' <= c <= '9' }

  predicate AllDigits(s: string) { forall i | 0 <= i < |s| :: IsDigit(s[i]) }

  function Decimal(n: nat): (s: string)
    ensures s != "" && AllDigits(s)
  {
    if n < 10 then ['0' + n as char] else Decimal(n / 10) + ['0' + (n % 10) as char]
  }

  /** The number that a string of digits stands for. */
  function Number(s: string): nat
    requires AllDigits(s)
  {
    if s == "" then 0 else 10 * Number(s[..|s| - 1]) + (s[|s| - 1] - '0') as nat
  }

  function Zeros(n: nat): string { seq(n, i => '0') }

  /** The %06d verb. */
  function SixDigits(n: nat): (s: string)
    ensures s != "" && AllDigits(s)
  {
    var s := Decimal(n);
    if |s| < 6 then Zeros(6 - |s|) + s else s
  }

  /** strconv.Atoi for 64-bit integers: an optional sign, then nothing but digits. */
  function Atoi(s: string): Option<int> {
    var digits := if s != "" && (s[0] == '-' || s[0] == '+') then s[1..] else s;
    if digits == "" || !AllDigits(digits) then None
    else
      var value: int := if s[0] == '-' then 0 - Number(digits) else Number(digits);
      if -MAX_INT - 1 <= value <= MAX_INT then Some(value) else None
  }

  function CutSuffix(s: string, suffix: string): Option<string> {
    if |suffix| <= |s| && s[|s| - |suffix|..] == suffix then Some(s[..|s| - |suffix|]) else None
  }

  function CutPrefix(s: string, prefix: string): Option<string> {
    if prefix <= s then Some(s[|prefix|..]) else None
  }

  function TrimSlashes(p: string): string {
    if p != "" && p[|p| - 1] == '/' then TrimSlashes(p[..|p| - 1]) else p
  }

  function AfterLastSlash(p: string): string {
    if p == "" || p[|p| - 1] == '/' then "" else AfterLastSlash(p[..|p| - 1]) + [p[|p| - 1]]
  }

  /** path.Base. */
  function Base(p: string): string {
    if p == "" then "."
    else if TrimSlashes(p) == "" then "/"
    else AfterLastSlash(TrimSlashes(p))
  }

  function Prefix(generation: nat): string { "g" + Decimal(generation) + "-u" }

  function UnitID(generation: nat, index: nat): string { Prefix(generation) + SixDigits(index) }

  function FileName(generation: nat, index: nat): string { UnitID(generation, index) + EXTENSION }

  /** unitIndex: the index in a name that this generation's naming could have produced. */
  function UnitIndex(generation: nat, uri: string): Option<nat> {
    match CutSuffix(Base(uri), EXTENSION)
    case None => None
    case Some(name) =>
      match CutPrefix(name, Prefix(generation))
      case None => None
      case Some(digits) =>
        match Atoi(digits)
        case None => None
        case Some(index) => if index >= 0 && SixDigits(index) == digits then Some(index) else None
  }

  // ---- digits

  lemma {:induction false} DecimalReadsBack(n: nat)
    ensures Number(Decimal(n)) == n
  {
    if n >= 10 {
      DecimalReadsBack(n / 10);
      assert Decimal(n)[..|Decimal(n)| - 1] == Decimal(n / 10);
    } else {
      assert Decimal(n)[..0] == "";
    }
  }

  lemma {:induction false} LeadingZeros(k: nat, s: string)
    requires AllDigits(s)
    ensures Number(Zeros(k) + s) == Number(s)
  {
    var z := Zeros(k) + s;
    if s != "" {
      assert z[..|z| - 1] == Zeros(k) + s[..|s| - 1];
      LeadingZeros(k, s[..|s| - 1]);
    } else if k > 0 {
      assert z[..|z| - 1] == Zeros(k - 1) + s;
      LeadingZeros(k - 1, s);
    } else {
      assert z == s;
    }
  }

  lemma SixDigitsReadBack(n: nat)
    ensures Number(SixDigits(n)) == n
  {
    DecimalReadsBack(n);
    var s := Decimal(n);
    if |s| < 6 {
      LeadingZeros(6 - |s|, s);
    }
  }

  lemma AtoiOfSixDigits(n: nat)
    ensures Atoi(SixDigits(n)) == if n <= MAX_INT then Some(n) else None
  {
    SixDigitsReadBack(n);
    assert IsDigit(SixDigits(n)[0]);
  }

  // ---- paths

  lemma {:induction false} NameAfterSlash(dir: string, name: string)
    requires forall i | 0 <= i < |name| :: name[i] != '/'
    ensures AfterLastSlash(dir + "/" + name) == name
  {
    var p := dir + "/" + name;
    if name != "" {
      assert p[..|p| - 1] == dir + "/" + name[..|name| - 1];
      NameAfterSlash(dir, name[..|name| - 1]);
    }
  }

  lemma BaseOfName(dir: string, name: string)
    requires name != "" && forall i | 0 <= i < |name| :: name[i] != '/'
    ensures Base(dir + "/" + name) == name
  {
    var p := dir + "/" + name;
    assert p[|p| - 1] == name[|name| - 1];
    NameAfterSlash(dir, name);
  }

  // ---- main laws

  /** unitIndex inverts the printing exactly: it answers with an index if and only if the last path element is
      the very name printed for that index (within the range of a 64-bit integer). */
  lemma UnitIndexInvertsNaming(generation: nat, uri: string, index: nat)
    ensures UnitIndex(generation, uri) == Some(index) <==> index <= MAX_INT && Base(uri) == FileName(generation, index)
  {
    hide Base, UnitIndex, FileName, SixDigits;
    if UnitIndex(generation, uri) == Some(index) {
      IndexIsOfName(generation, uri, index);
    }
    if index <= MAX_INT && Base(uri) == FileName(generation, index) {
      NameHasIndex(generation, uri, index);
    }
  }

  lemma IndexIsOfName(generation: nat, uri: string, index: nat)
    requires UnitIndex(generation, uri) == Some(index)
    ensures index <= MAX_INT && Base(uri) == FileName(generation, index)
  {
    hide Base, SixDigits, Atoi, Prefix;
    AtoiOfSixDigits(index);
    var name := CutSuffix(Base(uri), EXTENSION).value;
    assert Base(uri) == name + EXTENSION;
    assert name == Prefix(generation) + SixDigits(index);
  }

  lemma NameHasIndex(generation: nat, uri: string, index: nat)
    requires index <= MAX_INT && Base(uri) == FileName(generation, index)
    ensures UnitIndex(generation, uri) == Some(index)
  {
    hide Base, SixDigits, Atoi, Prefix;
    AtoiOfSixDigits(index);
    var id := UnitID(generation, index);
    assert (id + EXTENSION)[..|id|] == id;
    assert CutSuffix(Base(uri), EXTENSION) == Some(id);
    assert id[|Prefix(generation)|..] == SixDigits(index);
  }

  lemma NoSlashInNames(generation: nat, index: nat)
    ensures forall i | 0 <= i < |FileName(generation, index)| :: FileName(generation, index)[i] != '/'
  {
    hide Decimal, SixDigits;
    var d, s := Decimal(generation), SixDigits(index);
    forall c | c in d || c in s ensures c != '/' {
      assert IsDigit(c);
    }
  }

  /** Wherever the store puts an artifact, its name gives the index back. */
  lemma StoredNameGivesIndex(generation: nat, dir: string, index: nat)
    requires index <= MAX_INT
    ensures UnitIndex(generation, dir + "/" + FileName(generation, index)) == Some(index)
  {
    NoSlashInNames(generation, index);
    BaseOfName(dir, FileName(generation, index));
    UnitIndexInvertsNaming(generation, dir + "/" + FileName(generation, index), index);
  }

  /** No two units of any generations share an ID. */
  lemma UnitIDsDiffer(g1: nat, i1: nat, g2: nat, i2: nat)
    requires UnitID(g1, i1) == UnitID(g2, i2)
    ensures g1 == g2 && i1 == i2
  {
    hide SixDigits, Decimal;
    var da, db, sa, sb := Decimal(g1), Decimal(g2), SixDigits(i1), SixDigits(i2);
    assert UnitID(g1, i1) == "g" + da + "-u" + sa && UnitID(g2, i2) == "g" + db + "-u" + sb;
    DigitsEndAtDash(da, sa, db, sb);
    DecimalReadsBack(g1);
    DecimalReadsBack(g2);
    SixDigitsReadBack(i1);
    SixDigitsReadBack(i2);
  }

  lemma DigitsEndAtDash(da: string, sa: string, db: string, sb: string)
    requires AllDigits(da) && AllDigits(db) && "g" + da + "-u" + sa == "g" + db + "-u" + sb
    ensures da == db && sa == sb
  {
    var a, b := "g" + da + "-u" + sa, "g" + db + "-u" + sb;
    assert a[1 + |da|] == '-' && b[1 + |db|] == '-';
    assert forall k | 1 <= k <= |da| :: IsDigit(a[k]);
    assert forall k | 1 <= k <= |db| :: IsDigit(b[k]);
    assert |da| == |db|;
    assert a[1..1 + |da|] == da && b[1..1 + |db|] == db;
    assert a[|da| + 3..] == sa && b[|db| + 3..] == sb;
  }
}
