/** File names of a day's Parquet parts (services/cold_export/naming.py) and the names the
    database's drop function accepts. */
module ColdNaming {
  const FIRST_PART := "measurements.parquet"
  const STEM := "measurements-"
  const SUFFIX := ".parquet"

  function Digit(d: nat): char
    requires d < 10
  {
    ('0' as int + d) as char
  }

  function Digits(n: nat): string {
    if n < 10 then [Digit(n)] else Digits(n / 10) + [Digit(n % 10)]
  }

  function Zeros(k: nat): string {
    if k == 0 then "" else Zeros(k - 1) + "0"
  }

  /** The decimal form padded with zeros to at least four characters. */
  function Padded(n: nat): string {
    var d := Digits(n);
    if |d| >= 4 then d else Zeros(4 - |d|) + d
  }

  function PartFile(index: nat): string {
    if index == 0 then FIRST_PART else STEM + Padded(index) + SUFFIX
  }

  /** A part file by its index; its name on disk is `PartFile(index)`. */
  datatype FileName = Part(index: nat)

  predicate IsDigit(c: char) {
    '0' <= c <= '9'
  }

  /** What the drop function accepts: the first part, or exactly four digits after the stem. */
  predicate Droppable(part: string) {
    part == FIRST_PART ||
    (|part| == 25 && part[..13] == STEM && part[17..] == SUFFIX && forall i :: 13 <= i < 17 ==> IsDigit(part[i]))
  }

  /** Whether the drop function accepts the part: its name is `Droppable` (see `DroppableExactly`). */
  predicate DropAccepts(f: FileName) { f.index < 10000 }

  /** The number a digit string spells. */
  ghost function Value(s: string): int {
    if s == "" then 0 else 10 * Value(s[..|s| - 1]) + (s[|s| - 1] as int - '0' as int)
  }

  lemma {:induction false} DigitsSpell(n: nat)
    ensures Value(Digits(n)) == n
    ensures |Digits(n)| > 0 && forall i :: 0 <= i < |Digits(n)| ==> IsDigit(Digits(n)[i])
  {
    if n >= 10 {
      DigitsSpell(n / 10);
      var d := Digits(n);
      assert d[..|d| - 1] == Digits(n / 10);
    }
  }

  lemma {:induction false} ZerosSpellNothing(k: nat, s: string)
    ensures Value(Zeros(k) + s) == Value(s)
    ensures |Zeros(k)| == k && forall i :: 0 <= i < k ==> Zeros(k)[i] == '0'
    decreases k, |s|
  {
    var z := Zeros(k) + s;
    if s != "" {
      ZerosSpellNothing(k, s[..|s| - 1]);
      assert z[..|z| - 1] == Zeros(k) + s[..|s| - 1];
    } else if k > 0 {
      ZerosSpellNothing(k - 1, s);
      assert Zeros(k - 1) + s == Zeros(k - 1);
      assert z == Zeros(k) && z[..|z| - 1] == Zeros(k - 1);
    }
  }

  lemma PaddedValue(n: nat)
    ensures Value(Padded(n)) == n && |Padded(n)| >= 4
  {
    DigitsSpell(n);
    var d := Digits(n);
    if |d| < 4 {
      ZerosSpellNothing(4 - |d|, d);
      assert Padded(n) == Zeros(4 - |d|) + d;
    } else {
      assert Padded(n) == d;
    }
  }

  lemma PaddedDigits(n: nat)
    ensures forall i :: 0 <= i < |Padded(n)| ==> IsDigit(Padded(n)[i])
  {
    DigitsSpell(n);
    var d := Digits(n);
    if |d| < 4 {
      ZerosSpellNothing(4 - |d|, []);
      ZerosAreDigits(Zeros(4 - |d|), d);
    }
  }

  lemma PaddedSpells(n: nat)
    ensures Value(Padded(n)) == n && |Padded(n)| >= 4
    ensures forall i :: 0 <= i < |Padded(n)| ==> IsDigit(Padded(n)[i])
  {
    PaddedValue(n);
    PaddedDigits(n);
  }

  lemma ZerosAreDigits(z: string, d: string)
    requires (forall i :: 0 <= i < |z| ==> z[i] == '0') && forall i :: 0 <= i < |d| ==> IsDigit(d[i])
    ensures forall i :: 0 <= i < |z + d| ==> IsDigit((z + d)[i])
  {
  }

  ghost function Pow10(k: nat): nat {
    if k == 0 then 1 else 10 * Pow10(k - 1)
  }

  lemma {:induction false} DigitCount(n: nat, k: nat)
    requires k >= 1
    ensures |Digits(n)| <= k <==> n < Pow10(k)
  {
    if k == 1 {
      assert Pow10(1) == 10 * Pow10(0);
      if n >= 10 { DigitsSpell(n / 10); }
    } else if n >= 10 {
      DigitCount(n / 10, k - 1);
    } else {
      PowPositive(k - 1);
    }
  }

  lemma PowPositive(k: nat)
    ensures Pow10(k) >= 1
  {
  }

  lemma PartFileLength(i: nat)
    ensures |PartFile(i)| == if i == 0 then 20 else |Padded(i)| + 21
    ensures i > 0 ==> PartFile(i)[13..|Padded(i)| + 13] == Padded(i)
  {
  }

  /** Distinct indices never share a file name. */
  lemma PartFileInjective(i: nat, j: nat)
    requires PartFile(i) == PartFile(j)
    ensures i == j
  {
    PaddedSpells(i);
    PaddedSpells(j);
    PartFileLength(i);
    PartFileLength(j);
  }

  lemma PaddedToFour(i: nat)
    ensures |Padded(i)| == 4 <==> i < 10000
  {
    DigitsSpell(i);
    DigitCount(i, 4);
    assert Pow10(4) == 10000 by {
      assert Pow10(1) == 10 && Pow10(2) == 100 && Pow10(3) == 1000;
    }
    if |Digits(i)| < 4 { ZerosSpellNothing(4 - |Digits(i)|, Digits(i)); }
  }

  /** The drop function accepts exactly the first ten thousand part names. */
  lemma DroppableExactly(f: FileName)
    ensures Droppable(PartFile(f.index)) <==> DropAccepts(f)
  {
    var i := f.index;
    PaddedToFour(i);
    if i > 0 {
      PaddedSpells(i);
      PartFileLength(i);
      NumberedName(PartFile(i), Padded(i));
    }
  }

  lemma NumberedName(a: string, p: string)
    requires a == STEM + p + SUFFIX && |p| >= 4 && forall i :: 0 <= i < |p| ==> IsDigit(p[i])
    ensures Droppable(a) <==> |p| == 4
  {
    assert |STEM| == 13 && |SUFFIX| == 8 && |FIRST_PART| == 20;
    if |p| == 4 {
      assert a[..13] == STEM;
      assert a[17..] == SUFFIX;
      assert forall k :: 13 <= k < 17 ==> a[k] == p[k - 13];
    }
  }
}
