/** Decimal numbers in names: pin ids with an occurrence index, and padstack and class names with a padded number. */
module PinNames {
  import opened Basics

  const USIZE_MAX: nat := 0xffff_ffff_ffff_ffff

  predicate IsDigit(c: char) {
    '0' <= c <= '9'
  }

  predicate AllDigits(s: string) {
    forall i :: 0 <= i < |s| ==> IsDigit(s[i])
  }

  function Digit(d: nat): (c: char)
    requires d < 10
    ensures IsDigit(c) && c as int - '0' as int == d
  {
    ('0' as int + d) as char
  }

  /** The decimal digits of n, without leading zeros. */
  function Decimal(n: nat): string {
    if n < 10 then [Digit(n)] else Decimal(n / 10) + [Digit(n % 10)]
  }

  function Value(s: string): nat
    requires AllDigits(s)
  {
    if s == "" then 0 else 10 * Value(s[..|s| - 1]) + (s[|s| - 1] as int - '0' as int)
  }

  /** Reading a decimal number back. */
  lemma {:induction false} ValueOfDecimal(n: nat)
    ensures Decimal(n) != "" && AllDigits(Decimal(n)) && Value(Decimal(n)) == n
  {
    if n >= 10 {
      ValueOfDecimal(n / 10);
      var front := Decimal(n / 10);
      assert (front + [Digit(n % 10)])[..|front|] == front;
    } else {
      assert [Digit(n)][..0] == "";
    }
  }

  lemma DecimalInjective(m: nat, n: nat)
    requires Decimal(m) == Decimal(n)
    ensures m == n
  {
    ValueOfDecimal(m);
    ValueOfDecimal(n);
  }

  /** `{:04}`: at least four digits. */
  function Padded(n: nat): string {
    var s := Decimal(n);
    if |s| < 4 then Zeros(4 - |s|) + s else s
  }

  function Zeros(k: nat): (z: string)
    ensures |z| == k
  {
    if k == 0 then "" else Zeros(k - 1) + ['0']
  }

  lemma {:induction false} ZerosValue(k: nat)
    ensures AllDigits(Zeros(k)) && Value(Zeros(k)) == 0
  {
    if k > 0 {
      ZerosValue(k - 1);
      assert (Zeros(k - 1) + ['0'])[..k - 1] == Zeros(k - 1);
    }
  }

  lemma {:induction false} LeadingZeros(z: string, s: string)
    requires AllDigits(z) && Value(z) == 0 && AllDigits(s)
    ensures AllDigits(z + s) && Value(z + s) == Value(s)
  {
    if s == "" {
      assert z + s == z;
    } else {
      var front := s[..|s| - 1];
      LeadingZeros(z, front);
      assert (z + s)[..|z + s| - 1] == z + front;
    }
  }

  lemma PaddedInjective(m: nat, n: nat)
    requires Padded(m) == Padded(n)
    ensures m == n
  {
    PaddedValue(m);
    PaddedValue(n);
  }

  lemma PaddedValue(n: nat)
    ensures AllDigits(Padded(n)) && Value(Padded(n)) == n
  {
    ValueOfDecimal(n);
    var s := Decimal(n);
    if |s| < 4 {
      ZerosValue(4 - |s|);
      LeadingZeros(Zeros(4 - |s|), s);
    }
  }

  /** `parse::<usize>`: an optional plus sign, then at least one digit, in range. */
  function ParseUsize(s: string): Option<nat> {
    var digits := if s != "" && s[0] == '+' then s[1..] else s;
    if digits == "" || !AllDigits(digits) || Value(digits) > USIZE_MAX then None else Some(Value(digits))
  }

  lemma ParseDecimal(n: nat)
    requires n <= USIZE_MAX
    ensures ParseUsize(Decimal(n)) == Some(n)
  {
    ValueOfDecimal(n);
    assert IsDigit(Decimal(n)[0]);
  }

  // ----- Pin ids

  /** The pin id of the occurrence-th pad with this number. */
  function PinId(number: string, occurrence: nat): string {
    if number == "" then "@" + Decimal(occurrence)
    else if occurrence == 0 then number
    else number + "@" + Decimal(occurrence)
  }

  /** The importer's rule: the pad number itself, or the pad number, `@` and a number. */
  predicate Numbered(id: string, number: string) {
    || id == number
    || (number <= id && |id| > |number| && id[|number|] == '@' && ParseUsize(id[|number| + 1..]).Some?)
  }

  /** Every pin id the exporter makes reads back as its pad number. */
  lemma PinIdReadsBack(number: string, occurrence: nat)
    requires occurrence <= USIZE_MAX
    ensures Numbered(PinId(number, occurrence), number)
  {
    ParseDecimal(occurrence);
    var id := PinId(number, occurrence);
    if id != number {
      assert id == number + "@" + Decimal(occurrence);
      assert id[|number| + 1..] == Decimal(occurrence);
    }
  }

  predicate NoAt(s: string) {
    '@' !in s
  }

  /** Pin ids of different pads differ when pad numbers hold no `@`. */
  lemma PinIdInjective(a: string, i: nat, b: string, j: nat)
    requires NoAt(a) && NoAt(b) && PinId(a, i) == PinId(b, j)
    ensures a == b && i == j
  {
    var id := PinId(a, i);
    ShapeOfId(a, i);
    ShapeOfId(b, j);
    if !NoAt(id) {
      assert id == a + "@" + Decimal(i) == b + "@" + Decimal(j);
      SameBeforeAt(a, Decimal(i), b, Decimal(j));
      DecimalInjective(i, j);
    }
  }

  lemma ShapeOfId(a: string, i: nat)
    requires NoAt(a)
    ensures if NoAt(PinId(a, i)) then PinId(a, i) == a && i == 0 else PinId(a, i) == a + "@" + Decimal(i)
  {
    if a == "" || i > 0 {
      assert PinId(a, i) == a + "@" + Decimal(i);
      assert PinId(a, i)[|a|] == '@';
    }
  }

  lemma SameBeforeAt(a: string, u: string, b: string, v: string)
    requires NoAt(a) && NoAt(b) && a + "@" + u == b + "@" + v
    ensures a == b && u == v
  {
    var s := a + "@" + u;
    assert s[|a|] == '@' && s[|b|] == '@';
    assert forall i :: 0 <= i < |a| ==> s[i] == a[i];
    assert forall i :: 0 <= i < |b| ==> s[i] == b[i];
    assert |a| == |b|;
    assert s[..|a|] == a && s[..|b|] == b;
    assert s[|a| + 1..] == u && s[|b| + 1..] == v;
  }
}
