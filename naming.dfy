/**
 * Output file names, `'{}{:04d}.dcm'.format(prefix, i)`: the prefix, the index in
 * decimal zero-padded to at least four digits, then the extension.
 */
module Naming {

  function DigitChar(d: nat): (c: char)
    requires d < 10
  {
    ('0' as int + d) as char
  }

  predicate IsDigit(c: char) {
    '0' <= c <= '9'
  }

  /** `str(n)` for a non-negative integer: no leading zero except for 0 itself. */
  function Digits(n: nat): (s: seq<char>)
    ensures 1 <= |s|
    ensures forall k :: 0 <= k < |s| ==> IsDigit(s[k])
    ensures n > 0 ==> s[0] != '0'
    ensures n == 0 ==> s == "0"
  {
    if n < 10 then [DigitChar(n)] else Digits(n / 10) + [DigitChar(n % 10)]
  }

  function Zeros(k: nat): (s: seq<char>)
  {
    seq(k, _ => '0')
  }

  /** `'{:04d}'.format(n)`: `str(n)` left-padded with zeros to width `max(4, len(str(n)))`. */
  function Pad4(n: nat): seq<char> {
    var d := Digits(n);
    if |d| < 4 then Zeros(4 - |d|) + d else d
  }

  /** `'{}{:04d}.dcm'.format(prefix, i)` */
  function FileName(prefix: string, i: nat): string {
    prefix + Pad4(i) + ".dcm"
  }

  /** Reads a string of decimal digits back as a number; leading zeros add nothing. */
  function ParseDecimal(s: seq<char>): int
  {
    if s == [] then 0 else ParseDecimal(s[..|s| - 1]) * 10 + (s[|s| - 1] as int - '0' as int)
  }

  // ---------------------------------------------------------------------------

  lemma {:induction false} ParseDigits(n: nat)
    ensures ParseDecimal(Digits(n)) == n
  {
    if n >= 10 {
      var d := Digits(n);
      assert d[..|d| - 1] == Digits(n / 10);
      ParseDigits(n / 10);
    }
  }

  lemma {:induction false} ParseZeros(k: nat)
    ensures ParseDecimal(Zeros(k)) == 0
  {
    if k > 0 {
      assert Zeros(k)[..k - 1] == Zeros(k - 1);
      ParseZeros(k - 1);
    }
  }

  lemma {:induction false} ParseLeadingZeros(k: nat, s: seq<char>)
    ensures ParseDecimal(Zeros(k) + s) == ParseDecimal(s)
  {
    if s == [] {
      assert Zeros(k) + s == Zeros(k);
      ParseZeros(k);
    } else {
      var t := Zeros(k) + s;
      assert t[..|t| - 1] == Zeros(k) + s[..|s| - 1];
      ParseLeadingZeros(k, s[..|s| - 1]);
    }
  }

  /** The padded index reads back as the index: the field format loses nothing. */
  lemma Pad4RoundTrip(n: nat)
    ensures ParseDecimal(Pad4(n)) == n
  {
    var d := Digits(n);
    ParseDigits(n);
    if |d| < 4 {
      ParseLeadingZeros(4 - |d|, d);
    }
  }

  /**
   * The field is `max(4, len(str(n)))` digits wide and ends in `str(n)`;
   * whatever comes before `str(n)` is zeros.
   */
  lemma Pad4Layout(n: nat)
    ensures var d, p := Digits(n), Pad4(n);
            && |p| == (if |d| < 4 then 4 else |d|)
            && p[|p| - |d|..] == d
            && (forall k :: 0 <= k < |p| - |d| ==> p[k] == '0')
            && (forall k :: 0 <= k < |p| ==> IsDigit(p[k]))
  {}

  /**
   * A file name is the prefix, a field of decimal digits that reads back as
   * the index, and the `.dcm` extension.
   */
  lemma FileNameLayout(prefix: string, i: nat)
    ensures var r := FileName(prefix, i);
            && |r| == |prefix| + |Pad4(i)| + 4
            && r[..|prefix|] == prefix && r[|r| - 4..] == ".dcm"
            && r[|prefix|..|r| - 4] == Pad4(i)
            && ParseDecimal(r[|prefix|..|r| - 4]) == i
  {
    Pad4RoundTrip(i);
    var r := FileName(prefix, i);
    assert r[|prefix|..|r| - 4] == Pad4(i);
  }

  /** Distinct indices give distinct names, so the slices of one export never overwrite each other. */
  lemma FileNameInjective(prefix: string, i: nat, j: nat)
    requires FileName(prefix, i) == FileName(prefix, j)
    ensures i == j
  {
    FileNameLayout(prefix, i);
    FileNameLayout(prefix, j);
  }

  /** A one-digit index is written with three leading zeros. */
  lemma SingleDigitName(prefix: string, n: nat)
    requires n < 10
    ensures FileName(prefix, n) == prefix + "000" + [DigitChar(n)] + ".dcm"
  {
    assert Digits(n) == [DigitChar(n)];
    assert Zeros(3) == "000";
  }

  lemma ExampleNames()
    ensures FileName("", 0) == "0000.dcm"
    ensures FileName("", 1) == "0001.dcm"
    ensures FileName("", 2) == "0002.dcm"
    ensures FileName("", 3) == "0003.dcm"
  {
    SingleDigitName("", 0);
    assert DigitChar(0) == '0';
    SingleDigitName("", 1);
    assert DigitChar(1) == '1';
    SingleDigitName("", 2);
    assert DigitChar(2) == '2';
    SingleDigitName("", 3);
    assert DigitChar(3) == '3';
  }

  lemma ExampleWideName()
    ensures FileName("ct_", 12345) == "ct_12345.dcm"
  {
    assert Digits(1) == "1";
    assert Digits(12) == "12";
    assert Digits(123) == "123";
    assert Digits(1234) == "1234";
    assert Digits(12345) == "12345";
  }
}
