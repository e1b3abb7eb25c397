/**
 * The two textual date formats the report uses: the storage key
 * `YYYYMMDD` and the axis label `MM/DD`, as moment's `format` writes them
 * (fields zero-filled to their width, a year below zero signed). Storage
 * keys are compared as JavaScript compares strings.
 */
module DateFormat {
  import opened Calendar

  function DigitChar(k: int): (r: char)
    requires 0 <= k < 10
  {
    "0123456789"[k]
  }

  predicate IsDigit(c: char) {
    '0' <= c <= '9'
  }

  function DigitValue(c: char): (r: int) {
    c as int - '0' as int
  }

  function Pow10(w: nat): (p: nat)
    ensures p >= 1
  {
    if w == 0 then 1 else 10 * Pow10(w - 1)
  }

  /** The decimal digits of `v`, with leading zeros up to at least `w` digits. */
  function ZeroFill(v: nat, w: nat): (r: string)
    decreases v + w
  {
    if v == 0 && w == 0 then ""
    else ZeroFill(v / 10, if w == 0 then 0 else w - 1) + [DigitChar(v % 10)]
  }

  /** A zero-filled number is all digits, exactly `w` of them when it fits. */
  lemma {:induction false} ZeroFillShape(v: nat, w: nat)
    ensures forall i :: 0 <= i < |ZeroFill(v, w)| ==> IsDigit(ZeroFill(v, w)[i])
    ensures v < Pow10(w) ==> |ZeroFill(v, w)| == w
    decreases v + w
  {
    if !(v == 0 && w == 0) {
      ZeroFillShape(v / 10, if w == 0 then 0 else w - 1);
    }
  }

  /** The number a string of decimal digits denotes. */
  function DecimalValue(s: string): (r: int) {
    if s == [] then 0 else 10 * DecimalValue(s[..|s| - 1]) + DigitValue(s[|s| - 1])
  }

  /** JavaScript's `<` on strings: first difference decides, a proper prefix is smaller. */
  predicate LexLess(a: string, b: string) {
    (exists k :: 0 <= k < |a| && k < |b| && a[..k] == b[..k] && a[k] < b[k])
    || (|a| < |b| && a == b[..|a|])
  }

  /** Order between two strings of one length survives a common prefix and suffix. */
  lemma LexLessEmbed(p: string, a: string, b: string, q: string)
    requires |a| == |b| && LexLess(a, b)
    ensures LexLess(p + a + q, p + b + q)
  {
    var k :| 0 <= k < |a| && k < |b| && a[..k] == b[..k] && a[k] < b[k];
    var x, y := p + a + q, p + b + q;
    assert x[..|p| + k] == p + a[..k] && y[..|p| + k] == p + b[..k];
    assert x[|p| + k] == a[k] && y[|p| + k] == b[k];
  }

  /** Reading a zero-filled number back gives the number. */
  lemma {:induction false} ZeroFillValue(v: nat, w: nat)
    ensures DecimalValue(ZeroFill(v, w)) == v
    decreases v + w
  {
    if !(v == 0 && w == 0) {
      var s := ZeroFill(v, w);
      var w' := if w == 0 then 0 else w - 1;
      ZeroFillValue(v / 10, w');
      assert s[..|s| - 1] == ZeroFill(v / 10, w');
    }
  }

  lemma {:induction false} DecimalValueBound(s: string)
    requires forall i :: 0 <= i < |s| ==> IsDigit(s[i])
    ensures 0 <= DecimalValue(s) < Pow10(|s|)
  {
    if s != [] {
      DecimalValueBound(s[..|s| - 1]);
    }
  }

  lemma ShiftByTen(x: int, p: int, q: int)
    ensures 10 * (x * p + q) == x * (10 * p) + 10 * q
  {
  }

  /** Concatenating digit strings shifts the left part by the width of the right part. */
  lemma {:induction false} DecimalValueConcat(a: string, b: string)
    ensures DecimalValue(a + b) == DecimalValue(a) * Pow10(|b|) + DecimalValue(b)
    decreases |b|
  {
    if b != [] {
      var b' := b[..|b| - 1];
      var c := b[|b| - 1];
      assert (a + b)[..|a + b| - 1] == a + b' && (a + b)[|a + b| - 1] == c;
      DecimalValueConcat(a, b');
      var x, p, q := DecimalValue(a), Pow10(|b'|), DecimalValue(b');
      assert DecimalValue(a + b) == 10 * (x * p + q) + DigitValue(c);
      assert DecimalValue(b) == 10 * q + DigitValue(c);
      assert Pow10(|b|) == 10 * p;
      ShiftByTen(x, p, q);
    } else {
      assert a + b == a;
    }
  }

  /** Appending a two-digit field multiplies the left part by a hundred. */
  lemma DecimalValueAppendTwo(a: string, b: string)
    requires |b| == 2
    ensures DecimalValue(a + b) == DecimalValue(a) * 100 + DecimalValue(b)
  {
    DecimalValueConcat(a, b);
    assert Pow10(|b|) == 100;
  }

  /** Two digit strings joined are a digit string. */
  lemma AllDigitsConcat(a: string, b: string)
    requires forall i :: 0 <= i < |a| ==> IsDigit(a[i])
    requires forall i :: 0 <= i < |b| ==> IsDigit(b[i])
    ensures forall i :: 0 <= i < |a + b| ==> IsDigit((a + b)[i])
  {
  }

  /** Two digit strings of one length that denote the same number are equal. */
  lemma {:induction false} DecimalValueInjective(a: string, b: string)
    requires |a| == |b|
    requires forall i :: 0 <= i < |a| ==> IsDigit(a[i])
    requires forall i :: 0 <= i < |b| ==> IsDigit(b[i])
    requires DecimalValue(a) == DecimalValue(b)
    ensures a == b
  {
    if a != [] {
      var n := |a| - 1;
      DecimalValueInjective(a[..n], b[..n]);
      assert a == a[..n] + [a[n]] && b == b[..n] + [b[n]];
    }
  }

  /**
   * For digit strings of one length, string order is numeric order: this is
   * why fixed-width `YYYYMMDD` keys sort chronologically.
   */
  lemma {:induction false} DigitStringOrder(a: string, b: string)
    requires |a| == |b|
    requires forall i :: 0 <= i < |a| ==> IsDigit(a[i])
    requires forall i :: 0 <= i < |b| ==> IsDigit(b[i])
    requires DecimalValue(a) < DecimalValue(b)
    ensures LexLess(a, b)
  {
    var n := |a| - 1;
    var a', b' := a[..n], b[..n];
    DecimalValueBound(a');
    DecimalValueBound(b');
    if DecimalValue(a') < DecimalValue(b') {
      DigitStringOrder(a', b');
      if k :| 0 <= k < |a'| && k < |b'| && a'[..k] == b'[..k] && a'[k] < b'[k] {
        assert a[..k] == a'[..k] && b[..k] == b'[..k];
        assert 0 <= k < |a| && k < |b| && a[..k] == b[..k] && a[k] < b[k];
      }
    } else if DecimalValue(a') == DecimalValue(b') {
      DecimalValueInjective(a', b');
      assert 0 <= n < |a| && n < |b| && a[..n] == b[..n] && a[n] < b[n];
    } else {
      assert false;
    }
  }

  /** moment's `YYYY`: four digits, zero-filled, with a sign below year zero. */
  function YearText(y: int): (r: string) {
    if y < 0 then "-" + ZeroFill(-y, 4) else ZeroFill(y, 4)
  }

  /** The storage key of a day: `moment(...).format("YYYYMMDD")`. */
  function Key(n: Day): (r: string)
    ensures FourDigitYear(n) ==> |r| == 8 && DecimalValue(r) == Ordinal(DateOf(n))
  {
    var d := DateOf(n);
    assert FourDigitYear(n) ==> |KeyOf(d)| == 8 && DecimalValue(KeyOf(d)) == Ordinal(d) by {
      if FourDigitYear(n) { KeyOfDigits(d); }
    }
    KeyOf(d)
  }

  function KeyOf(d: Date): (r: string)
    requires Valid(d)
  {
    YearText(d.year) + ZeroFill(d.month, 2) + ZeroFill(d.day, 2)
  }

  /** The axis label of a day: `moment(...).format("MM/DD")`. */
  function MonthDay(n: Day): (r: string)
    ensures |r| == 5 && r[2] == '/'
  {
    MonthDayOf(DateOf(n))
  }

  function MonthDayOf(d: Date): (r: string)
    requires Valid(d)
    ensures |r| == 5 && r[2] == '/'
  {
    assert Pow10(2) == 100;
    ZeroFillShape(d.month, 2);
    ZeroFillShape(d.day, 2);
    ZeroFill(d.month, 2) + "/" + ZeroFill(d.day, 2)
  }

  /** The years moment writes as exactly four digits. */
  predicate FourDigitYear(n: Day) {
    0 <= DateOf(n).year <= 9999
  }

  /** A key in the four-digit-year range is eight digits that read as YYYYMMDD. */
  lemma KeyDigits(n: Day)
    requires FourDigitYear(n)
    ensures |Key(n)| == 8
    ensures forall i :: 0 <= i < 8 ==> IsDigit(Key(n)[i])
    ensures DecimalValue(Key(n)) == Ordinal(DateOf(n))
  {
    KeyOfDigits(DateOf(n));
  }

  lemma KeyOfDigits(d: Date)
    requires Valid(d) && 0 <= d.year <= 9999
    ensures |KeyOf(d)| == 8
    ensures forall i :: 0 <= i < 8 ==> IsDigit(KeyOf(d)[i])
    ensures DecimalValue(KeyOf(d)) == Ordinal(d)
  {
    var y, m, dd := ZeroFill(d.year, 4), ZeroFill(d.month, 2), ZeroFill(d.day, 2);
    assert Pow10(2) == 100 && Pow10(4) == 10000;
    ZeroFillShape(d.year, 4);
    ZeroFillShape(d.month, 2);
    ZeroFillShape(d.day, 2);
    ZeroFillValue(d.year, 4);
    ZeroFillValue(d.month, 2);
    ZeroFillValue(d.day, 2);
    FieldsCompose(y, m, dd);
  }

  /** Four, two and two digits side by side read as one eight-digit number. */
  lemma FieldsCompose(y: string, m: string, dd: string)
    requires |y| == 4 && |m| == 2 && |dd| == 2
    requires forall i :: 0 <= i < |y| ==> IsDigit(y[i])
    requires forall i :: 0 <= i < |m| ==> IsDigit(m[i])
    requires forall i :: 0 <= i < |dd| ==> IsDigit(dd[i])
    ensures |y + m + dd| == 8
    ensures forall i :: 0 <= i < 8 ==> IsDigit((y + m + dd)[i])
    ensures DecimalValue(y + m + dd) == DecimalValue(y) * 10000 + DecimalValue(m) * 100 + DecimalValue(dd)
  {
    AllDigitsConcat(y, m);
    AllDigitsConcat(y + m, dd);
    DecimalValueAppendTwo(y, m);
    DecimalValueAppendTwo(y + m, dd);
  }

  /** A later day in the four-digit-year range has a string-greater key. */
  lemma KeyOrder(a: Day, b: Day)
    requires a < b
    requires 0 <= DateOf(a).year && DateOf(b).year <= 9999
    ensures |Key(a)| == |Key(b)| == 8
    ensures LexLess(Key(a), Key(b))
  {
    DateOfIncreasing(a, b);
    OrdinalOrder(DateOf(a), DateOf(b));
    KeyDigits(a);
    KeyDigits(b);
    DigitStringOrder(Key(a), Key(b));
  }

  /** Distinct days in the four-digit-year range have distinct keys. */
  lemma KeyInjective(a: Day, b: Day)
    requires FourDigitYear(a) && FourDigitYear(b)
    requires a != b
    ensures Key(a) != Key(b)
  {
    if a < b {
      KeyOrder(a, b);
    } else {
      KeyOrder(b, a);
    }
  }

  /** A label is `MM/DD` with the month and day of the date. */
  lemma MonthDayDigits(n: Day)
    ensures |MonthDay(n)| == 5 && MonthDay(n)[2] == '/'
    ensures DecimalValue(MonthDay(n)[..2]) == DateOf(n).month
    ensures DecimalValue(MonthDay(n)[3..]) == DateOf(n).day
  {
    var d := DateOf(n);
    assert Pow10(2) == 100;
    ZeroFillShape(d.month, 2);
    ZeroFillShape(d.day, 2);
    assert MonthDay(n)[..2] == ZeroFill(d.month, 2);
    assert MonthDay(n)[3..] == ZeroFill(d.day, 2);
    ZeroFillValue(d.month, 2);
    ZeroFillValue(d.day, 2);
  }
}
