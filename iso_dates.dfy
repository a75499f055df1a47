/**
 * Calendar dates, their `strftime("%Y-%m-%d")` text, and the code-point ordering of
 * strings that the birthday window's SQL comparison applies to that text.
 */
module IsoDates {

  datatype Date = Date(year: int, month: int, day: int)

  predicate IsLeapYear(y: int) {
    y % 4 == 0 && (y % 100 != 0 || y % 400 == 0)
  }

  function DaysInMonth(y: int, m: int): int {
    if m == 2 then (if IsLeapYear(y) then 29 else 28)
    else if m == 4 || m == 6 || m == 9 || m == 11 then 30
    else 31
  }

  /**
   * A calendar date whose year `%Y` renders with exactly four digits
   * (from 1000 to 9999, the largest year a date can hold).
   */
  predicate ValidDate(d: Date) {
    1000 <= d.year <= 9999 && 1 <= d.month <= 12 && 1 <= d.day <= DaysInMonth(d.year, d.month)
  }

  /** Chronological order: `a` is an earlier day than `b`. */
  predicate Before(a: Date, b: Date) {
    a.year < b.year
    || (a.year == b.year && a.month < b.month)
    || (a.year == b.year && a.month == b.month && a.day < b.day)
  }

  function Pow10(w: nat): (p: nat)
    ensures p >= 1
  {
    if w == 0 then 1 else 10 * Pow10(w - 1)
  }

  function DigitChar(k: nat): char
    requires k < 10
  {
    (48 + k) as char
  }

  /** The `w` lowest decimal digits of `n`, most significant first, padded with zeros. */
  function Digits(n: nat, w: nat): (s: string)
    ensures |s| == w
  {
    if w == 0 then [] else Digits(n / 10, w - 1) + [DigitChar(n % 10)]
  }

  /** The text `strftime("%Y-%m-%d")` gives for a date. */
  function Format(d: Date): (s: string)
    requires ValidDate(d)
    ensures |s| == 10 && s[4] == '-' && s[7] == '-'
  {
    Digits(d.year, 4) + ("-" + (Digits(d.month, 2) + ("-" + Digits(d.day, 2))))
  }

  /** `<` on strings in code-point order: lexicographic, a proper prefix before its extensions. */
  predicate StrLess(a: string, b: string) {
    if |a| == 0 then |b| > 0
    else if |b| == 0 then false
    else if a[0] != b[0] then a[0] < b[0]
    else StrLess(a[1..], b[1..])
  }

  /** `<=` on strings in code-point order. */
  predicate StrLessEq(a: string, b: string) {
    StrLess(a, b) || a == b
  }

  /** Comparing two strings that share an equal-length split compares the heads first, then the tails. */
  lemma {:induction false} StrLessSplit(x1: string, x2: string, y1: string, y2: string)
    requires |x1| == |y1|
    ensures StrLess(x1 + x2, y1 + y2) <==> StrLess(x1, y1) || (x1 == y1 && StrLess(x2, y2))
  {
    if |x1| == 0 {
      assert x1 + x2 == x2 && y1 + y2 == y2;
    } else {
      assert (x1 + x2)[0] == x1[0] && (y1 + y2)[0] == y1[0];
      assert (x1 + x2)[1..] == x1[1..] + x2 && (y1 + y2)[1..] == y1[1..] + y2;
      StrLessSplit(x1[1..], x2, y1[1..], y2);
      if x1[0] == y1[0] {
        assert x1 == y1 <==> x1[1..] == y1[1..] by {
          if x1[1..] == y1[1..] { assert x1 == [x1[0]] + x1[1..] && y1 == [y1[0]] + y1[1..]; }
        }
      }
    }
  }

  /** Two strings that share an equal-length split are equal exactly when heads and tails are. */
  lemma SplitEqual(x1: string, x2: string, y1: string, y2: string)
    requires |x1| == |y1|
    ensures x1 + x2 == y1 + y2 <==> x1 == y1 && x2 == y2
  {
    if x1 + x2 == y1 + y2 {
      assert x1 == (x1 + x2)[..|x1|] && y1 == (y1 + y2)[..|y1|];
      assert x2 == (x1 + x2)[|x1|..] && y2 == (y1 + y2)[|y1|..];
    }
  }

  /** Zero-padded numbers of the same width compare as strings as they compare as numbers. */
  lemma {:induction false} DigitsOrder(n: nat, m: nat, w: nat)
    requires n < Pow10(w) && m < Pow10(w)
    ensures StrLess(Digits(n, w), Digits(m, w)) <==> n < m
    ensures Digits(n, w) == Digits(m, w) <==> n == m
  {
    if w == 0 {
    } else {
      var hn, hm := Digits(n / 10, w - 1), Digits(m / 10, w - 1);
      var tn, tm := [DigitChar(n % 10)], [DigitChar(m % 10)];
      DigitsOrder(n / 10, m / 10, w - 1);
      StrLessSplit(hn, tn, hm, tm);
      SplitEqual(hn, tn, hm, tm);
      assert StrLess(tn, tm) <==> n % 10 < m % 10 by {
        assert tn[1..] == [] && tm[1..] == [];
      }
      assert n == 10 * (n / 10) + n % 10 && m == 10 * (m / 10) + m % 10;
    }
  }

  /** On valid dates, the text's string order is chronological order. */
  lemma FormatOrder(a: Date, b: Date)
    requires ValidDate(a) && ValidDate(b)
    ensures StrLess(Format(a), Format(b)) <==> Before(a, b)
    ensures Format(a) == Format(b) <==> a == b
  {
    var ya, yb := Digits(a.year, 4), Digits(b.year, 4);
    var ma, mb := Digits(a.month, 2), Digits(b.month, 2);
    var da, db := Digits(a.day, 2), Digits(b.day, 2);
    DigitsOrder(a.year, b.year, 4);
    DigitsOrder(a.month, b.month, 2);
    DigitsOrder(a.day, b.day, 2);
    // innermost: "-" + day
    StrLessSplit("-", da, "-", db);
    SplitEqual("-", da, "-", db);
    var ra, rb := "-" + da, "-" + db;
    StrLessSplit(ma, ra, mb, rb);
    SplitEqual(ma, ra, mb, rb);
    var sa, sb := "-" + (ma + ra), "-" + (mb + rb);
    StrLessSplit("-", ma + ra, "-", mb + rb);
    SplitEqual("-", ma + ra, "-", mb + rb);
    StrLessSplit(ya, sa, yb, sb);
    SplitEqual(ya, sa, yb, sb);
    assert !StrLess("-", "-");
  }
}
