/**
 * `formatDate` and `generateDateStampedFilename` (src/utils/dateUtils.js),
 * which content-script.js also writes out inline. A `Date` enters only through
 * what its local-time getters report.
 */
module DateUtils {
  import opened JsValue

  /** `getFullYear()`, `getMonth()` (counted from 0) and `getDate()` of a valid Date. */
  datatype DateParts = DateParts(year: int, month: int, day: int)

  /** `t.padStart(2, '0')` */
  function PadTwo(t: string): (r: string)
    ensures |r| >= 2
    ensures |t| >= 2 ==> r == t
    ensures |t| < 2 ==> |r| == 2 && r[2 - |t|..] == t && forall i :: 0 <= i < 2 - |t| ==> r[i] == '0'
  {
    if |t| >= 2 then t else seq(2 - |t|, _ => '0') + t
  }

  /** `${year}-${(month + 1) padded}-${day padded}`: the local calendar date as YYYY-MM-DD. */
  function FormatDate(d: DateParts): string {
    IntToString(d.year) + "-" + PadTwo(IntToString(d.month + 1)) + "-" + PadTwo(IntToString(d.day))
  }

  /** On an Invalid Date every getter gives NaN, which `padStart` leaves alone. */
  function FormatDateOrNaN(d: Option<DateParts>): string {
    match d
    case Some(p) => FormatDate(p)
    case None => "NaN-NaN-NaN"
  }

  /** `${prefix}_${formatDate(now)}.csv` */
  function DateStampedFilename(prefix: string, now: DateParts): string {
    prefix + "_" + FormatDate(now) + ".csv"
  }

  /** A two-digit component is left alone; a one-digit one gains a leading zero. */
  lemma PadTwoDigits(n: nat)
    requires n < 100
    ensures n >= 10 ==> PadTwo(NatToString(n)) == NatToString(n)
    ensures n < 10 ==> PadTwo(NatToString(n)) == ['0', Digit(n)]
    ensures |PadTwo(NatToString(n))| == 2
    ensures ParseNat(PadTwo(NatToString(n))) == n
  {
    if n >= 10 {
      TwoDigitLength(n);
      ParseNatToString(n);
    } else {
      OneDigitPadded(n);
    }
  }

  lemma TwoDigitLength(n: nat)
    requires 10 <= n < 100
    ensures |NatToString(n)| == 2
  {
    assert Pow10(1) == 10 && Pow10(2) == 100;
    NatToStringLength(n, 2);
  }

  lemma OneDigitPadded(n: nat)
    requires n < 10
    ensures PadTwo(NatToString(n)) == ['0', Digit(n)]
    ensures ParseNat(['0', Digit(n)]) == n
  {
    ParseNatToString(n);
    assert NatToString(n) == [Digit(n)];
    var r := ['0', Digit(n)];
    assert r[..1] == ['0'] && ['0'][..0] == [];
    assert ParseNat(['0']) == 0;
    assert ParseNat([Digit(n)]) == DigitValue(Digit(n));
  }

  /**
   * For a four-digit year and an in-range month and day, the date stamp is ten
   * characters, `-` at positions 4 and 7, and its three numeric parts read back
   * as the year, the month counted from 1, and the day.
   */
  lemma FormatDateReadsBack(d: DateParts)
    requires 1000 <= d.year <= 9999 && 0 <= d.month <= 11 && 1 <= d.day <= 31
    ensures var r := FormatDate(d);
      && |r| == 10 && r[4] == '-' && r[7] == '-'
      && ParseNat(r[..4]) == d.year
      && ParseNat(r[5..7]) == d.month + 1
      && ParseNat(r[8..]) == d.day
  {
    var y := NatToString(d.year);
    assert Pow10(3) == 1000 && Pow10(4) == 10000 by {
      assert Pow10(1) == 10 && Pow10(2) == 100;
    }
    NatToStringLength(d.year, 4);
    ParseNatToString(d.year);
    PadTwoDigits(d.month + 1);
    PadTwoDigits(d.day);
    var m := PadTwo(NatToString(d.month + 1));
    var dd := PadTwo(NatToString(d.day));
    assert IntToString(d.year) == y;
    assert FormatDate(d) == y + "-" + m + "-" + dd;
    DashedLayout(y, m, dd);
  }

  /** Where the parts of `y-m-d` sit when the year has four characters and the others two. */
  lemma DashedLayout(y: string, m: string, dd: string)
    requires |y| == 4 && |m| == 2 && |dd| == 2
    ensures var r := y + "-" + m + "-" + dd;
      && |r| == 10 && r[4] == '-' && r[7] == '-'
      && r[..4] == y && r[5..7] == m && r[8..] == dd
  {
    var r := y + "-" + m + "-" + dd;
    assert r[..4] == y;
    assert r[5..7] == m;
    assert r[8..] == dd;
  }

  lemma IntToStringChars(i: int)
    ensures forall k :: 0 <= k < |IntToString(i)| ==> IsDigit(IntToString(i)[k]) || IntToString(i)[k] == '-'
  {
    if i < 0 {
      assert IntToString(i) == "-" + NatToString(-i);
    }
  }

  lemma PadTwoChars(t: string)
    requires forall k :: 0 <= k < |t| ==> IsDigit(t[k]) || t[k] == '-'
    ensures forall k :: 0 <= k < |PadTwo(t)| ==> IsDigit(PadTwo(t)[k]) || PadTwo(t)[k] == '-'
  {
  }

  /** A date stamp, valid or not, holds no comma, quote or line feed, so it is never quoted and never breaks a line. */
  lemma FormatDatePlain(d: Option<DateParts>)
    ensures var r := FormatDateOrNaN(d); ',' !in r && '"' !in r && '\n' !in r
  {
    if d.Some? {
      var p := d.value;
      IntToStringChars(p.year);
      IntToStringChars(p.month + 1);
      IntToStringChars(p.day);
      PadTwoChars(IntToString(p.month + 1));
      PadTwoChars(IntToString(p.day));
      var a, b, c := IntToString(p.year), PadTwo(IntToString(p.month + 1)), PadTwo(IntToString(p.day));
      var r := a + "-" + b + "-" + c;
      assert FormatDate(p) == r;
      forall k | 0 <= k < |r| ensures IsDigit(r[k]) || r[k] == '-' {
        if k < |a| { assert r[k] == a[k]; }
        else if k == |a| { }
        else if k < |a| + 1 + |b| { assert r[k] == b[k - |a| - 1]; }
        else if k == |a| + 1 + |b| { }
        else { assert r[k] == c[k - |a| - 2 - |b|]; }
      }
    }
  }

  /** The file name starts with the prefix and `_`, carries the date stamp, and ends with `.csv`. */
  lemma DateStampedFilenameShape(prefix: string, now: DateParts)
    ensures var r := DateStampedFilename(prefix, now);
      && |r| == |prefix| + |FormatDate(now)| + 5
      && r[..|prefix|] == prefix
      && r[|prefix|] == '_'
      && r[|prefix| + 1..|r| - 4] == FormatDate(now)
      && r[|r| - 4..] == ".csv"
  {
  }
}
