/** Relative-time formatting. The clock read and the date parse are left to the caller:
    the formatter receives `diffMs`, the milliseconds elapsed since the record's date,
    which is negative for a date in the future. */
module Utils {
  import opened Types

  const MsPerMinute := 60000
  const MsPerHour := 3600000
  const MsPerDay := 86400000

  /** Which phrase the formatter picks, with the count it prints. */
  datatype RelativeTime =
    | JustNow
    | MinutesAgo(minutes: nat)
    | HoursAgo(hours: nat)
    | DaysAgo(days: nat)
    | WeeksAgo(weeks: nat)
    | AbsoluteDate

  /** The formatter's if-chain over the floored minute, hour and day counts. For a positive
      divisor Dafny's `/` on `int` rounds down, as `Math.floor` of the quotient does. The
      phrase picked is the one of the interval `diffMs` lies in. */
  function Bucket(diffMs: int): (r: RelativeTime)
    ensures r == BucketByInterval(diffMs)
  {
    WeeksFromDays(diffMs);
    var diffMins := diffMs / MsPerMinute;
    var diffHours := diffMs / MsPerHour;
    var diffDays := diffMs / MsPerDay;
    if diffMins < 1 then JustNow
    else if diffMins < 60 then MinutesAgo(diffMins)
    else if diffHours < 24 then HoursAgo(diffHours)
    else if diffDays < 7 then DaysAgo(diffDays)
    else if diffDays < 30 then WeeksAgo(diffDays / 7)
    else AbsoluteDate
  }

  /** The same classification stated directly on the millisecond difference: one interval
      per phrase, the intervals adjacent and covering every integer. */
  function BucketByInterval(diffMs: int): RelativeTime
  {
    if diffMs < 60000 then JustNow
    else if diffMs < 3600000 then MinutesAgo(diffMs / 60000)
    else if diffMs < 86400000 then HoursAgo(diffMs / 3600000)
    else if diffMs < 604800000 then DaysAgo(diffMs / 86400000)
    else if diffMs < 2592000000 then WeeksAgo(diffMs / 604800000)
    else AbsoluteDate
  }

  /** Floor division by 7 days equals floor division of the day count by 7. */
  lemma WeeksFromDays(diffMs: int)
    ensures (diffMs / MsPerDay) / 7 == diffMs / 604800000
  {
    var d := diffMs / MsPerDay;
    var w := d / 7;
    assert diffMs == MsPerDay * d + diffMs % MsPerDay;
    assert d == 7 * w + d % 7;
    assert diffMs == 604800000 * w + (MsPerDay * (d % 7) + diffMs % MsPerDay);
  }

  /** Every count printed is at least 1 and below the next unit. */
  lemma BucketBounds(diffMs: int)
    ensures Bucket(diffMs).MinutesAgo? ==> 1 <= Bucket(diffMs).minutes <= 59
    ensures Bucket(diffMs).HoursAgo? ==> 1 <= Bucket(diffMs).hours <= 23
    ensures Bucket(diffMs).DaysAgo? ==> 1 <= Bucket(diffMs).days <= 6
    ensures Bucket(diffMs).WeeksAgo? ==> 1 <= Bucket(diffMs).weeks <= 4
    ensures Bucket(diffMs).AbsoluteDate? <==> diffMs / MsPerDay >= 30
  {
  }

  /** The decimal digits of `n`, most significant first, as `${n}` prints an integer. */
  function Decimal(n: nat): (s: string)
    ensures |s| >= 1
    ensures forall i :: 0 <= i < |s| ==> '0' <= s[i] <= '9'
    ensures s[0] == '0' ==> n == 0
  {
    if n < 10 then [DigitChar(n)] else Decimal(n / 10) + [DigitChar(n % 10)]
  }

  function DigitChar(d: nat): (c: char)
    requires d < 10
  {
    (d + '0' as int) as char
  }

  /** Reads a string of decimal digits back into the number it denotes. */
  function ParseDecimal(s: string): nat
    requires forall i :: 0 <= i < |s| ==> '0' <= s[i] <= '9'
  {
    if s == [] then 0
    else ParseDecimal(s[..|s| - 1]) * 10 + (s[|s| - 1] as int - '0' as int)
  }

  /** Printing a count and reading it back gives the count. */
  lemma {:induction false} DecimalRoundTrip(n: nat)
    ensures ParseDecimal(Decimal(n)) == n
  {
    var s := Decimal(n);
    if n >= 10 {
      DecimalRoundTrip(n / 10);
      assert s[..|s| - 1] == Decimal(n / 10);
    }
  }

  /** Two counts print alike only if they are equal. */
  lemma DecimalInjective(m: nat, n: nat)
    requires Decimal(m) == Decimal(n)
    ensures m == n
  {
    DecimalRoundTrip(m);
    DecimalRoundTrip(n);
  }

  const Prefix := "il y a "
  const JustNowText := "à l'instant"

  /** The French phrase for a bucket; the absolute-date branch formats with the locale
      and has no model here. */
  function Phrase(b: RelativeTime): (r: Option<string>)
    ensures r.None? <==> b.AbsoluteDate?
    ensures b.JustNow? ==> r == Some(JustNowText)
    ensures !b.JustNow? && !b.AbsoluteDate? ==> r == Some(Prefix + Decimal(Count(b)) + [Unit(b)])
  {
    match b
    case JustNow => Some(JustNowText)
    case MinutesAgo(m) => Some(Prefix + Decimal(m) + "m")
    case HoursAgo(h) => Some(Prefix + Decimal(h) + "h")
    case DaysAgo(d) => Some(Prefix + Decimal(d) + "j")
    case WeeksAgo(w) => Some(Prefix + Decimal(w) + "w")
    case AbsoluteDate => None
  }

  /** formatRelativeTime, given the elapsed milliseconds. */
  function FormatRelativeTime(diffMs: int): (r: Option<string>)
    ensures r.None? <==> diffMs >= 2592000000
    ensures diffMs < 60000 ==> r == Some(JustNowText)
    ensures r.Some? && diffMs >= 60000 ==> Prefix <= r.value
  {
    Phrase(Bucket(diffMs))
  }

  /** The count printed between the prefix and the unit letter. */
  lemma PrefixedCount(a: string, u: char, b: string, v: char)
    requires Prefix + a + [u] == Prefix + b + [v]
    ensures a == b && u == v
  {
    var x := Prefix + a + [u];
    var y := Prefix + b + [v];
    assert |a| == |b|;
    assert u == x[|x| - 1] == y[|y| - 1] == v;
    assert a == x[|Prefix|..|x| - 1] == y[|Prefix|..|y| - 1] == b;
  }

  /** Distinct buckets never print the same phrase, so the printed text determines the
      bucket and its count. */
  lemma PhraseInjective(b1: RelativeTime, b2: RelativeTime)
    requires Phrase(b1).Some? && Phrase(b1) == Phrase(b2)
    ensures b1 == b2
  {
    var s := Phrase(b1).value;
    assert b1.JustNow? <==> s[0] == 'à';
    assert b2.JustNow? <==> s[0] == 'à';
    if !b1.JustNow? {
      var c1, u1 := Count(b1), Unit(b1);
      var c2, u2 := Count(b2), Unit(b2);
      assert Prefix + Decimal(c1) + [u1] == Prefix + Decimal(c2) + [u2];
      PrefixedCount(Decimal(c1), u1, Decimal(c2), u2);
      DecimalInjective(c1, c2);
    }
  }

  function Count(b: RelativeTime): nat
    requires !b.JustNow? && !b.AbsoluteDate?
  {
    match b
    case MinutesAgo(m) => m
    case HoursAgo(h) => h
    case DaysAgo(d) => d
    case WeeksAgo(w) => w
  }

  function Unit(b: RelativeTime): char
    requires !b.JustNow? && !b.AbsoluteDate?
  {
    match b
    case MinutesAgo(_) => 'm'
    case HoursAgo(_) => 'h'
    case DaysAgo(_) => 'j'
    case WeeksAgo(_) => 'w'
  }

  /** What the formatter prints, interval by interval. */
  lemma FormatByInterval(diffMs: int)
    ensures diffMs < 60000 ==> FormatRelativeTime(diffMs) == Some(JustNowText)
    ensures 60000 <= diffMs < 3600000 ==>
      FormatRelativeTime(diffMs) == Some(Prefix + Decimal(diffMs / 60000) + "m")
    ensures 3600000 <= diffMs < 86400000 ==>
      FormatRelativeTime(diffMs) == Some(Prefix + Decimal(diffMs / 3600000) + "h")
    ensures 86400000 <= diffMs < 604800000 ==>
      FormatRelativeTime(diffMs) == Some(Prefix + Decimal(diffMs / 86400000) + "j")
    ensures 604800000 <= diffMs < 2592000000 ==>
      FormatRelativeTime(diffMs) == Some(Prefix + Decimal(diffMs / 604800000) + "w")
    ensures FormatRelativeTime(diffMs) == None <==> diffMs >= 2592000000
  {
  }

  /** Two differences print the same relative phrase only when they fall in the same
      bucket with the same count. */
  lemma SamePhraseSameBucket(a: int, b: int)
    requires FormatRelativeTime(a).Some? && FormatRelativeTime(a) == FormatRelativeTime(b)
    ensures Bucket(a) == Bucket(b)
  {
    PhraseInjective(Bucket(a), Bucket(b));
  }
}
