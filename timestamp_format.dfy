/** The two java.text.SimpleDateFormat patterns Trackbook uses:
    `yyyy-MM-dd'T'HH:mm:ss'Z'` for GPX times (zone UTC) and
    `yyyy-MM-dd-HH-mm-ss` for export file names (the device's default zone,
    given here as an offset). Every field is a zero-padded decimal number:
    the year to at least four digits, the others to two. ParseStamp is the
    inverse used to state that nothing is lost but the milliseconds. */
module TimestampFormat {
  import opened TrackData
  import opened CivilTime

  predicate IsDigit(c: char)
  {
    '0' <= c <= '9'
  }

  predicate AllDigits(s: string)
  {
    forall i :: 0 <= i < |s| ==> IsDigit(s[i])
  }

  function DigitChar(d: int): (c: char)
    requires 0 <= d < 10
    ensures IsDigit(c)
  {
    (d + '0' as int) as char
  }

  /** Decimal value of a string of digits, most significant first. */
  function DigitsValue(s: string): int
  {
    if s == [] then 0
    else DigitsValue(s[..|s| - 1]) * 10 + (s[|s| - 1] as int - '0' as int)
  }

  /** Decimal digits of `n` without leading zeros ("0" for zero). */
  function Digits(n: nat): (s: string)
    ensures 1 <= |s| && AllDigits(s)
  {
    if n < 10 then [DigitChar(n)] else Digits(n / 10) + [DigitChar(n % 10)]
  }

  function Zeros(k: nat): (s: string)
    ensures |s| == k && AllDigits(s)
  {
    if k == 0 then [] else Zeros(k - 1) + ['0']
  }

  /** SimpleDateFormat's rendering of a number field of minimum width `width`:
      zero-padded on the left, never truncated. */
  function Pad(n: nat, width: nat): (s: string)
    ensures AllDigits(s) && |s| >= width
  {
    var d := Digits(n);
    (if |d| < width then Zeros(width - |d|) else []) + d
  }

  function Pow10(k: nat): nat
  {
    if k == 0 then 1 else 10 * Pow10(k - 1)
  }

  lemma {:induction false} DigitsValueOfDigits(n: nat)
    ensures DigitsValue(Digits(n)) == n
  {
    if n >= 10 {
      DigitsValueOfDigits(n / 10);
      var s := Digits(n);
      assert s[..|s| - 1] == Digits(n / 10);
    }
  }

  lemma {:induction false} DigitsLength(n: nat, k: nat)
    requires 1 <= k && n < Pow10(k)
    ensures |Digits(n)| <= k
  {
    if n >= 10 {
      assert Pow10(1) == 10;
      assert k >= 2;
      DigitsLength(n / 10, k - 1);
    }
  }

  lemma {:induction false} DigitsValueOfZeros(k: nat, s: string)
    ensures DigitsValue(Zeros(k) + s) == DigitsValue(s)
    decreases k, |s|
  {
    if s == [] {
      assert Zeros(k) + s == Zeros(k);
      if k > 0 {
        DigitsValueOfZeros(k - 1, []);
        assert Zeros(k - 1) + [] == Zeros(k - 1);
        assert Zeros(k)[..|Zeros(k)| - 1] == Zeros(k - 1);
      }
    } else {
      var init := s[..|s| - 1];
      DigitsValueOfZeros(k, init);
      assert (Zeros(k) + s)[..|Zeros(k) + s| - 1] == Zeros(k) + init;
    }
  }

  /** A padded field reads back as its number and, when the number fits,
      takes exactly `width` characters. */
  lemma PadRoundTrip(n: nat, width: nat)
    requires 1 <= width && n < Pow10(width)
    ensures |Pad(n, width)| == width
    ensures DigitsValue(Pad(n, width)) == n
  {
    DigitsValueOfDigits(n);
    DigitsLength(n, width);
    var d := Digits(n);
    if |d| < width {
      DigitsValueOfZeros(width - |d|, d);
    } else {
      assert [] + d == d;
    }
  }

  /** Java's year-of-era: years before 1 are shown counted back from 1 BC. */
  function YearOfEra(y: int): nat
  {
    if y >= 1 then y else 1 - y
  }

  /** The separators of one pattern: between date fields, between date and
      time, between time fields, and the literal text after the seconds. */
  datatype StampLayout = StampLayout(dateSep: char, dateTimeSep: char, timeSep: char, suffix: string)

  /** `yyyy-MM-dd'T'HH:mm:ss'Z'` */
  const IsoUtcLayout: StampLayout := StampLayout('-', 'T', ':', "Z")
  /** `yyyy-MM-dd-HH-mm-ss` */
  const FileNameLayout: StampLayout := StampLayout('-', '-', '-', "")

  predicate ValidLayout(l: StampLayout)
  {
    !IsDigit(l.dateSep) && !IsDigit(l.dateTimeSep) && !IsDigit(l.timeSep)
  }

  /** Three number fields joined by one separator: `yyyy-MM-dd` or `HH:mm:ss`. */
  function Triple(a: nat, b: nat, c: nat, width: nat, sep: char): string
  {
    Pad(a, width) + [sep] + Pad(b, 2) + [sep] + Pad(c, 2)
  }

  function Clamp(n: int): nat
  {
    if n < 0 then 0 else n
  }

  function Stamp(t: DateTime, l: StampLayout): string
  {
    Triple(YearOfEra(t.date.year), Clamp(t.date.month), Clamp(t.date.day), 4, l.dateSep) +
    [l.dateTimeSep] +
    Triple(Clamp(t.hour), Clamp(t.minute), Clamp(t.second), 2, l.timeSep) +
    l.suffix
  }

  /** An instant (epoch milliseconds) in UTC, as a GPX <time> value. */
  function FormatUtc(ms: int): (text: string)
    ensures |text| >= 20 && text[|text| - 1] == 'Z'
  {
    Stamp(DateTimeOf(ms), IsoUtcLayout)
  }

  /** Reads three digit fields of widths `width`, 2 and 2 joined by `sep`. */
  function ParseTriple(s: string, width: nat, sep: char): Option<(int, int, int)>
  {
    if |s| != width + 6 then None
    else if AllDigits(s[..width]) && s[width] == sep && AllDigits(s[width + 1..width + 3]) &&
            s[width + 3] == sep && AllDigits(s[width + 4..])
    then Some((DigitsValue(s[..width]), DigitsValue(s[width + 1..width + 3]), DigitsValue(s[width + 4..])))
    else None
  }

  lemma TripleRoundTrip(a: nat, b: nat, c: nat, width: nat, sep: char)
    requires 1 <= width && a < Pow10(width) && b < 100 && c < 100 && !IsDigit(sep)
    ensures |Triple(a, b, c, width, sep)| == width + 6
    ensures ParseTriple(Triple(a, b, c, width, sep), width, sep) == Some((a, b, c))
  {
    assert Pow10(2) == 100 by { assert Pow10(1) == 10; }
    PadRoundTrip(a, width);
    PadRoundTrip(b, 2);
    PadRoundTrip(c, 2);
    var s := Triple(a, b, c, width, sep);
    assert s[..width] == Pad(a, width);
    assert s[width + 1..width + 3] == Pad(b, 2);
    assert s[width + 4..] == Pad(c, 2);
  }

  /** Reads a stamp of the given layout back into seconds since the epoch;
      None for anything of another shape or with an impossible field. */
  function ParseStamp(s: string, l: StampLayout): Option<int>
  {
    if |s| != 19 + |l.suffix| || s[10] != l.dateTimeSep || s[19..] != l.suffix then None
    else match (ParseTriple(s[..10], 4, l.dateSep), ParseTriple(s[11..19], 2, l.timeSep))
      case (Some((y, mo, d)), Some((h, mi, se))) =>
        var t := DateTime(Date(y, mo, d), h, mi, se);
        if ValidDateTime(t) then Some(EpochSecond(t)) else None
      case _ => None
  }

  /** Splits a stamp into its date triple, time triple and suffix. */
  lemma StampParts(t: DateTime, l: StampLayout)
    requires ValidLayout(l) && ValidDateTime(t) && 1 <= t.date.year <= 9999
    ensures |Stamp(t, l)| == 19 + |l.suffix|
    ensures Stamp(t, l)[..10] == Triple(t.date.year, t.date.month, t.date.day, 4, l.dateSep)
    ensures Stamp(t, l)[10] == l.dateTimeSep
    ensures Stamp(t, l)[11..19] == Triple(t.hour, t.minute, t.second, 2, l.timeSep)
    ensures Stamp(t, l)[19..] == l.suffix
  {
    assert Pow10(4) == 10000 by {
      assert Pow10(1) == 10;
      assert Pow10(2) == 100;
      assert Pow10(3) == 1000;
    }
    var date := Triple(t.date.year, t.date.month, t.date.day, 4, l.dateSep);
    var time := Triple(t.hour, t.minute, t.second, 2, l.timeSep);
    TripleRoundTrip(t.date.year, t.date.month, t.date.day, 4, l.dateSep);
    TripleRoundTrip(t.hour, t.minute, t.second, 2, l.timeSep);
    var s := Stamp(t, l);
    assert s == date + [l.dateTimeSep] + time + l.suffix;
  }

  /** Formatting then parsing gives back the date and time. */
  lemma StampParse(t: DateTime, l: StampLayout)
    requires ValidLayout(l) && ValidDateTime(t) && 1 <= t.date.year <= 9999
    ensures ParseStamp(Stamp(t, l), l) == Some(EpochSecond(t))
  {
    assert Pow10(4) == 10000 by {
      assert Pow10(1) == 10;
      assert Pow10(2) == 100;
      assert Pow10(3) == 1000;
    }
    StampParts(t, l);
    TripleRoundTrip(t.date.year, t.date.month, t.date.day, 4, l.dateSep);
    TripleRoundTrip(t.hour, t.minute, t.second, 2, l.timeSep);
  }

  /** Formatting an instant then parsing gives back the instant, truncated to
      the second, for AD years 1 to 9999. (BC years print as year of era, so
      1 BC and AD 1 both print "0001" and cannot read back.) */
  lemma StampRoundTrip(ms: int, l: StampLayout)
    requires ValidLayout(l)
    requires 1 <= DateTimeOf(ms).date.year <= 9999
    ensures |Stamp(DateTimeOf(ms), l)| == 19 + |l.suffix|
    ensures ParseStamp(Stamp(DateTimeOf(ms), l), l) == Some(ms / MillisPerSecond)
  {
    StampParts(DateTimeOf(ms), l);
    StampParse(DateTimeOf(ms), l);
  }

  /** A stamp in either layout is made of digits, separators and the suffix:
      in particular it never contains the markup character '<'. */
  lemma StampHasNoMarkup(t: DateTime, l: StampLayout)
    requires l.dateSep != '<' && l.dateTimeSep != '<' && l.timeSep != '<' && '<' !in l.suffix
    ensures '<' !in Stamp(t, l)
  {
    var s := Stamp(t, l);
    var date := Triple(YearOfEra(t.date.year), Clamp(t.date.month), Clamp(t.date.day), 4, l.dateSep);
    var time := Triple(Clamp(t.hour), Clamp(t.minute), Clamp(t.second), 2, l.timeSep);
    assert s == date + [l.dateTimeSep] + time + l.suffix;
    assert '<' !in date by { TripleHasNoMarkup(YearOfEra(t.date.year), Clamp(t.date.month), Clamp(t.date.day), 4, l.dateSep); }
    assert '<' !in time by { TripleHasNoMarkup(Clamp(t.hour), Clamp(t.minute), Clamp(t.second), 2, l.timeSep); }
  }

  lemma TripleHasNoMarkup(a: nat, b: nat, c: nat, width: nat, sep: char)
    requires sep != '<'
    ensures '<' !in Triple(a, b, c, width, sep)
  {
    var pa, pb, pc := Pad(a, width), Pad(b, 2), Pad(c, 2);
    assert '<' !in pa && '<' !in pb && '<' !in pc by {
      assert forall j :: 0 <= j < |pa| ==> IsDigit(pa[j]);
      assert forall j :: 0 <= j < |pb| ==> IsDigit(pb[j]);
      assert forall j :: 0 <= j < |pc| ==> IsDigit(pc[j]);
    }
    assert Triple(a, b, c, width, sep) == pa + [sep] + pb + [sep] + pc;
  }

  /** A GPX time reads back as its instant, to the second (years 1 to 9999). */
  lemma FormatUtcReadsBack(ms: int)
    requires 1 <= DateTimeOf(ms).date.year <= 9999
    ensures |FormatUtc(ms)| == 20
    ensures ParseStamp(FormatUtc(ms), IsoUtcLayout) == Some(ms / MillisPerSecond)
  {
    StampRoundTrip(ms, IsoUtcLayout);
  }

  /** A GPX time never contains '<', so it cannot run into the markup after it. */
  lemma FormatUtcHasNoMarkup(ms: int)
    ensures '<' !in FormatUtc(ms)
  {
    StampHasNoMarkup(DateTimeOf(ms), IsoUtcLayout);
  }
}
