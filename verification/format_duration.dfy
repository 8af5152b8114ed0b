/**
 `formatDuration`: a whole number of seconds rendered as `mm:ss`, or as
 `hh:mm:ss` once it reaches an hour. Each field is the decimal value padded
 on the left with zeros to at least two characters.
 */
module Duration {
  import opened Outcomes
  import opened Text

  datatype Parts = Parts(hours: nat, minutes: nat, seconds: nat)

  /** The hours, minutes and seconds of `d` seconds. */
  function PartsOf(d: nat): (p: Parts)
    ensures p.minutes < 60 && p.seconds < 60
    ensures p.hours * 3600 + p.minutes * 60 + p.seconds == d
    ensures p.hours == 0 <==> d < 3600
  {
    Parts(d / 3600, (d % 3600) / 60, d % 60)
  }

  /** The only split of `d` with minutes and seconds below 60 is `PartsOf(d)`. */
  lemma PartsUnique(d: nat, p: Parts)
    requires p.minutes < 60 && p.seconds < 60
    requires p.hours * 3600 + p.minutes * 60 + p.seconds == d
    ensures p == PartsOf(d)
  {
    var q := PartsOf(d);
    assert p.minutes * 60 + p.seconds < 3600;
    assert q.minutes * 60 + q.seconds < 3600;
    assert p.hours == q.hours;
    assert p.minutes == q.minutes;
  }

  /** `String(num).padStart(2, "0")`: at least two digits, exactly two below 100. */
  function Pad(n: nat): (r: string)
    ensures AllDigits(r) && |r| >= 2
    ensures n < 100 ==> |r| == 2
  {
    PadStart(NatToDecimal(n), 2, '0')
  }

  /** Padding never truncates: from 100 up the digits are printed in full. */
  lemma PadLong(n: nat)
    requires n >= 100
    ensures Pad(n) == NatToDecimal(n)
  {
  }

  /** The padded field reads back as the number it shows. */
  lemma PadParse(n: nat)
    ensures ParseDecimal(Pad(n)) == n
  {
    var s := NatToDecimal(n);
    DecimalRoundTrip(n);
    if |s| < 2 {
      assert Pad(n) == "0" + s;
      ParseLeadingZero(s);
    }
  }

  predicate NoColon(s: string) {
    forall i :: 0 <= i < |s| ==> s[i] != ':'
  }

  /** `mm:ss`: two two-digit fields. */
  predicate IsMinSec(r: string) {
    |r| == 5 && r[2] == ':' && AllDigits(r[..2]) && AllDigits(r[3..])
  }

  /** `hh:mm:ss`: an hour field of two or more digits, then two two-digit fields. */
  predicate IsHourMinSec(r: string) {
    && |r| >= 8 && r[|r| - 3] == ':' && r[|r| - 6] == ':'
    && AllDigits(r[..|r| - 6]) && AllDigits(r[|r| - 5..|r| - 3]) && AllDigits(r[|r| - 2..])
  }

  /** The text shown for a split: `hh:mm:ss` when there are hours, else `mm:ss`. */
  function Show(p: Parts): (r: string)
    requires p.minutes < 60 && p.seconds < 60
    ensures p.hours == 0 ==> IsMinSec(r)
    ensures p.hours > 0 ==> IsHourMinSec(r)
  {
    if p.hours > 0 then
      ThreeFieldShape(Pad(p.hours), Pad(p.minutes), Pad(p.seconds));
      Pad(p.hours) + ":" + Pad(p.minutes) + ":" + Pad(p.seconds)
    else
      TwoFieldShape(Pad(p.minutes), Pad(p.seconds));
      Pad(p.minutes) + ":" + Pad(p.seconds)
  }

  lemma ThreeFieldShape(h: string, m: string, s: string)
    requires AllDigits(h) && |h| >= 2 && AllDigits(m) && |m| == 2 && AllDigits(s) && |s| == 2
    ensures IsHourMinSec(h + ":" + m + ":" + s)
  {
    var r := h + ":" + m + ":" + s;
    assert r[..|r| - 6] == h;
    assert r[|r| - 5..|r| - 3] == m;
    assert r[|r| - 2..] == s;
  }

  lemma TwoFieldShape(m: string, s: string)
    requires AllDigits(m) && |m| == 2 && AllDigits(s) && |s| == 2
    ensures IsMinSec(m + ":" + s)
  {
    var r := m + ":" + s;
    assert r[..2] == m;
    assert r[3..] == s;
  }

  /** `formatDuration(d)` for a natural `d`. */
  function FormatDuration(d: nat): (r: string)
    ensures d < 3600 ==> IsMinSec(r)
    ensures d >= 3600 ==> IsHourMinSec(r)
  {
    Show(PartsOf(d))
  }

  /** The colon-separated fields of `s`, as `s.split(":")`. */
  function SplitColon(s: string): (r: seq<string>)
    ensures |r| >= 1
    decreases |s|
  {
    if s == [] then [""]
    else if s[0] == ':' then [""] + SplitColon(s[1..])
    else
      var rest := SplitColon(s[1..]);
      [[s[0]] + rest[0]] + rest[1..]
  }

  lemma {:induction false} SplitNoColon(a: string)
    requires NoColon(a)
    ensures SplitColon(a) == [a]
    decreases |a|
  {
    if a != [] {
      SplitNoColon(a[1..]);
      assert [a[0]] + a[1..] == a;
    }
  }

  lemma {:induction false} SplitAtColon(a: string, b: string)
    requires NoColon(a)
    ensures SplitColon(a + ":" + b) == [a] + SplitColon(b)
    decreases |a|
  {
    var s := a + ":" + b;
    if a == [] {
      assert s[1..] == b;
    } else {
      assert s[1..] == a[1..] + ":" + b;
      SplitAtColon(a[1..], b);
      assert [a[0]] + a[1..] == a;
    }
  }

  /** A field that `formatDuration` can have produced: non-empty digits. */
  predicate IsField(s: string) {
    |s| > 0 && AllDigits(s)
  }

  /** Reads the fields of a duration back into seconds: two fields are
      minutes and seconds, three are hours, minutes and seconds. */
  function ParseFields(f: seq<string>): Option<nat> {
    if |f| == 2 && IsField(f[0]) && IsField(f[1]) then
      Some(ParseDecimal(f[0]) * 60 + ParseDecimal(f[1]))
    else if |f| == 3 && IsField(f[0]) && IsField(f[1]) && IsField(f[2]) then
      Some(ParseDecimal(f[0]) * 3600 + ParseDecimal(f[1]) * 60 + ParseDecimal(f[2]))
    else None
  }

  /** Reads a duration shown as `mm:ss` or `hh:mm:ss` back into seconds;
      `None` for any other shape. */
  function ParseDuration(s: string): Option<nat> {
    ParseFields(SplitColon(s))
  }

  lemma DigitsHaveNoColon(s: string)
    requires AllDigits(s)
    ensures NoColon(s)
  {
  }

  lemma SplitThree(h: string, m: string, s: string)
    requires NoColon(h) && NoColon(m) && NoColon(s)
    ensures SplitColon(h + ":" + m + ":" + s) == [h, m, s]
  {
    SplitNoColon(s);
    SplitAtColon(m, s);
    assert h + ":" + m + ":" + s == h + ":" + (m + ":" + s);
    SplitAtColon(h, m + ":" + s);
  }

  lemma SplitTwo(m: string, s: string)
    requires NoColon(m) && NoColon(s)
    ensures SplitColon(m + ":" + s) == [m, s]
  {
    SplitNoColon(s);
    SplitAtColon(m, s);
  }

  /** `hh:mm:ss` reads back field by field. */
  lemma ParseThreeFields(h: string, m: string, s: string)
    requires IsField(h) && IsField(m) && IsField(s)
    ensures ParseDuration(h + ":" + m + ":" + s)
            == Some(ParseDecimal(h) * 3600 + ParseDecimal(m) * 60 + ParseDecimal(s))
  {
    DigitsHaveNoColon(h);
    DigitsHaveNoColon(m);
    DigitsHaveNoColon(s);
    SplitThree(h, m, s);
  }

  /** `mm:ss` reads back field by field. */
  lemma ParseTwoFields(m: string, s: string)
    requires IsField(m) && IsField(s)
    ensures ParseDuration(m + ":" + s) == Some(ParseDecimal(m) * 60 + ParseDecimal(s))
  {
    DigitsHaveNoColon(m);
    DigitsHaveNoColon(s);
    SplitTwo(m, s);
  }

  /** The shown text reads back as the seconds the split stands for. */
  lemma ShowParse(p: Parts)
    requires p.minutes < 60 && p.seconds < 60
    ensures ParseDuration(Show(p)) == Some(p.hours * 3600 + p.minutes * 60 + p.seconds)
  {
    if p.hours > 0 {
      ShowParseWithHours(p);
    } else {
      ShowParseNoHours(p);
    }
  }

  lemma ParsePaddedTwo(m: nat, s: nat)
    ensures ParseDuration(Pad(m) + ":" + Pad(s)) == Some(m * 60 + s)
  {
    ParseTwoFields(Pad(m), Pad(s));
    PadParse(m);
    PadParse(s);
  }

  lemma ParsePaddedThree(h: nat, m: nat, s: nat)
    ensures ParseDuration(Pad(h) + ":" + Pad(m) + ":" + Pad(s)) == Some(h * 3600 + m * 60 + s)
  {
    PadParse(h);
    PadParse(m);
    PadParse(s);
    ParseThreeAs(Pad(h), Pad(m), Pad(s), h, m, s);
  }

  lemma ParseThreeAs(hs: string, ms: string, ss: string, h: nat, m: nat, s: nat)
    requires IsField(hs) && IsField(ms) && IsField(ss)
    requires ParseDecimal(hs) == h && ParseDecimal(ms) == m && ParseDecimal(ss) == s
    ensures ParseDuration(hs + ":" + ms + ":" + ss) == Some(h * 3600 + m * 60 + s)
  {
    ParseThreeFields(hs, ms, ss);
    var total := ParseDecimal(hs) * 3600 + ParseDecimal(ms) * 60 + ParseDecimal(ss);
    assert total == h * 3600 + m * 60 + s;
  }

  lemma ShowWithHours(p: Parts)
    requires p.minutes < 60 && p.seconds < 60 && p.hours > 0
    ensures Show(p) == Pad(p.hours) + ":" + Pad(p.minutes) + ":" + Pad(p.seconds)
  {
  }

  lemma ShowNoHours(p: Parts)
    requires p.minutes < 60 && p.seconds < 60 && p.hours == 0
    ensures Show(p) == Pad(p.minutes) + ":" + Pad(p.seconds)
  {
  }

  lemma ShowParseWithHours(p: Parts)
    requires p.minutes < 60 && p.seconds < 60 && p.hours > 0
    ensures ParseDuration(Show(p)) == Some(p.hours * 3600 + p.minutes * 60 + p.seconds)
  {
    ParsePaddedThree(p.hours, p.minutes, p.seconds);
    ShowWithHours(p);
  }

  lemma ShowParseNoHours(p: Parts)
    requires p.minutes < 60 && p.seconds < 60 && p.hours == 0
    ensures ParseDuration(Show(p)) == Some(p.minutes * 60 + p.seconds)
  {
    ParsePaddedTwo(p.minutes, p.seconds);
    ShowNoHours(p);
  }

  /** The displayed text recombines to exactly the seconds it was made from. */
  lemma FormatParseRoundTrip(d: nat)
    ensures ParseDuration(FormatDuration(d)) == Some(d)
  {
    ShowParse(PartsOf(d));
  }

  /** Zero seconds shows as `00:00`. */
  lemma FormatZero()
    ensures FormatDuration(0) == "00:00"
  {
  }

  /** Durations of 100 hours or more print every hour digit. */
  lemma LongHoursInFull(d: nat)
    requires d >= 360000
    ensures FormatDuration(d)[..|FormatDuration(d)| - 6] == NatToDecimal(PartsOf(d).hours)
  {
    ManyHours(d);
    ShowLongHours(PartsOf(d));
  }

  lemma ShowLongHours(p: Parts)
    requires p.minutes < 60 && p.seconds < 60 && p.hours >= 100
    ensures Show(p)[..|Show(p)| - 6] == NatToDecimal(p.hours)
  {
    PadLong(p.hours);
    ShowWithHours(p);
    HourFieldPrefix(Pad(p.hours), Pad(p.minutes), Pad(p.seconds));
  }

  lemma ManyHours(d: nat)
    requires d >= 360000
    ensures PartsOf(d).hours >= 100
  {
  }

  lemma HourFieldPrefix(h: string, m: string, s: string)
    requires |m| == 2 && |s| == 2
    ensures (h + ":" + m + ":" + s)[..|h + ":" + m + ":" + s| - 6] == h
  {
    var r := h + ":" + m + ":" + s;
    assert |r| - 6 == |h|;
  }
}
