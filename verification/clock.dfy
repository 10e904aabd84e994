/** The two clock-string formats of the application and the table's
    parser for them.

    - `MinSec`: `m:ss`, whole minutes then seconds padded to two digits
      (the player's `formatTime`, the coach panel's time labels);
    - `PaddedMinSec`: `MM:SS`, both parts padded (the upload dialog);
    - `ParseDuration`: `split(':').map(Number)` followed by
      `min * 60 + sec`, the duration sort key of the recordings table. */
module Clock {
  import opened Seqs
  import opened Text

  /** A duration string the model reads as a number: exactly one colon
      with a non-empty run of digits on each side. JavaScript reads more
      (an empty part is 0, a third part is ignored, blanks are trimmed);
      those strings read as `None` here. */
  predicate WellFormedDuration(s: string)
  {
    var parts := Split(s, ':');
    |parts| == 2 && |parts[0]| > 0 && |parts[1]| > 0 && AllDigits(parts[0]) && AllDigits(parts[1])
  }

  /** Total seconds of a `mm:ss` string; `None` wherever JavaScript would
      produce `NaN`, and also on the looser forms it still reads. */
  function ParseDuration(s: string): (r: Option<nat>)
    ensures r.Some? <==> WellFormedDuration(s)
  {
    var parts := Split(s, ':');
    if WellFormedDuration(s) then Some(ParseNat(parts[0]) * 60 + ParseNat(parts[1])) else None
  }

  /** `m:ss` for a whole number of seconds. */
  function MinSec(secs: nat): string
  {
    NatToString(secs / 60) + ":" + PadStart2(NatToString(secs % 60))
  }

  /** `MM:SS` for a whole number of seconds. */
  function PaddedMinSec(secs: nat): string
  {
    PadStart2(NatToString(secs / 60)) + ":" + PadStart2(NatToString(secs % 60))
  }

  /** The player's `formatTime`: `Math.floor(t / 60)` minutes and
      `Math.floor(t % 60)` seconds, for a non-negative time. */
  function FormatTime(t: real): (s: string)
    requires t >= 0.0
    ensures s == MinSec(t.Floor)
  {
    var mins := (t / 60.0).Floor;
    var secs := (t - 60.0 * mins as real).Floor;
    FloorSplit(t);
    NatToString(mins) + ":" + PadStart2(NatToString(secs))
  }

  /** Whole minutes and remaining whole seconds of a real time agree with
      integer division of its floor. */
  lemma FloorSplit(t: real)
    requires t >= 0.0
    ensures (t / 60.0).Floor == t.Floor / 60
    ensures (t - 60.0 * (t / 60.0).Floor as real).Floor == t.Floor % 60
  {
    var n := t.Floor;
    var m := n / 60;
    assert m as real * 60.0 <= n as real <= t;
    assert t < (n + 1) as real <= (m + 1) as real * 60.0;
    assert m as real <= t / 60.0 < (m + 1) as real;
  }

  /** Two digit strings joined by one colon split back into the two. */
  lemma SplitClock(a: string, b: string)
    requires AllDigits(a) && AllDigits(b)
    ensures Split(a + ":" + b, ':') == [a, b]
  {
    SplitAtFirst(a, ':', b);
    SplitWithoutSeparator(b, ':');
  }

  /** The table parser reads an `m:ss` label back as the same number of seconds. */
  lemma ParseMinSec(secs: nat)
    ensures ParseDuration(MinSec(secs)) == Some(secs)
  {
    var a := NatToString(secs / 60);
    var b := PadStart2(NatToString(secs % 60));
    ParsePadStart2(NatToString(secs % 60));
    SplitClock(a, b);
    ParseNatToString(secs / 60);
    ParseNatToString(secs % 60);
  }

  /** The table parser reads an `MM:SS` label back as the same number of seconds. */
  lemma ParsePaddedMinSec(secs: nat)
    ensures ParseDuration(PaddedMinSec(secs)) == Some(secs)
  {
    var a := PadStart2(NatToString(secs / 60));
    var b := PadStart2(NatToString(secs % 60));
    ParsePadStart2(NatToString(secs / 60));
    ParsePadStart2(NatToString(secs % 60));
    SplitClock(a, b);
    ParseNatToString(secs / 60);
    ParseNatToString(secs % 60);
  }

  /** Numeric, not lexicographic: 1:50 < 2:05 < 10:00, although "10:00"
      sorts before "2:05" as text. */
  lemma DurationOrderExample()
    ensures ParseDuration("1:50") == Some(110)
    ensures ParseDuration("2:05") == Some(125)
    ensures ParseDuration("10:00") == Some(600)
  {
    assert NatToString(50) == NatToString(5) + [DigitChar(0)] == "50";
    assert NatToString(10) == NatToString(1) + [DigitChar(0)] == "10";
    assert 110 / 60 == 1 && 110 % 60 == 50 && 125 / 60 == 2 && 125 % 60 == 5 && 600 / 60 == 10 && 600 % 60 == 0;
    assert NatToString(1) == "1" && NatToString(2) == "2" && NatToString(5) == "5" && NatToString(0) == "0";
    assert PadStart2("50") == "50" && PadStart2("5") == "05" && PadStart2("0") == "00";
    assert MinSec(110) == NatToString(1) + ":" + PadStart2(NatToString(50)) == "1:50";
    assert MinSec(125) == NatToString(2) + ":" + PadStart2(NatToString(5)) == "2:05";
    assert MinSec(600) == NatToString(10) + ":" + PadStart2(NatToString(0)) == "10:00";
    ParseMinSec(110);
    ParseMinSec(125);
    ParseMinSec(600);
  }

  /** A string that splits into two digit runs parses to `a * 60 + b`. */
  lemma ParseOfSplit(s: string, a: string, b: string)
    requires |a| > 0 && |b| > 0 && AllDigits(a) && AllDigits(b)
    requires Split(s, ':') == [a, b]
    ensures ParseDuration(s) == Some(ParseNat(a) * 60 + ParseNat(b))
  {
    assert WellFormedDuration(s);
  }

  /** `a:b` with two non-empty digit runs is well formed and parses to
      `a * 60 + b`. */
  lemma ClockLiteral(a: string, b: string)
    requires |a| > 0 && |b| > 0 && AllDigits(a) && AllDigits(b)
    ensures WellFormedDuration(a + ":" + b)
    ensures ParseDuration(a + ":" + b) == Some(ParseNat(a) * 60 + ParseNat(b))
  {
    var s := a + ":" + b;
    assert Split(s, ':') == [a, b] by {
      SplitClock(a, b);
    }
    ParseOfSplit(s, a, b);
  }

  /** A clock literal `a:b` whose parts read as `n` seconds in total. */
  lemma DurationLiteral(s: string, a: string, b: string, n: nat)
    requires s == a + ":" + b
    requires |a| == 2 && |b| == 2 && AllDigits(a) && AllDigits(b)
    requires DigitValue(a[0]) * 600 + DigitValue(a[1]) * 60 + DigitValue(b[0]) * 10 + DigitValue(b[1]) == n
    ensures ParseDuration(s) == Some(n)
  {
    ClockLiteral(a, b);
    TwoDigits(a);
    TwoDigits(b);
  }

  /** A two-digit string reads as tens and units. */
  lemma TwoDigits(a: string)
    requires |a| == 2 && AllDigits(a)
    ensures ParseNat(a) == DigitValue(a[0]) * 10 + DigitValue(a[1])
  {
    assert a[..1][..0] == [];
    assert ParseNat(a[..1]) == DigitValue(a[0]);
  }
}
