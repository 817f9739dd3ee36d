/** The clock-style displays of the running pages: a pace "m:ss", a duration
    "m:ss" or "h:mm:ss", and a duration in units "Hh Mm Ss". Each splits a
    positive number of seconds with `Math.floor` and JavaScript's `%`, and
    rounds only the seconds field, which can therefore reach 60. Each
    as-written display has a corrected twin that rounds the total first, and
    readers that turn a display back into its fields. */
module Clock {
  import opened Wrappers
  import opened RealMath
  import opened Text

  /** What every clock display shows for a non-positive input. */
  const Placeholder: string := "--:--"

  /** JavaScript's `x % 60`, which equals this for every real `x >= 0`. */
  function Mod60(x: real): real {
    x - 60.0 * (x / 60.0).Floor as real
  }

  /** JavaScript's `x % 3600` for `x >= 0`. */
  function Mod3600(x: real): real {
    x - 3600.0 * (x / 3600.0).Floor as real
  }

  lemma Mod60Bounds(x: real)
    ensures 0.0 <= Mod60(x) < 60.0
  {
  }

  /** Rounding the remainder gives the rounded total less the whole minutes,
      a number from 0 to 60 inclusive. */
  lemma RoundMod60(x: real)
    ensures Round(Mod60(x)) == Round(x) - 60 * (x / 60.0).Floor
    ensures 0 <= Round(Mod60(x)) <= 60
  {
    var q := (x / 60.0).Floor;
    assert Mod60(x) + 0.5 == (x + 0.5) - (60 * q) as real;
  }

  /** Whole hours and the whole minutes of the remainder make the whole minutes. */
  lemma ClockSplit(x: real)
    ensures 3600 * (x / 3600.0).Floor + 60 * (Mod3600(x) / 60.0).Floor == 60 * (x / 60.0).Floor
    ensures 0.0 <= Mod3600(x) < 3600.0
    ensures 0 <= (Mod3600(x) / 60.0).Floor < 60
  {
    var h := (x / 3600.0).Floor;
    assert Mod3600(x) / 60.0 == x / 60.0 - (60 * h) as real;
  }

  /** The fields of an "m:ss" or "h:mm:ss" display. */
  datatype ClockFields = MinSec(m: nat, s: nat) | HourMinSec(h: nat, m: nat, s: nat) {
    /** The number of seconds the fields spell. */
    function Seconds(): int {
      match this
      case MinSec(m, s) => 60 * m + s
      case HourMinSec(h, m, s) => 3600 * h + 60 * m + s
    }
  }

  /** Reads "m:ss" or "h:mm:ss" (any number of digits per field); None for
      anything else. */
  function ParseClock(s: string): Option<ClockFields> {
    match ReadNat(s)
    case None => None
    case Some((a, rest)) =>
      if rest != [] && rest[0] == ':' then ParseAfterFirst(a, rest[1..]) else None
  }

  /** The rest of a clock display once its first field and colon are read. */
  function ParseAfterFirst(a: nat, s: string): Option<ClockFields> {
    match ReadNat(s)
    case None => None
    case Some((b, tail)) =>
      if tail == [] then Some(MinSec(a, b))
      else if tail[0] == ':' then ParseLast(a, b, tail[1..])
      else None
  }

  /** The seconds field of "h:mm:ss". */
  function ParseLast(a: nat, b: nat, s: string): Option<ClockFields> {
    match ReadNat(s)
    case Some((c, end)) => if end == [] then Some(HourMinSec(a, b, c)) else None
    case None => None
  }

  /** "m:ss" reads back as its two fields. */
  lemma ReadMinSec(m: nat, s: nat)
    ensures ParseClock(NatToString(m) + (":" + PadTwo(NatToString(s)))) == Some(MinSec(m, s))
  {
    var rest := ":" + PadTwo(NatToString(s));
    ReadNatToString(m, rest);
    assert rest[1..] == PadTwo(NatToString(s)) + [];
    ReadPadTwo(s, []);
    assert ParseAfterFirst(m, rest[1..]) == Some(MinSec(m, s));
  }

  /** "h:mm:ss" reads back as its three fields. */
  lemma ReadHourMinSec(h: nat, m: nat, s: nat)
    ensures ParseClock(NatToString(h) + (":" + (PadTwo(NatToString(m)) + (":" + PadTwo(NatToString(s))))))
      == Some(HourMinSec(h, m, s))
  {
    var tail := ":" + PadTwo(NatToString(s));
    var rest := ":" + (PadTwo(NatToString(m)) + tail);
    assert tail[1..] == PadTwo(NatToString(s)) + [];
    ReadPadTwo(s, []);
    assert ParseLast(h, m, tail[1..]) == Some(HourMinSec(h, m, s));
    assert rest[1..] == PadTwo(NatToString(m)) + tail;
    ReadPadTwo(m, tail);
    assert ParseAfterFirst(h, rest[1..]) == Some(HourMinSec(h, m, s));
    ReadNatToString(h, rest);
  }

  /** A time display reads back as `t` rounded to the second, with hours
      exactly from an hour on, minutes below 60 and a seconds field that may
      reach 60. */
  predicate TimeReadsAs(shown: string, t: real) {
    && ParseClock(shown).Some?
    && (ParseClock(shown).value.HourMinSec? <==> t >= 3600.0)
    && ParseClock(shown).value.Seconds() == Round(t)
    && ParseClock(shown).value.m < 60 && ParseClock(shown).value.s <= 60
  }

  /** A pace display reads back as the floored minutes and the rounded
      remainder of `pace`, which together are `pace` rounded to the second,
      with a seconds field that may reach 60. */
  predicate PaceReadsAs(shown: string, pace: real) {
    && pace > 0.0
    && ParseClock(shown) == Some(MinSec((pace / 60.0).Floor, Round(Mod60(pace))))
    && ParseClock(shown).value.Seconds() == Round(pace)
    && ParseClock(shown).value.s <= 60
  }

  /** `formatPace` as written: whole minutes, a colon, and the rounded
      remainder padded to two digits. */
  function FormatPace(secondsPerKm: real): string {
    if secondsPerKm <= 0.0 then Placeholder
    else
      Mod60Bounds(secondsPerKm);
      var minutes := (secondsPerKm / 60.0).Floor;
      var seconds := Round(Mod60(secondsPerKm));
      NatToString(minutes) + (":" + PadTwo(NatToString(seconds)))
  }

  /** A positive pace is shown as minutes and seconds that together spell the
      pace rounded to the second, with the seconds field at most 60; a
      non-positive one as the placeholder. */
  lemma FormatPaceReads(secondsPerKm: real)
    ensures secondsPerKm <= 0.0 ==> FormatPace(secondsPerKm) == Placeholder
    ensures secondsPerKm > 0.0 ==>
      var f := ParseClock(FormatPace(secondsPerKm));
      && f == Some(MinSec((secondsPerKm / 60.0).Floor, Round(Mod60(secondsPerKm))))
      && f.value.Seconds() == Round(secondsPerKm)
      && f.value.s <= 60
  {
    if secondsPerKm > 0.0 {
      RoundMod60(secondsPerKm);
      ReadMinSec((secondsPerKm / 60.0).Floor, Round(Mod60(secondsPerKm)));
    }
  }

  /** As written, a pace of 119.6 s/km is shown as "1:60"; the corrected
      display shows "2:00". */
  lemma FormatPaceSixty()
    ensures FormatPace(119.6) == "1:60"
    ensures FormatPaceCorrected(119.6) == "2:00"
  {
    assert (119.6 / 60.0).Floor == 1;
    assert Round(Mod60(119.6)) == 60;
    assert Round(119.6) == 120;
    assert NatToString(1) == "1" && NatToString(2) == "2";
    assert NatToString(60) == "60" by {
      assert NatToString(6) == "6";
    }
    assert PadTwo("60") == "60";
    assert NatToString(0) == "0";
    assert PadTwo("0") == "00";
  }

  /** `formatPace` with the pace rounded to whole seconds before it is split. */
  function FormatPaceCorrected(secondsPerKm: real): string {
    if secondsPerKm <= 0.0 then Placeholder
    else
      var total := Round(secondsPerKm);
      NatToString(total / 60) + (":" + PadTwo(NatToString(total % 60)))
  }

  /** The corrected pace spells the pace rounded to the second, and its
      seconds field is below 60. */
  lemma FormatPaceCorrectedReads(secondsPerKm: real)
    requires secondsPerKm > 0.0
    ensures var f := ParseClock(FormatPaceCorrected(secondsPerKm));
      && f.Some? && f.value.MinSec?
      && f.value.Seconds() == Round(secondsPerKm)
      && f.value.s < 60
  {
    var total := Round(secondsPerKm);
    ReadMinSec(total / 60, total % 60);
  }

  /** "h:mm:ss" when there are hours, "m:ss" otherwise. */
  function ClockText(hours: int, minutes: int, seconds: int): string
    requires hours >= 0 && minutes >= 0 && seconds >= 0
  {
    if hours > 0 then
      NatToString(hours) + (":" + (PadTwo(NatToString(minutes)) + (":" + PadTwo(NatToString(seconds)))))
    else NatToString(minutes) + (":" + PadTwo(NatToString(seconds)))
  }

  /** `formatTime` of the running table and report as written: "h:mm:ss" from
      one hour on and "m:ss" below, with whole hours, the whole minutes of the
      remainder, and the rounded seconds of the remainder. */
  function FormatClock(totalSeconds: real): string {
    if totalSeconds <= 0.0 then Placeholder
    else
      Mod60Bounds(totalSeconds);
      ClockSplit(totalSeconds);
      var hours := (totalSeconds / 3600.0).Floor;
      var minutes := (Mod3600(totalSeconds) / 60.0).Floor;
      var seconds := Round(Mod60(totalSeconds));
      ClockText(hours, minutes, seconds)
  }

  /** A positive duration is shown with hours exactly when it lasts an hour or
      more; the fields spell the duration rounded to the second, the minutes
      stay below 60 and the seconds field is at most 60. */
  lemma FormatClockReads(totalSeconds: real)
    ensures totalSeconds <= 0.0 ==> FormatClock(totalSeconds) == Placeholder
    ensures totalSeconds > 0.0 ==>
      var f := ParseClock(FormatClock(totalSeconds));
      && f.Some?
      && (f.value.HourMinSec? <==> totalSeconds >= 3600.0)
      && f.value.Seconds() == Round(totalSeconds)
      && f.value.m < 60 && f.value.s <= 60
  {
    if totalSeconds > 0.0 {
      ClockSplitRounded(totalSeconds);
      var hours := (totalSeconds / 3600.0).Floor;
      var minutes := (Mod3600(totalSeconds) / 60.0).Floor;
      var seconds := Round(Mod60(totalSeconds));
      ReadClockFields(hours, minutes, seconds);
    }
  }

  /** The three fields of `formatTime` for a positive duration: whole hours
      (positive exactly from an hour on), minutes below 60, seconds at most 60,
      together the duration rounded to the second. */
  lemma ClockSplitRounded(x: real)
    requires x > 0.0
    ensures var h, m, s := (x / 3600.0).Floor, (Mod3600(x) / 60.0).Floor, Round(Mod60(x));
      && h >= 0 && 0 <= m < 60 && 0 <= s <= 60
      && (h > 0 <==> x >= 3600.0)
      && 3600 * h + 60 * m + s == Round(x)
  {
    RoundMod60(x);
    ClockSplit(x);
  }

  /** As written, 59 min 59.6 s is shown as "59:60"; the corrected display
      shows "1:00:00". */
  lemma FormatClockSixty()
    ensures FormatClock(3599.6) == "59:60"
    ensures FormatClockCorrected(3599.6) == "1:00:00"
  {
    assert (3599.6 / 3600.0).Floor == 0;
    assert (Mod3600(3599.6) / 60.0).Floor == 59;
    assert Round(Mod60(3599.6)) == 60;
    assert Round(3599.6) == 3600;
    assert NatToString(59) == "59" by {
      assert NatToString(5) == "5";
    }
    assert NatToString(60) == "60" by {
      assert NatToString(6) == "6";
    }
    assert PadTwo("60") == "60";
    assert NatToString(1) == "1" && NatToString(0) == "0";
    assert PadTwo("0") == "00";
  }

  /** `formatTime` with the duration rounded to whole seconds before it is split. */
  function FormatClockCorrected(totalSeconds: real): string {
    if totalSeconds <= 0.0 then Placeholder
    else
      var total := Round(totalSeconds);
      var hours, minutes, seconds := total / 3600, (total % 3600) / 60, total % 60;
      ClockText(hours, minutes, seconds)
  }

  /** The corrected display spells the duration rounded to the second with
      minutes and seconds both below 60. */
  lemma FormatClockCorrectedReads(totalSeconds: real)
    requires totalSeconds > 0.0
    ensures var f := ParseClock(FormatClockCorrected(totalSeconds));
      && f.Some?
      && f.value.Seconds() == Round(totalSeconds)
      && f.value.m < 60 && f.value.s < 60
  {
    ClockOfTotal(Round(totalSeconds));
  }

  /** A whole number of seconds split into hours, minutes and seconds reads
      back as that number, with minutes and seconds below 60. */
  lemma ClockOfTotal(total: nat)
    ensures var f := ParseClock(ClockText(total / 3600, (total % 3600) / 60, total % 60));
      && f.Some? && f.value.Seconds() == total && f.value.m < 60 && f.value.s < 60
  {
    var hours, minutes, seconds := total / 3600, (total % 3600) / 60, total % 60;
    SplitSeconds(total);
    ReadClockFields(hours, minutes, seconds);
  }

  /** Either shape of a clock display reads back as the fields it was made of. */
  lemma ReadClockFields(h: nat, m: nat, s: nat)
    ensures ParseClock(ClockText(h, m, s)) == Some(if h > 0 then HourMinSec(h, m, s) else MinSec(m, s))
  {
    if h > 0 {
      ReadHourMinSec(h, m, s);
    } else {
      ReadMinSec(m, s);
    }
  }

  /** Whole hours, the whole minutes of the rest and the seconds left make up the total. */
  lemma SplitSeconds(total: int)
    ensures 3600 * (total / 3600) + 60 * ((total % 3600) / 60) + total % 60 == total
    ensures 0 <= (total % 3600) / 60 < 60 && 0 <= total % 60 < 60
  {
    var h, r := total / 3600, total % 3600;
    assert total == 3600 * h + r && 0 <= r < 3600;
    var m, s := r / 60, r % 60;
    assert r == 60 * m + s && 0 <= s < 60;
    assert total == 60 * (60 * h + m) + s;
  }

  /** One "<number><unit>" field of a unit display. */
  datatype Field = Field(value: nat, unit: char)

  function UnitSeconds(unit: char): int {
    if unit == 'h' then 3600 else if unit == 'm' then 60 else 1
  }

  /** The number of seconds a list of fields spells. */
  function Total(fields: seq<Field>): int {
    if fields == [] then 0 else fields[0].value * UnitSeconds(fields[0].unit) + Total(fields[1..])
  }

  /** Reads space-separated fields such as "1h 5m 3s"; None for anything else. */
  function ParseUnits(s: string): Option<seq<Field>>
    decreases |s|
  {
    match ReadNat(s)
    case None => None
    case Some((a, rest)) =>
      if rest == [] || rest[0] !in "hms" then None
      else if |rest| == 1 then Some([Field(a, rest[0])])
      else if rest[1] == ' ' then
        match ParseUnits(rest[2..])
        case Some(more) => Some([Field(a, rest[0])] + more)
        case None => None
      else None
  }

  /** A last field reads back alone. */
  lemma ReadLastUnit(n: nat, unit: char)
    requires unit in "hms"
    ensures ParseUnits(NatToString(n) + [unit]) == Some([Field(n, unit)])
  {
    ReadNatToString(n, [unit]);
  }

  /** A field followed by a space and more fields reads back in front of them. */
  lemma ReadUnitThen(n: nat, unit: char, tail: string, fields: seq<Field>)
    requires unit in "hms" && ParseUnits(tail) == Some(fields)
    ensures ParseUnits(NatToString(n) + ([unit, ' '] + tail)) == Some([Field(n, unit)] + fields)
  {
    var rest := [unit, ' '] + tail;
    ReadNatToString(n, rest);
    assert rest[2..] == tail;
    ParseUnitsThen(NatToString(n) + rest, n, rest, fields);
  }

  /** A number, a unit and a space in front of readable fields. */
  lemma ParseUnitsThen(s: string, a: nat, rest: string, fields: seq<Field>)
    requires ReadNat(s) == Some((a, rest))
    requires |rest| >= 2 && rest[0] in "hms" && rest[1] == ' ' && ParseUnits(rest[2..]) == Some(fields)
    ensures ParseUnits(s) == Some([Field(a, rest[0])] + fields)
  {
  }

  /** The fields of "Hh Mm Ss", "Mm Ss" or "Ss". */
  function UnitsFields(hours: nat, minutes: nat, seconds: nat): seq<Field> {
    if hours > 0 then [Field(hours, 'h'), Field(minutes, 'm'), Field(seconds, 's')]
    else if minutes > 0 then [Field(minutes, 'm'), Field(seconds, 's')]
    else [Field(seconds, 's')]
  }

  /** "Hh Mm Ss", "Mm Ss" or "Ss" from whole hours, minutes and seconds. */
  function UnitsDisplay(hours: nat, minutes: nat, seconds: nat): string {
    if hours > 0 then NatToString(hours) + ("h " + (NatToString(minutes) + ("m " + (NatToString(seconds) + "s"))))
    else if minutes > 0 then NatToString(minutes) + ("m " + (NatToString(seconds) + "s"))
    else NatToString(seconds) + "s"
  }

  /** The unit display reads back as its fields, which drop leading zero units,
      end with the seconds, and spell hours, minutes and seconds together. */
  lemma UnitsDisplayReads(hours: nat, minutes: nat, seconds: nat)
    ensures ParseUnits(UnitsDisplay(hours, minutes, seconds)) == Some(UnitsFields(hours, minutes, seconds))
    ensures Total(UnitsFields(hours, minutes, seconds)) == 3600 * hours + 60 * minutes + seconds
    ensures UnitsFields(hours, minutes, seconds)[0].value > 0 || |UnitsFields(hours, minutes, seconds)| == 1
  {
    ReadLastUnit(seconds, 's');
    var sec := [Field(seconds, 's')];
    var secText := NatToString(seconds) + "s";
    assert Total(sec) == seconds;
    if hours > 0 || minutes > 0 {
      ReadUnitThen(minutes, 'm', secText, sec);
      var ms := NatToString(minutes) + ("m " + secText);
      assert ms == NatToString(minutes) + (['m', ' '] + secText);
      var msFields := [Field(minutes, 'm')] + sec;
      assert msFields[1..] == sec;
      assert Total(msFields) == 60 * minutes + seconds;
      if hours > 0 {
        ReadUnitThen(hours, 'h', ms, msFields);
        assert UnitsDisplay(hours, minutes, seconds) == NatToString(hours) + (['h', ' '] + ms);
        var all := [Field(hours, 'h')] + msFields;
        assert all[1..] == msFields;
        assert all == UnitsFields(hours, minutes, seconds);
      } else {
        assert msFields == UnitsFields(hours, minutes, seconds);
      }
    }
  }

  /** `formatForDisplay.time` of the running fitter (and the running chart's
      `formatTime`) as written: whole hours, whole minutes of the remainder
      and rounded seconds of the remainder, leading zero units dropped. */
  function FormatElapsed(totalSeconds: real): string {
    if totalSeconds <= 0.0 then Placeholder
    else
      Mod60Bounds(totalSeconds);
      ClockSplit(totalSeconds);
      UnitsDisplay((totalSeconds / 3600.0).Floor, (Mod3600(totalSeconds) / 60.0).Floor, Round(Mod60(totalSeconds)))
  }

  /** A positive duration is shown as fields that spell it rounded to the
      second, ending with a seconds field of at most 60. */
  lemma FormatElapsedReads(totalSeconds: real)
    ensures totalSeconds <= 0.0 ==> FormatElapsed(totalSeconds) == Placeholder
    ensures totalSeconds > 0.0 ==>
      var f := ParseUnits(FormatElapsed(totalSeconds));
      && f.Some? && Total(f.value) == Round(totalSeconds)
      && f.value[|f.value| - 1] == Field(Round(Mod60(totalSeconds)), 's')
      && Round(Mod60(totalSeconds)) <= 60
  {
    if totalSeconds > 0.0 {
      RoundMod60(totalSeconds);
      ClockSplit(totalSeconds);
      UnitsDisplayReads((totalSeconds / 3600.0).Floor, (Mod3600(totalSeconds) / 60.0).Floor, Round(Mod60(totalSeconds)));
    }
  }

  /** As written, 1 min 59.6 s is shown as "1m 60s"; the corrected display
      shows "2m 0s". */
  lemma FormatElapsedSixty()
    ensures FormatElapsed(119.6) == "1m 60s"
    ensures FormatElapsedCorrected(119.6) == "2m 0s"
  {
    assert (119.6 / 3600.0).Floor == 0;
    assert (Mod3600(119.6) / 60.0).Floor == 1;
    assert Round(Mod60(119.6)) == 60;
    assert Round(119.6) == 120;
    assert NatToString(60) == "60" by {
      assert NatToString(6) == "6";
    }
    assert NatToString(1) == "1" && NatToString(2) == "2" && NatToString(0) == "0";
  }

  /** The unit display with the duration rounded to whole seconds first. */
  function FormatElapsedCorrected(totalSeconds: real): string {
    if totalSeconds <= 0.0 then Placeholder
    else
      var total := Round(totalSeconds);
      UnitsDisplay(total / 3600, (total % 3600) / 60, total % 60)
  }

  /** The corrected display spells the duration rounded to the second, and
      every minutes or seconds field is below 60. */
  lemma FormatElapsedCorrectedReads(totalSeconds: real)
    requires totalSeconds > 0.0
    ensures var f := ParseUnits(FormatElapsedCorrected(totalSeconds));
      && f.Some? && Total(f.value) == Round(totalSeconds)
      && (forall i :: 0 <= i < |f.value| && f.value[i].unit != 'h' ==> f.value[i].value < 60)
  {
    UnitsOfTotal(Round(totalSeconds));
  }

  /** The unit display of a whole number of seconds split into hours, minutes
      and seconds reads back as that number, with minutes and seconds below 60. */
  lemma UnitsOfTotal(total: nat)
    ensures var f := ParseUnits(UnitsDisplay(total / 3600, (total % 3600) / 60, total % 60));
      && f.Some? && Total(f.value) == total
      && (forall i :: 0 <= i < |f.value| && f.value[i].unit != 'h' ==> f.value[i].value < 60)
  {
    var hours, minutes, seconds := total / 3600, (total % 3600) / 60, total % 60;
    SplitSeconds(total);
    UnitsDisplayReads(hours, minutes, seconds);
    FieldsBelowSixty(hours, minutes, seconds);
  }

  lemma FieldsBelowSixty(hours: nat, minutes: nat, seconds: nat)
    requires minutes < 60 && seconds < 60
    ensures var f := UnitsFields(hours, minutes, seconds);
      forall i :: 0 <= i < |f| && f[i].unit != 'h' ==> f[i].value < 60
  {
  }

  /** The running chart's brief `formatTime`: only the leading unit. */
  function FormatElapsedBrief(totalSeconds: real): string {
    if totalSeconds <= 0.0 then Placeholder
    else
      Mod60Bounds(totalSeconds);
      ClockSplit(totalSeconds);
      var hours := (totalSeconds / 3600.0).Floor;
      var minutes := (Mod3600(totalSeconds) / 60.0).Floor;
      if hours > 0 then NatToString(hours) + "h"
      else if minutes > 0 then NatToString(minutes) + "m"
      else NatToString(Round(Mod60(totalSeconds))) + "s"
  }

  /** The brief label is the leading field of the full display. */
  lemma FormatElapsedBriefLeads(totalSeconds: real)
    requires totalSeconds > 0.0
    ensures var b, f := ParseUnits(FormatElapsedBrief(totalSeconds)), ParseUnits(FormatElapsed(totalSeconds));
      && b.Some? && f.Some? && |b.value| == 1 && b.value[0] == f.value[0]
  {
    RoundMod60(totalSeconds);
    ClockSplit(totalSeconds);
    var hours := (totalSeconds / 3600.0).Floor;
    var minutes := (Mod3600(totalSeconds) / 60.0).Floor;
    var seconds := Round(Mod60(totalSeconds));
    UnitsDisplayReads(hours, minutes, seconds);
    if hours > 0 {
      ReadLastUnit(hours, 'h');
      ReadNatToString(hours, "h " + (NatToString(minutes) + ("m " + (NatToString(seconds) + "s"))));
    } else if minutes > 0 {
      ReadLastUnit(minutes, 'm');
      ReadNatToString(minutes, "m " + (NatToString(seconds) + "s"));
    } else {
      ReadLastUnit(seconds, 's');
    }
  }
}
