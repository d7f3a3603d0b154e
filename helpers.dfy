/**
  Small formatting and classification helpers shared by the screens: the
  outcome of a gulag fight, the played-time text, and the clock part of a
  match date.
 */
module Helpers {
  import opened Strings

  /** A gulag fight: 1 won, -1 lost, 0 not fought. A kill wins even when a death is also recorded. */
  function GulagResult(gulagKills: int, gulagDeaths: int): (r: int)
    ensures r == 1 <==> gulagKills > 0
    ensures r == -1 <==> gulagKills <= 0 && gulagDeaths > 0
    ensures r == 0 <==> gulagKills <= 0 && gulagDeaths <= 0
  {
    if gulagKills > 0 then 1
    else if gulagDeaths > 0 then -1
    else 0
  }

  // ---------------------------------------------------------------------------
  // Dates

  const MonthNames: seq<string> :=
    ["JAN", "FEB", "MAR", "APR", "MAY", "JUN", "JUL", "AUG", "SEP", "OCT", "NOV", "DEC"]

  lemma MonthNamesHaveThreeLetters(month: nat)
    requires month < 12
    ensures |MonthNames[month]| == 3
  {
  }

  /** The hour on a 12-hour clock face: midnight and noon read 12. */
  function ClockHour(hours: nat): (r: nat)
    requires hours < 24
    ensures 1 <= r <= 12
    ensures r % 12 == hours % 12
  {
    var h := hours % 12;
    if h == 0 then 12 else h
  }

  function Meridiem(hours: nat): (r: string)
    requires hours < 24
    ensures r == "PM" <==> hours >= 12
    ensures r == "AM" <==> hours < 12
  {
    if hours >= 12 then "PM" else "AM"
  }

  /** The 24-hour clock can be read back from the 12-hour hour and the meridiem. */
  lemma ClockHourRoundTrip(hours: nat)
    requires hours < 24
    ensures (if Meridiem(hours) == "PM" then 12 else 0) + ClockHour(hours) % 12 == hours
  {
  }

  /** Minutes below ten get a leading zero. */
  function TwoDigitMinutes(minutes: nat): (r: string)
    requires minutes < 60
    ensures |r| == 2 && AllDigits(r) && DigitsValue(r) == minutes
  {
    NatToStringRoundTrip(minutes);
    if minutes < 10 then
      var r := "0" + NatToString(minutes);
      assert r[..1] == "0" && r[1..] == NatToString(minutes);
      r
    else
      NatToString(minutes)
  }

  /**
    The clock part of `formatDate`, "H:MMAM": every field reads back as the
    12-hour hour, the minutes and the meridiem.
   */
  function ClockText(hours: nat, minutes: nat): (r: string)
    requires hours < 24 && minutes < 60
    ensures |r| >= 6
    ensures r[|r| - 2..] == Meridiem(hours)
    ensures r[|r| - 5] == ':'
    ensures AllDigits(r[..|r| - 5]) && DigitsValue(r[..|r| - 5]) == ClockHour(hours)
    ensures AllDigits(r[|r| - 4..|r| - 2]) && DigitsValue(r[|r| - 4..|r| - 2]) == minutes
  {
    NatToStringRoundTrip(ClockHour(hours));
    ClockFields(NatToString(ClockHour(hours)), TwoDigitMinutes(minutes), Meridiem(hours));
    NatToString(ClockHour(hours)) + ":" + TwoDigitMinutes(minutes) + Meridiem(hours)
  }

  /** Where the fields of a clock text sit, for any hour digits, two minute digits and two-letter meridiem. */
  lemma ClockFields(hh: string, mm: string, meridiem: string)
    requires |hh| >= 1 && |mm| == 2 && |meridiem| == 2
    ensures var r := hh + ":" + mm + meridiem;
      |r| >= 6 && r[|r| - 2..] == meridiem && r[|r| - 5] == ':' &&
      r[..|r| - 5] == hh && r[|r| - 4..|r| - 2] == mm
  {
    ConcatEnds(hh + ":", mm, meridiem);
    var r := hh + ":" + mm + meridiem;
    assert r[..|hh| + 1] == hh + ":";
    assert r[..|r| - 5] == r[..|hh| + 1][..|hh|];
  }

  /**
    `formatDate` once the timestamp is split into local month (0-11), day,
    hour (0-23) and minute: "MON D H:MMAM".
   */
  function FormatDate(month: nat, day: nat, hours: nat, minutes: nat): (r: string)
    requires month < 12 && hours < 24 && minutes < 60
    ensures |r| >= 12 && r[..3] == MonthNames[month] && r[3] == ' '
  {
    MonthNamesHaveThreeLetters(month);
    DateFields(MonthNames[month], day, ClockText(hours, minutes));
    MonthNames[month] + " " + NatToString(day) + " " + ClockText(hours, minutes)
  }

  /** Every field of the date text reads back: month name, day, and the clock part. */
  lemma FormatDateFields(month: nat, day: nat, hours: nat, minutes: nat)
    requires month < 12 && hours < 24 && minutes < 60
    ensures var r := FormatDate(month, day, hours, minutes);
      var c := |ClockText(hours, minutes)|;
      |r| >= 12 && r[..4] == MonthNames[month] + " "
      && r[|r| - c - 1] == ' ' && r[|r| - c..] == ClockText(hours, minutes)
      && AllDigits(r[4..|r| - c - 1]) && DigitsValue(r[4..|r| - c - 1]) == day
  {
    MonthNamesHaveThreeLetters(month);
    DateFields(MonthNames[month], day, ClockText(hours, minutes));
  }

  /** Where the fields of a date text sit, for any three-letter month name and clock text. */
  lemma DateFields(name: string, day: nat, clock: string)
    requires |name| == 3
    ensures var r := name + " " + NatToString(day) + " " + clock;
      var c := |clock|;
      |r| >= |clock| + 6 && r[..4] == name + " " && r[|r| - c - 1] == ' ' && r[|r| - c..] == clock
      && AllDigits(r[4..|r| - c - 1]) && DigitsValue(r[4..|r| - c - 1]) == day
  {
    var middle := NatToString(day);
    NatToStringRoundTrip(day);
    ConcatEnds(name + " ", middle, " " + clock);
    var r := name + " " + middle + " " + clock;
    assert r == (name + " ") + middle + (" " + clock);
    assert r[|r| - |clock|..] == clock by {
      assert r[|r| - |clock|..] == r[|r| - |clock| - 1..][1..];
    }
  }

  lemma ConcatEnds(head: string, middle: string, tail: string)
    ensures var r := head + middle + tail;
      |r| == |head| + |middle| + |tail| && r[..|head|] == head && r[|r| - |tail|..] == tail
      && r[|head|..|r| - |tail|] == middle
  {
  }

  // ---------------------------------------------------------------------------
  // Played time

  /** A component starts with a digit and ends with something other than white space. */
  predicate IsComponent(s: string)
  {
    |s| >= 2 && IsDigit(s[0]) && !IsWhitespace(s[|s| - 1])
  }

  /** One component of a played-time text, such as "3h". */
  function Component(value: nat, unit: char): (r: string)
    ensures |r| >= 2 && IsDigit(r[0]) && r[|r| - 1] == unit
    ensures !IsWhitespace(unit) ==> IsComponent(r)
  {
    NatToString(value) + [unit]
  }

  /** Components separated by one blank. */
  function JoinWithBlanks(parts: seq<string>): string
  {
    if parts == [] then ""
    else if |parts| == 1 then parts[0]
    else parts[0] + " " + JoinWithBlanks(parts[1..])
  }

  /**
    The played-time text of `getTimePlayed(t, includeHours, includeMinutes,
    includeSeconds)`, stated as the list of its non-zero components joined by
    blanks. A unit that is left out is not split off, so its time is carried
    into the next unit that is included.
   */
  function TimePlayedText(t: nat, includeHours: bool, includeMinutes: bool, includeSeconds: bool): (r: string)
    ensures r == [] <==> !includeHours && !includeMinutes && !includeSeconds
  {
    UnitsText(TimePlayedUnits(t, includeHours, includeMinutes, includeSeconds), includeHours, includeMinutes, includeSeconds)
  }

  /** The text for units already split off: the joined components, or a zero in the smallest shown unit. */
  function UnitsText(u: Units, includeHours: bool, includeMinutes: bool, includeSeconds: bool): (r: string)
    ensures r == [] ==> UnitParts(u) == [] && !includeHours && !includeMinutes && !includeSeconds
  {
    var parts := UnitParts(u);
    if parts != [] then
      JoinedComponentsEnds(parts);
      JoinWithBlanks(parts)
    else if includeSeconds then "0s"
    else if includeMinutes then "0m"
    else if includeHours then "0h"
    else ""
  }

  /** Hours, minutes and seconds as `getTimePlayed` splits them off; an excluded unit reads 0. */
  datatype Units = Units(hours: nat, minutes: nat, seconds: nat)

  function TimePlayedUnits(t: nat, includeHours: bool, includeMinutes: bool, includeSeconds: bool): (u: Units)
    ensures u.hours == if includeHours then t / 3600 else 0
    ensures !includeMinutes ==> u.minutes == 0
    ensures !includeSeconds ==> u.seconds == 0
    ensures includeSeconds ==> u.hours * 3600 + u.minutes * 60 + u.seconds == t
  {
    var hours := if includeHours then t / 3600 else 0;
    var afterHours := if hours > 0 then t % 3600 else t;
    var minutes := if includeMinutes then afterHours / 60 else 0;
    var afterMinutes := if minutes > 0 then afterHours % 60 else afterHours;
    var seconds := if includeSeconds then afterMinutes else 0;
    Units(hours, minutes, seconds)
  }

  /** The non-zero components, largest unit first. */
  function UnitParts(u: Units): (r: seq<string>)
    ensures forall i :: 0 <= i < |r| ==> IsComponent(r[i])
  {
    LeadingParts(u) + (if u.seconds > 0 then [Component(u.seconds, 's')] else [])
  }

  /** The hour and minute components. */
  function LeadingParts(u: Units): (r: seq<string>)
    ensures forall i :: 0 <= i < |r| ==> IsComponent(r[i])
  {
    (if u.hours > 0 then [Component(u.hours, 'h')] else [])
    + (if u.minutes > 0 then [Component(u.minutes, 'm')] else [])
  }

  /**
    The split loses no time: with seconds shown the units add up to the whole
    time, and without them less than a minute is dropped. A shown smaller
    unit stays below its larger one's size only when that larger unit is shown.
   */
  lemma TimePlayedUnitsRecompose(t: nat, includeHours: bool, includeMinutes: bool, includeSeconds: bool)
    ensures var u := TimePlayedUnits(t, includeHours, includeMinutes, includeSeconds);
      var total := u.hours * 3600 + u.minutes * 60 + u.seconds;
      (includeSeconds ==> total == t) &&
      (includeMinutes && !includeSeconds ==> total <= t < total + 60) &&
      (includeHours && !includeMinutes && !includeSeconds ==> total <= t < total + 3600) &&
      (includeHours ==> u.minutes < 60) &&
      (includeMinutes ==> u.seconds < 60)
  {
  }

  /** A unit that is left out is carried into the next one shown: hours only when minutes are off. */
  lemma TimePlayedCarriesIntoMinutes(t: nat)
    ensures TimePlayedText(t, false, true, false) == if t >= 60 then NatToString(t / 60) + "m" else "0m"
  {
  }

  /** With the default flags (hours and minutes, no seconds): "Xh Ym", "Xh", "Ym" or "0m". */
  lemma TimePlayedDefault(t: nat)
    ensures TimePlayedText(t, true, true, false) ==
      var h := t / 3600;
      var m := (t % 3600) / 60;
      if h > 0 && m > 0 then NatToString(h) + "h " + NatToString(m) + "m"
      else if h > 0 then NatToString(h) + "h"
      else if m > 0 then NatToString(m) + "m"
      else "0m"
  {
    var u := TimePlayedUnits(t, true, true, false);
    assert u.minutes == (t % 3600) / 60;
    if u.hours > 0 && u.minutes > 0 {
      var hh, mm := NatToString(u.hours), NatToString(u.minutes);
      assert UnitParts(u) == [hh + "h", mm + "m"];
      assert UnitParts(u)[1..] == [mm + "m"];
      assert JoinWithBlanks(UnitParts(u)) == hh + "h" + " " + (mm + "m");
      assert hh + "h" + " " + (mm + "m") == hh + "h " + mm + "m";
    }
  }

  lemma TimePlayedSecondsOnly(t: nat)
    ensures TimePlayedText(t, false, false, true) == NatToString(t) + "s"
  {
    if t == 0 {
      assert NatToString(0) == "0";
    }
  }

  lemma JoinWithBlanksAppend(parts: seq<string>, last: string)
    requires parts != []
    ensures JoinWithBlanks(parts + [last]) == JoinWithBlanks(parts) + " " + last
    decreases |parts|
  {
    if |parts| > 1 {
      assert (parts + [last])[1..] == parts[1..] + [last];
      JoinWithBlanksAppend(parts[1..], last);
    }
  }

  /** Joined components start with a digit and end with a unit letter. */
  lemma {:induction false} JoinedComponentsEnds(parts: seq<string>)
    requires parts != []
    requires forall i :: 0 <= i < |parts| ==> IsComponent(parts[i])
    ensures IsComponent(JoinWithBlanks(parts))
    decreases |parts|
  {
    if |parts| > 1 {
      JoinedComponentsEnds(parts[1..]);
    }
  }

  /** The played-time text never starts or ends with a blank, and is empty only when every unit is excluded. */
  lemma TimePlayedTextTrimmed(t: nat, includeHours: bool, includeMinutes: bool, includeSeconds: bool)
    ensures var r := TimePlayedText(t, includeHours, includeMinutes, includeSeconds);
      r == [] || (!IsWhitespace(r[0]) && !IsWhitespace(r[|r| - 1]))
    ensures TimePlayedText(t, includeHours, includeMinutes, includeSeconds) == [] <==>
              !includeHours && !includeMinutes && !includeSeconds
  {
    var u := TimePlayedUnits(t, includeHours, includeMinutes, includeSeconds);
    UnitsTextTrimmed(u, includeHours, includeMinutes, includeSeconds);
    assert !includeHours && !includeMinutes && !includeSeconds ==> u == Units(0, 0, 0);
  }

  lemma UnitsTextTrimmed(u: Units, includeHours: bool, includeMinutes: bool, includeSeconds: bool)
    ensures var r := UnitsText(u, includeHours, includeMinutes, includeSeconds);
      r == [] || (!IsWhitespace(r[0]) && !IsWhitespace(r[|r| - 1]))
    ensures u == Units(0, 0, 0) ==>
              (UnitsText(u, includeHours, includeMinutes, includeSeconds) == [] <==>
               !includeHours && !includeMinutes && !includeSeconds)
    ensures UnitsText(u, includeHours, includeMinutes, includeSeconds) == [] ==>
              !includeHours && !includeMinutes && !includeSeconds
  {
    if UnitParts(u) != [] {
      JoinedComponentsEnds(UnitParts(u));
    }
  }

  /** The text before trimming: "Xh ", "Ym " and "Zs" for the non-zero units. */
  function RawTimePlayed(u: Units): string
  {
    RawLeading(u) + Piece(u.seconds, 's', "")
  }

  function RawLeading(u: Units): string
  {
    Piece(u.hours, 'h', " ") + Piece(u.minutes, 'm', " ")
  }

  /** What one unit adds to the raw text: nothing when it is zero. */
  function Piece(value: nat, unit: char, separator: string): string
  {
    if value > 0 then Component(value, unit) + separator else ""
  }

  /** Every leading component is followed by a blank. */
  lemma RawLeadingJoins(u: Units)
    ensures RawLeading(u) == if LeadingParts(u) == [] then "" else JoinWithBlanks(LeadingParts(u)) + " "
  {
    if u.hours > 0 && u.minutes > 0 {
      JoinWithBlanksAppend([Component(u.hours, 'h')], Component(u.minutes, 'm'));
      assert LeadingParts(u) == [Component(u.hours, 'h')] + [Component(u.minutes, 'm')];
    }
  }

  /** The raw text is the joined components, with a trailing blank unless seconds were written. */
  lemma RawIsJoin(u: Units)
    ensures RawTimePlayed(u) ==
      if UnitParts(u) == [] then "" else JoinWithBlanks(UnitParts(u)) + (if u.seconds > 0 then "" else " ")
  {
    RawLeadingJoins(u);
    var lead := LeadingParts(u);
    if u.seconds > 0 {
      var sec := Component(u.seconds, 's');
      assert UnitParts(u) == lead + [sec];
      if lead != [] {
        JoinWithBlanksAppend(lead, sec);
      } else {
        assert UnitParts(u) == [sec];
      }
      assert RawTimePlayed(u) == RawLeading(u) + sec;
    } else {
      assert UnitParts(u) == lead;
      assert RawTimePlayed(u) == RawLeading(u) + "";
    }
  }

  /** Trimming the raw text gives the components joined by blanks. */
  lemma RawTimePlayedTrims(u: Units)
    ensures RawTimePlayed(u) == "" <==> UnitParts(u) == []
    ensures UnitParts(u) != [] ==> Trim(RawTimePlayed(u)) == JoinWithBlanks(UnitParts(u))
  {
    RawIsJoin(u);
    if UnitParts(u) != [] {
      JoinedComponentsEnds(UnitParts(u));
      TrimmedJoin(JoinWithBlanks(UnitParts(u)), u.seconds == 0);
    }
  }

  lemma TrimmedJoin(joined: string, trailingBlank: bool)
    requires IsComponent(joined)
    ensures Trim(joined + (if trailingBlank then " " else "")) == joined
  {
    if trailingBlank {
      TrimDropsTrailingBlank(joined);
    } else {
      assert joined + "" == joined;
    }
  }

  /**
    `getTimePlayed`: writes the non-zero included units, falls back to a
    zero in the smallest included unit when nothing was written, and trims.
   */
  method GetTimePlayed(timePlayed: nat, includeHours: bool, includeMinutes: bool, includeSeconds: bool)
    returns (text: string)
    ensures text == TimePlayedText(timePlayed, includeHours, includeMinutes, includeSeconds)
  {
    text := WriteUnits(timePlayed, includeHours, includeMinutes, includeSeconds);
    ghost var u := TimePlayedUnits(timePlayed, includeHours, includeMinutes, includeSeconds);
    RawTimePlayedTrims(u);
    if text == "" {
      if includeSeconds {
        return "0s";
      }
      if includeMinutes {
        return "0m";
      }
      if includeHours {
        return "0h";
      }
    }
    text := Trim(text);
  }

  /**
    The appending part of `getTimePlayed`: "Xh ", "Ym " and "Zs" for the
    non-zero included units, taking each unit off the remaining time.
   */
  method WriteUnits(timePlayed: nat, includeHours: bool, includeMinutes: bool, includeSeconds: bool)
    returns (text: string)
    ensures text == RawTimePlayed(TimePlayedUnits(timePlayed, includeHours, includeMinutes, includeSeconds))
  {
    text := "";
    var rest := timePlayed;
    ghost var h, m, sec := 0, 0, 0;
    if includeHours {
      var hours := rest / 3600;
      if hours > 0 {
        text := text + Component(hours, 'h') + " ";
        rest := rest % 3600;
      }
      h := hours;
    }
    assert text == Piece(h, 'h', " ");
    assert h == (if includeHours then timePlayed / 3600 else 0);
    assert rest == if h > 0 then timePlayed % 3600 else timePlayed;
    ghost var hoursText, afterHours := text, rest;
    if includeMinutes {
      var minutes := rest / 60;
      if minutes > 0 {
        text := text + Component(minutes, 'm') + " ";
        rest := rest % 60;
      }
      m := minutes;
    }
    assert text == hoursText + Piece(m, 'm', " ");
    assert m == (if includeMinutes then afterHours / 60 else 0);
    assert rest == if m > 0 then afterHours % 60 else afterHours;
    ghost var leadText := text;
    if includeSeconds {
      var seconds := rest;
      if seconds > 0 {
        text := text + Component(seconds, 's');
      }
      sec := seconds;
    }
    assert sec == if includeSeconds then (if m > 0 then afterHours % 60 else afterHours) else 0;
    assert text == leadText + Piece(sec, 's', "") by {
      assert leadText + "" == leadText;
    }
    assert text == RawTimePlayed(Units(h, m, sec));
    StepsGiveUnits(timePlayed, includeHours, includeMinutes, includeSeconds, h, afterHours, m, sec);
  }

  /** The units the appending steps of `getTimePlayed` take off one by one are the units of the split. */
  lemma StepsGiveUnits(t: nat, includeHours: bool, includeMinutes: bool, includeSeconds: bool,
                       h: nat, afterHours: nat, m: nat, sec: nat)
    requires h == (if includeHours then t / 3600 else 0)
    requires afterHours == if h > 0 then t % 3600 else t
    requires m == (if includeMinutes then afterHours / 60 else 0)
    requires sec == if includeSeconds then (if m > 0 then afterHours % 60 else afterHours) else 0
    ensures Units(h, m, sec) == TimePlayedUnits(t, includeHours, includeMinutes, includeSeconds)
  {
  }
}
