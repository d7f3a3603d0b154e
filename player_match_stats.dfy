/**
  The played time on a player's match statistics screen: minutes and
  seconds, without hours.
 */
module PlayerMatchStats {
  import opened Strings
  import opened Helpers

  /** `getTimePlayed` of the statistics screen: "0m", "Ss", "Mm" or "Mm Ss". */
  function MatchTimePlayed(timePlayed: nat): (r: string)
    ensures |r| >= 2 && IsDigit(r[0])
    ensures r[|r| - 1] == if timePlayed % 60 == 0 then 'm' else 's'
  {
    if timePlayed == 0 then "0m"
    else
      var minutes := timePlayed / 60;
      var seconds := timePlayed % 60;
      if minutes == 0 then NatToString(seconds) + "s"
      else if seconds == 0 then NatToString(minutes) + "m"
      else NatToString(minutes) + "m " + NatToString(seconds) + "s"
  }

  /**
    Apart from no time at all, the statistics screen shows what the shared
    helper shows with minutes and seconds on and hours off; for no time the
    screen shows "0m" where the helper shows "0s".
   */
  lemma MatchTimePlayedIsMinutesAndSeconds(timePlayed: nat)
    ensures timePlayed > 0 ==> MatchTimePlayed(timePlayed) == TimePlayedText(timePlayed, false, true, true)
    ensures MatchTimePlayed(0) == "0m" && TimePlayedText(0, false, true, true) == "0s"
  {
    assert TimePlayedUnits(timePlayed, false, true, true) == Units(0, timePlayed / 60, timePlayed % 60);
    MinutesAndSecondsText(timePlayed / 60, timePlayed % 60);
    MinutesAndSecondsText(0, 0);
  }

  lemma MinutesAndSecondsText(minutes: nat, seconds: nat)
    ensures UnitsText(Units(0, minutes, seconds), false, true, true) ==
      if minutes == 0 && seconds == 0 then "0s"
      else if minutes == 0 then NatToString(seconds) + "s"
      else if seconds == 0 then NatToString(minutes) + "m"
      else NatToString(minutes) + "m " + NatToString(seconds) + "s"
  {
    if minutes > 0 && seconds > 0 {
      BothUnitsText(minutes, seconds);
    } else {
      assert UnitParts(Units(0, minutes, seconds)) ==
        (if minutes > 0 then [NatToString(minutes) + "m"] else []) +
        (if seconds > 0 then [NatToString(seconds) + "s"] else []);
    }
  }

  lemma BothUnitsText(minutes: nat, seconds: nat)
    requires minutes > 0 && seconds > 0
    ensures UnitsText(Units(0, minutes, seconds), false, true, true) ==
      NatToString(minutes) + "m " + NatToString(seconds) + "s"
  {
    var parts := UnitParts(Units(0, minutes, seconds));
    var m, s := NatToString(minutes) + "m", NatToString(seconds) + "s";
    assert parts == [m, s];
    assert parts[1..] == [s];
    assert JoinWithBlanks(parts) == m + " " + s;
  }
}
