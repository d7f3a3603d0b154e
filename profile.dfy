/**
  The profile screen's match list: one pass over the recent matches that
  turns each into a list row and gathers the summary shown above them
  (best kills, best placement and how often it was reached, gulag wins
  and losses).
 */
module Profile {
  import opened Wrappers
  import opened Strings
  import opened Helpers

  datatype PlayerStats = PlayerStats(
    kills: int,
    deaths: int,
    damageDone: int,
    teamPlacement: Option<int>,
    gulagKills: int,
    gulagDeaths: int)

  datatype MatchInput = MatchInput(
    matchID: string,
    uno: string,
    mode: string,
    stats: PlayerStats,
    utcStartSeconds: nat,
    utcEndSeconds: int)

  /** A row's placement: the reported one, or "N/A" when none was reported. */
  datatype Placement = Place(place: int) | NotAvailable

  datatype MatchListItem =
    | Summary(
        id: string,
        numberOfMatches: nat,
        bestGameKills: int,
        bestPlacement: int,
        bestPlacementCount: nat,
        gulagKills: nat,
        gulagDeaths: nat)
    | MatchRow(
        id: string,
        uno: string,
        mode: string,
        placement: Placement,
        kills: int,
        deaths: int,
        damage: int,
        gulag: int,
        utcStartSeconds: nat,
        utcEndSeconds: int,
        date: string)

  /** The starting value of the best placement: above any real placement. */
  const NoPlacement := 99999

  /** A placement takes part in the best-placement race only when it is present and non-zero. */
  predicate CountsForPlacement(s: PlayerStats)
  {
    s.teamPlacement.Some? && s.teamPlacement.value != 0
  }

  // ---------------------------------------------------------------------------
  // The accumulators, as folds over the matches seen so far

  function BestKills(ms: seq<MatchInput>): (r: int)
    ensures r >= 0
    decreases |ms|
  {
    if ms == [] then 0
    else
      var best := BestKills(ms[..|ms| - 1]);
      var kills := ms[|ms| - 1].stats.kills;
      if kills > best then kills else best
  }

  function BestPlacement(ms: seq<MatchInput>): (r: int)
    ensures r <= NoPlacement
    decreases |ms|
  {
    if ms == [] then NoPlacement
    else
      var best := BestPlacement(ms[..|ms| - 1]);
      var s := ms[|ms| - 1].stats;
      if CountsForPlacement(s) && s.teamPlacement.value < best then s.teamPlacement.value else best
  }

  /** Restarts at 1 on a new best placement and goes up by one when the best is met again. */
  function BestPlacementCount(ms: seq<MatchInput>): (r: nat)
    ensures r <= |ms|
    decreases |ms|
  {
    if ms == [] then 0
    else
      var init := ms[..|ms| - 1];
      var best := BestPlacement(init);
      var count := BestPlacementCount(init);
      var s := ms[|ms| - 1].stats;
      if !CountsForPlacement(s) then count
      else if s.teamPlacement.value < best then 1
      else if s.teamPlacement.value == best then count + 1
      else count
  }

  function GulagWins(ms: seq<MatchInput>): (r: nat)
    ensures r <= |ms|
    decreases |ms|
  {
    if ms == [] then 0
    else
      var s := ms[|ms| - 1].stats;
      GulagWins(ms[..|ms| - 1]) + if GulagResult(s.gulagKills, s.gulagDeaths) == 1 then 1 else 0
  }

  function GulagLosses(ms: seq<MatchInput>): (r: nat)
    ensures r <= |ms|
    decreases |ms|
  {
    if ms == [] then 0
    else
      var s := ms[|ms| - 1].stats;
      GulagLosses(ms[..|ms| - 1]) + if GulagResult(s.gulagKills, s.gulagDeaths) == -1 then 1 else 0
  }

  /**
    The row of one match. The game mode's display name and the date text
    come from `gameMode` and `dateOf`, which stand for the API's mode table
    and for `formatDate` applied to the local time of a timestamp.
   */
  function MatchRecord(m: MatchInput, gameMode: string -> string, dateOf: int -> string): (r: MatchListItem)
    ensures r.MatchRow? && r.id == m.matchID && r.uno == m.uno
    ensures r.kills == m.stats.kills && r.deaths == m.stats.deaths && r.damage == m.stats.damageDone
    ensures r.placement == NotAvailable <==> m.stats.teamPlacement.None?
    ensures m.stats.teamPlacement.Some? ==> r.placement.place == m.stats.teamPlacement.value
    ensures r.gulag == GulagResult(m.stats.gulagKills, m.stats.gulagDeaths)
    ensures r.utcStartSeconds == m.utcStartSeconds && r.utcEndSeconds == m.utcEndSeconds
    ensures r.mode == gameMode(m.mode) && r.date == dateOf(m.utcEndSeconds)
  {
    MatchRow(
      m.matchID, m.uno, gameMode(m.mode),
      if m.stats.teamPlacement.Some? then Place(m.stats.teamPlacement.value) else NotAvailable,
      m.stats.kills, m.stats.deaths, m.stats.damageDone,
      GulagResult(m.stats.gulagKills, m.stats.gulagDeaths),
      m.utcStartSeconds, m.utcEndSeconds, dateOf(m.utcEndSeconds))
  }

  function SummaryOf(ms: seq<MatchInput>): (r: MatchListItem)
    requires ms != []
    ensures r.Summary? && r.numberOfMatches == |ms|
    ensures AllDigits(r.id) && DigitsValue(r.id) == ms[0].utcStartSeconds
  {
    NatToStringRoundTrip(ms[0].utcStartSeconds);
    Summary(
      NatToString(ms[0].utcStartSeconds), |ms|,
      BestKills(ms), BestPlacement(ms), BestPlacementCount(ms),
      GulagWins(ms), GulagLosses(ms))
  }

  /**
    `filterMatchData`: a row per match, in order, headed by the summary
    when there is at least one match.
   */
  method FilterMatchData(matches: seq<MatchInput>, gameMode: string -> string, dateOf: int -> string)
    returns (items: seq<MatchListItem>)
    ensures matches == [] ==> items == []
    ensures matches != [] ==> |items| == |matches| + 1 && items[0] == SummaryOf(matches)
    ensures forall i :: 0 <= i < |matches| ==> items[i + 1] == MatchRecord(matches[i], gameMode, dateOf)
  {
    var rows: seq<MatchListItem> := [];
    var bestPlacement := NoPlacement;
    var bestPlacementCount := 0;
    var bestGameKills := 0;
    var gulagKills := 0;
    var gulagDeaths := 0;
    var i := 0;
    while i < |matches|
      invariant 0 <= i <= |matches|
      invariant |rows| == i
      invariant forall k :: 0 <= k < i ==> rows[k] == MatchRecord(matches[k], gameMode, dateOf)
      invariant bestGameKills == BestKills(matches[..i])
      invariant bestPlacement == BestPlacement(matches[..i])
      invariant bestPlacementCount == BestPlacementCount(matches[..i])
      invariant gulagKills == GulagWins(matches[..i])
      invariant gulagDeaths == GulagLosses(matches[..i])
    {
      var m := matches[i];
      assert matches[..i + 1][..i] == matches[..i];
      assert matches[..i + 1][i] == m;
      if m.stats.kills > bestGameKills {
        bestGameKills := m.stats.kills;
      }
      if m.stats.teamPlacement.Some? && m.stats.teamPlacement.value != 0 {
        if m.stats.teamPlacement.value < bestPlacement {
          bestPlacement := m.stats.teamPlacement.value;
          bestPlacementCount := 1;
        } else if m.stats.teamPlacement.value == bestPlacement {
          bestPlacementCount := bestPlacementCount + 1;
        }
      }
      var gulag := GulagResult(m.stats.gulagKills, m.stats.gulagDeaths);
      gulagKills := gulagKills + if gulag == 1 then 1 else 0;
      gulagDeaths := gulagDeaths + if gulag == -1 then 1 else 0;
      rows := rows + [MatchRecord(m, gameMode, dateOf)];
      i := i + 1;
    }
    assert matches[..i] == matches;
    if |rows| > 0 {
      items := [Summary(
        NatToString(rows[0].utcStartSeconds), |rows|,
        bestGameKills, bestPlacement, bestPlacementCount, gulagKills, gulagDeaths)] + rows;
    } else {
      items := rows;
    }
  }

  // ---------------------------------------------------------------------------
  // What the summary means

  /** The best kills are the largest kill count, or 0 when no match has more. */
  lemma {:induction false} BestKillsIsMaximum(ms: seq<MatchInput>)
    ensures BestKills(ms) >= 0
    ensures forall i :: 0 <= i < |ms| ==> ms[i].stats.kills <= BestKills(ms)
    ensures BestKills(ms) == 0 || exists i :: 0 <= i < |ms| && ms[i].stats.kills == BestKills(ms)
    decreases |ms|
  {
    if ms != [] {
      var init := ms[..|ms| - 1];
      BestKillsIsMaximum(init);
      assert forall i :: 0 <= i < |init| ==> init[i] == ms[i];
      if BestKills(ms) != BestKills(init) {
        assert ms[|ms| - 1].stats.kills == BestKills(ms);
      } else if BestKills(ms) != 0 {
        var j :| 0 <= j < |init| && init[j].stats.kills == BestKills(init);
        assert ms[j].stats.kills == BestKills(ms);
      }
    }
  }

  /**
    The best placement is the smallest placement that counts, or 99999 when
    no counting placement is smaller.
   */
  lemma {:induction false} BestPlacementIsMinimum(ms: seq<MatchInput>)
    ensures BestPlacement(ms) <= NoPlacement
    ensures forall i :: 0 <= i < |ms| && CountsForPlacement(ms[i].stats) ==>
      BestPlacement(ms) <= ms[i].stats.teamPlacement.value
    ensures BestPlacement(ms) == NoPlacement ||
      (exists i :: 0 <= i < |ms| && CountsForPlacement(ms[i].stats) && ms[i].stats.teamPlacement.value == BestPlacement(ms))
    decreases |ms|
  {
    if ms != [] {
      var init := ms[..|ms| - 1];
      BestPlacementIsMinimum(init);
      assert forall i :: 0 <= i < |init| ==> init[i] == ms[i];
      if BestPlacement(ms) != BestPlacement(init) {
        assert ms[|ms| - 1].stats.teamPlacement.value == BestPlacement(ms);
      } else if BestPlacement(ms) != NoPlacement {
        var j :| 0 <= j < |init| && CountsForPlacement(init[j].stats) &&
          init[j].stats.teamPlacement.value == BestPlacement(init);
        assert ms[j].stats.teamPlacement.value == BestPlacement(ms);
      }
    }
  }

  /** How many matches have a counting placement equal to `place`. */
  function PlacedCount(ms: seq<MatchInput>, place: int): nat
    decreases |ms|
  {
    if ms == [] then 0
    else
      var s := ms[|ms| - 1].stats;
      PlacedCount(ms[..|ms| - 1], place) + if CountsForPlacement(s) && s.teamPlacement.value == place then 1 else 0
  }

  lemma {:induction false} PlacedCountAbsent(ms: seq<MatchInput>, place: int)
    requires forall i :: 0 <= i < |ms| && CountsForPlacement(ms[i].stats) ==> ms[i].stats.teamPlacement.value != place
    ensures PlacedCount(ms, place) == 0
    decreases |ms|
  {
    if ms != [] {
      var init := ms[..|ms| - 1];
      assert forall i :: 0 <= i < |init| ==> init[i] == ms[i];
      PlacedCountAbsent(init, place);
    }
  }

  /** The best-placement count is the number of matches placed exactly at the best placement. */
  lemma {:induction false} BestPlacementCountCountsBest(ms: seq<MatchInput>)
    ensures BestPlacementCount(ms) == PlacedCount(ms, BestPlacement(ms))
    decreases |ms|
  {
    if ms != [] {
      var init := ms[..|ms| - 1];
      BestPlacementCountCountsBest(init);
      var s := ms[|ms| - 1].stats;
      if CountsForPlacement(s) && s.teamPlacement.value < BestPlacement(init) {
        BestPlacementIsMinimum(init);
        PlacedCountAbsent(init, s.teamPlacement.value);
      }
    }
  }

  /** A best placement is reached at least once exactly when some counting placement is at most 99999. */
  lemma BestPlacementCountPositive(ms: seq<MatchInput>)
    ensures BestPlacementCount(ms) > 0 <==>
      exists i :: 0 <= i < |ms| && CountsForPlacement(ms[i].stats) && ms[i].stats.teamPlacement.value <= NoPlacement
  {
    BestPlacementIsMinimum(ms);
    BestPlacementCountCountsBest(ms);
    if exists i :: 0 <= i < |ms| && CountsForPlacement(ms[i].stats) && ms[i].stats.teamPlacement.value <= NoPlacement {
      var i :| 0 <= i < |ms| && CountsForPlacement(ms[i].stats) && ms[i].stats.teamPlacement.value <= NoPlacement;
      var j :| 0 <= j < |ms| && CountsForPlacement(ms[j].stats) && ms[j].stats.teamPlacement.value == BestPlacement(ms);
      PlacedCountHas(ms, BestPlacement(ms), j);
    } else if BestPlacementCount(ms) > 0 {
      PlacedCountAbsent(ms, BestPlacement(ms));
    }
  }

  lemma {:induction false} PlacedCountHas(ms: seq<MatchInput>, place: int, j: int)
    requires 0 <= j < |ms| && CountsForPlacement(ms[j].stats) && ms[j].stats.teamPlacement.value == place
    ensures PlacedCount(ms, place) > 0
    decreases |ms|
  {
    if j < |ms| - 1 {
      var init := ms[..|ms| - 1];
      assert init[j] == ms[j];
      PlacedCountHas(init, place, j);
    }
  }

  /** Each match counts as a gulag win, a gulag loss or neither, never as both. */
  lemma {:induction false} GulagTallyBounded(ms: seq<MatchInput>)
    ensures GulagWins(ms) + GulagLosses(ms) <= |ms|
    decreases |ms|
  {
    if ms != [] {
      GulagTallyBounded(ms[..|ms| - 1]);
    }
  }

  /** Gulag wins count the matches with a gulag kill. */
  lemma {:induction false} GulagWinsCountKills(ms: seq<MatchInput>)
    ensures GulagWins(ms) == |set i | 0 <= i < |ms| && ms[i].stats.gulagKills > 0|
    decreases |ms|
  {
    if ms != [] {
      var n := |ms| - 1;
      var init := ms[..n];
      GulagWinsCountKills(init);
      var before := set i | 0 <= i < n && init[i].stats.gulagKills > 0;
      var after := set i | 0 <= i < |ms| && ms[i].stats.gulagKills > 0;
      if ms[n].stats.gulagKills > 0 {
        assert after == before + {n};
      } else {
        assert after == before;
      }
    }
  }

  /**
    The statistics of the summary row mean what their names say: the most
    kills of any match, the best counted placement and how many matches
    reached it, and gulag wins and losses that never exceed the matches.
   */
  lemma SummaryStatistics(ms: seq<MatchInput>)
    requires ms != []
    ensures var r := SummaryOf(ms);
      (forall i :: 0 <= i < |ms| ==> ms[i].stats.kills <= r.bestGameKills)
      && (r.bestGameKills == 0 || exists i :: 0 <= i < |ms| && ms[i].stats.kills == r.bestGameKills)
    ensures var r := SummaryOf(ms);
      r.bestPlacement <= NoPlacement
      && (forall i :: 0 <= i < |ms| && CountsForPlacement(ms[i].stats) ==> r.bestPlacement <= ms[i].stats.teamPlacement.value)
      && r.bestPlacementCount == PlacedCount(ms, r.bestPlacement)
    ensures var r := SummaryOf(ms); r.gulagKills + r.gulagDeaths <= |ms|
  {
    BestKillsIsMaximum(ms);
    BestPlacementIsMinimum(ms);
    BestPlacementCountCountsBest(ms);
    GulagTallyBounded(ms);
  }
}
