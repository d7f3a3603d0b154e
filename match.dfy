/**
  The match screen's data: every player of one match turned into a row,
  the rows ordered by kills, grouped into teams that carry their totals,
  the teams ordered by placement, and the viewer's team repeated at the
  top when it did not win.
 */
module Match {
  import opened Seqs
  import opened Helpers

  datatype PlayerInput = PlayerInput(
    uno: string,
    username: string,
    team: string,
    placement: int,
    kills: int,
    deaths: int,
    damageDone: int,
    gulagKills: int,
    gulagDeaths: int,
    timePlayed: nat,
    mode: string,
    utcEndSeconds: int,
    playerCount: int,
    teamCount: int)

  datatype PlayerRecord = PlayerRecord(
    uno: string,
    isCurrentPlayer: bool,
    username: string,
    team: string,
    placement: int,
    kills: int,
    deaths: int,
    damage: int,
    gulag: int,
    timePlayed: nat)

  datatype Team = Team(
    team: string,
    placement: int,
    kills: int,
    deaths: int,
    damage: int,
    players: seq<PlayerRecord>,
    isCurrentTeam: bool)

  datatype MatchDetails = MatchDetails(matchID: string, date: string, mode: string, playerCount: int, teamCount: int)

  datatype MatchOutcome =
    | Failed(errorStatus: int, errorMessage: string)
    | Loaded(details: MatchDetails, players: seq<PlayerRecord>, teams: seq<Team>)

  const NotLoadedStatus := 1
  const NotLoadedMessage := "Match not loaded properly."

  // ---------------------------------------------------------------------------
  // Players

  /** A player's row; `uno` is the account the screen was opened for. */
  function PlayerRecordOf(p: PlayerInput, uno: string): (r: PlayerRecord)
    ensures r.isCurrentPlayer <==> p.uno == uno
    ensures r.uno == p.uno && r.username == p.username && r.team == p.team && r.placement == p.placement
    ensures r.kills == p.kills && r.deaths == p.deaths && r.damage == p.damageDone && r.timePlayed == p.timePlayed
    ensures r.gulag == GulagResult(p.gulagKills, p.gulagDeaths)
  {
    PlayerRecord(
      p.uno, p.uno == uno, p.username, p.team, p.placement,
      p.kills, p.deaths, p.damageDone, GulagResult(p.gulagKills, p.gulagDeaths), p.timePlayed)
  }

  function Records(ps: seq<PlayerInput>, uno: string): (r: seq<PlayerRecord>)
    ensures |r| == |ps| && forall i :: 0 <= i < |ps| ==> r[i] == PlayerRecordOf(ps[i], uno)
  {
    seq(|ps|, i requires 0 <= i < |ps| => PlayerRecordOf(ps[i], uno))
  }

  /** The comparator `b.kills - a.kills`: most kills first. */
  function KillsKey(p: PlayerRecord): int
  {
    -p.kills
  }

  /** The comparator `a.placement - b.placement`: best placement first. */
  function PlacementKey(t: Team): int
  {
    t.placement
  }

  // ---------------------------------------------------------------------------
  // Teams

  function NewTeam(p: PlayerRecord): (t: Team)
    ensures t.team == p.team && t.players == [p]
  {
    Team(p.team, p.placement, p.kills, p.deaths, p.damage, [p], p.isCurrentPlayer)
  }

  function JoinTeam(t: Team, p: PlayerRecord): (r: Team)
    ensures r.team == t.team && r.placement == t.placement && r.players == t.players + [p]
  {
    t.(players := t.players + [p],
       kills := t.kills + p.kills,
       deaths := t.deaths + p.deaths,
       damage := t.damage + p.damage,
       isCurrentTeam := t.isCurrentTeam || p.isCurrentPlayer)
  }

  function TeamTest(team: string): Team -> bool
  {
    (t: Team) => t.team == team
  }

  /** One step of the grouping loop: join the player's team, or open a team for it at the end. */
  function AddToTeams(teams: seq<Team>, p: PlayerRecord): (r: seq<Team>)
    ensures |r| == |teams| <==> exists i :: 0 <= i < |teams| && teams[i].team == p.team
    ensures |r| != |teams| ==> |r| == |teams| + 1 && r[|teams|] == NewTeam(p)
  {
    var k := IndexWhere(teams, TeamTest(p.team));
    if k >= 0 then teams[k := JoinTeam(teams[k], p)] else teams + [NewTeam(p)]
  }

  function Grouped(ps: seq<PlayerRecord>): (r: seq<Team>)
    ensures |r| <= |ps|
    decreases |ps|
  {
    if ps == [] then [] else AddToTeams(Grouped(ps[..|ps| - 1]), ps[|ps| - 1])
  }

  function CurrentTeamTest(): Team -> bool
  {
    (t: Team) => t.isCurrentTeam
  }

  /**
    The first flagged team, when it did not place first, is repeated at the
    top; the original keeps its place with the flag cleared.
   */
  function Promoted(teams: seq<Team>): (r: seq<Team>)
    ensures |r| == |teams| ==> r == teams
    ensures |r| != |teams| ==> |r| == |teams| + 1 && r[0].isCurrentTeam && r[0].placement > 1
  {
    var k := IndexWhere(teams, CurrentTeamTest());
    if k >= 0 && teams[k].placement > 1 then [teams[k]] + teams[k := teams[k].(isCurrentTeam := false)]
    else teams
  }

  function DetailsOf(matchID: string, first: PlayerInput, gameMode: string -> string, dateOf: int -> string): (d: MatchDetails)
    ensures d.matchID == matchID && d.playerCount == first.playerCount && d.teamCount == first.teamCount
    ensures d.date == dateOf(first.utcEndSeconds) && d.mode == gameMode(first.mode)
  {
    MatchDetails(matchID, dateOf(first.utcEndSeconds), gameMode(first.mode), first.playerCount, first.teamCount)
  }

  // ---------------------------------------------------------------------------
  // The screen's `filterMatchData`

  /**
    `filterMatchData`: an error when the match has no players; otherwise
    the details taken from the first player, the rows ordered by kills, and
    the teams ordered by placement with the viewer's team promoted.
   */
  method FilterMatchData(
    allPlayers: seq<PlayerInput>, matchID: string, uno: string,
    gameMode: string -> string, dateOf: int -> string)
    returns (outcome: MatchOutcome)
    ensures allPlayers == [] <==> outcome.Failed?
    ensures allPlayers == [] ==> outcome == Failed(NotLoadedStatus, NotLoadedMessage)
    ensures allPlayers != [] ==>
      && outcome.details == DetailsOf(matchID, allPlayers[0], gameMode, dateOf)
      && outcome.players == SortBy(Records(allPlayers, uno), KillsKey)
      && outcome.teams == Promoted(SortBy(Grouped(outcome.players), PlacementKey))
  {
    if |allPlayers| == 0 {
      return Failed(NotLoadedStatus, NotLoadedMessage);
    }
    var details := DetailsOf(matchID, allPlayers[0], gameMode, dateOf);
    var players := BuildPlayers(allPlayers, uno);
    players := SortBy(players, KillsKey);
    var teams := GroupIntoTeams(players);
    teams := SortBy(teams, PlacementKey);
    teams := PromoteCurrentTeam(teams);
    outcome := Loaded(details, players, teams);
  }

  /** The player loop: a row per player, in order. */
  method BuildPlayers(allPlayers: seq<PlayerInput>, uno: string) returns (players: seq<PlayerRecord>)
    ensures players == Records(allPlayers, uno)
  {
    players := [];
    var i := 0;
    while i < |allPlayers|
      invariant 0 <= i <= |allPlayers|
      invariant |players| == i
      invariant forall k :: 0 <= k < i ==> players[k] == PlayerRecordOf(allPlayers[k], uno)
    {
      players := players + [PlayerRecordOf(allPlayers[i], uno)];
      i := i + 1;
    }
    assert players == Records(allPlayers, uno);
  }

  /** The grouping loop over the rows, in their current order. */
  method GroupIntoTeams(players: seq<PlayerRecord>) returns (teams: seq<Team>)
    ensures teams == Grouped(players)
  {
    teams := [];
    var i := 0;
    while i < |players|
      invariant 0 <= i <= |players|
      invariant teams == Grouped(players[..i])
    {
      var player := players[i];
      assert players[..i + 1][..i] == players[..i];
      var k := IndexWhere(teams, TeamTest(player.team));
      if k >= 0 {
        teams := teams[k := JoinTeam(teams[k], player)];
      } else {
        teams := teams + [NewTeam(player)];
      }
      i := i + 1;
    }
    assert players[..i] == players;
  }

  method PromoteCurrentTeam(teams: seq<Team>) returns (result: seq<Team>)
    ensures result == Promoted(teams)
  {
    result := teams;
    var k := IndexWhere(teams, CurrentTeamTest());
    if k >= 0 && teams[k].placement > 1 {
      var copy := teams[k];
      result := [copy] + teams[k := teams[k].(isCurrentTeam := false)];
    }
  }

  // ---------------------------------------------------------------------------
  // What the teams mean

  /** The players of `ps` on team `team`, in order. */
  function Members(ps: seq<PlayerRecord>, team: string): seq<PlayerRecord>
    decreases |ps|
  {
    if ps == [] then []
    else Members(ps[..|ps| - 1], team) + if ps[|ps| - 1].team == team then [ps[|ps| - 1]] else []
  }

  function SumKills(ps: seq<PlayerRecord>): int
    decreases |ps|
  {
    if ps == [] then 0 else SumKills(ps[..|ps| - 1]) + ps[|ps| - 1].kills
  }

  function SumDeaths(ps: seq<PlayerRecord>): int
    decreases |ps|
  {
    if ps == [] then 0 else SumDeaths(ps[..|ps| - 1]) + ps[|ps| - 1].deaths
  }

  function SumDamage(ps: seq<PlayerRecord>): int
    decreases |ps|
  {
    if ps == [] then 0 else SumDamage(ps[..|ps| - 1]) + ps[|ps| - 1].damage
  }

  /**
    A team of `ps` as the screen shows it: exactly the players on it, in
    their order; the placement of its first player; the sums of kills,
    deaths and damage; flagged exactly when it holds the viewer.
   */
  ghost predicate TeamOf(ps: seq<PlayerRecord>, t: Team)
  {
    && t.players == Members(ps, t.team)
    && t.players != []
    && t.placement == t.players[0].placement
    && t.kills == SumKills(t.players)
    && t.deaths == SumDeaths(t.players)
    && t.damage == SumDamage(t.players)
    && (t.isCurrentTeam <==> exists k :: 0 <= k < |t.players| && t.players[k].isCurrentPlayer)
  }

  ghost predicate DistinctTeams(teams: seq<Team>)
  {
    forall i, j :: 0 <= i < j < |teams| ==> teams[i].team != teams[j].team
  }

  ghost predicate Covers(ps: seq<PlayerRecord>, teams: seq<Team>)
  {
    forall k :: 0 <= k < |ps| ==> exists i :: 0 <= i < |teams| && teams[i].team == ps[k].team
  }

  ghost predicate Partition(ps: seq<PlayerRecord>, teams: seq<Team>)
  {
    DistinctTeams(teams) && Covers(ps, teams) && forall i :: 0 <= i < |teams| ==> TeamOf(ps, teams[i])
  }

  lemma {:induction false} MembersOfAbsentTeam(ps: seq<PlayerRecord>, team: string)
    requires forall k :: 0 <= k < |ps| ==> ps[k].team != team
    ensures Members(ps, team) == []
    decreases |ps|
  {
    if ps != [] {
      MembersOfAbsentTeam(ps[..|ps| - 1], team);
    }
  }

  lemma AppendedSums(ps: seq<PlayerRecord>, p: PlayerRecord)
    ensures SumKills(ps + [p]) == SumKills(ps) + p.kills
    ensures SumDeaths(ps + [p]) == SumDeaths(ps) + p.deaths
    ensures SumDamage(ps + [p]) == SumDamage(ps) + p.damage
  {
    assert (ps + [p])[..|ps|] == ps;
  }

  /** Joining the last player of `ps` keeps its team well formed. */
  lemma JoinKeepsTeam(ps: seq<PlayerRecord>, t: Team)
    requires ps != [] && TeamOf(ps[..|ps| - 1], t) && ps[|ps| - 1].team == t.team
    ensures TeamOf(ps, JoinTeam(t, ps[|ps| - 1]))
  {
    var p := ps[|ps| - 1];
    AppendedSums(t.players, p);
    var r := JoinTeam(t, p);
    if p.isCurrentPlayer {
      assert r.players[|t.players|] == p;
    }
    if t.isCurrentTeam {
      var k :| 0 <= k < |t.players| && t.players[k].isCurrentPlayer;
      assert r.players[k] == t.players[k];
    }
  }

  /** A last player of another team leaves a team untouched. */
  lemma OtherPlayerKeepsTeam(ps: seq<PlayerRecord>, t: Team)
    requires ps != [] && TeamOf(ps[..|ps| - 1], t) && ps[|ps| - 1].team != t.team
    ensures TeamOf(ps, t)
  {
  }

  lemma NewTeamIsTeam(ps: seq<PlayerRecord>)
    requires ps != []
    requires forall k :: 0 <= k < |ps| - 1 ==> ps[k].team != ps[|ps| - 1].team
    ensures TeamOf(ps, NewTeam(ps[|ps| - 1]))
  {
    var init, p := ps[..|ps| - 1], ps[|ps| - 1];
    forall k | 0 <= k < |init|
      ensures init[k].team != p.team
    {
      assert init[k] == ps[k];
    }
    MembersOfAbsentTeam(init, p.team);
    assert Members(ps, p.team) == [p];
    assert [p][..0] == [];
    var t := NewTeam(p);
    if p.isCurrentPlayer {
      assert t.players[0].isCurrentPlayer;
    }
    assert t.players == Members(ps, t.team);
    assert t.kills == SumKills(t.players);
    assert t.deaths == SumDeaths(t.players);
    assert t.damage == SumDamage(t.players);
    assert t.placement == t.players[0].placement;
  }

  /** One grouping step keeps the teams a partition of the players seen. */
  lemma AddToTeamsKeepsPartition(ps: seq<PlayerRecord>, teams: seq<Team>)
    requires ps != [] && Partition(ps[..|ps| - 1], teams)
    ensures Partition(ps, AddToTeams(teams, ps[|ps| - 1]))
  {
    var k := IndexWhere(teams, TeamTest(ps[|ps| - 1].team));
    if k >= 0 {
      JoinedTeamPartition(ps, teams, k);
    } else {
      OpenedTeamPartition(ps, teams);
    }
  }

  /** The last player's team exists at `k`: it grows and the others stay as they were. */
  lemma JoinedTeamPartition(ps: seq<PlayerRecord>, teams: seq<Team>, k: int)
    requires ps != [] && Partition(ps[..|ps| - 1], teams)
    requires 0 <= k < |teams| && teams[k].team == ps[|ps| - 1].team
    ensures Partition(ps, teams[k := JoinTeam(teams[k], ps[|ps| - 1])])
  {
    var p := ps[|ps| - 1];
    var r := teams[k := JoinTeam(teams[k], p)];
    OtherTeamsKept(ps, teams, k);
    JoinKeepsTeam(ps, teams[k]);
    assert forall i :: 0 <= i < |r| ==> r[i].team == teams[i].team;
    assert forall i :: 0 <= i < |r| ==> TeamOf(ps, r[i]);
    CoversStep(ps, teams, r, k);
  }

  /** The teams other than the last player's are still teams of all the players. */
  lemma OtherTeamsKept(ps: seq<PlayerRecord>, teams: seq<Team>, k: int)
    requires ps != [] && DistinctTeams(teams)
    requires forall i :: 0 <= i < |teams| ==> TeamOf(ps[..|ps| - 1], teams[i])
    requires 0 <= k < |teams| && teams[k].team == ps[|ps| - 1].team
    ensures forall i :: 0 <= i < |teams| && i != k ==> TeamOf(ps, teams[i])
  {
    forall i | 0 <= i < |teams| && i != k
      ensures TeamOf(ps, teams[i])
    {
      assert teams[i].team != teams[k].team;
      OtherPlayerKeepsTeam(ps, teams[i]);
    }
  }

  /** No team has the last player's id: a new team is opened at the end. */
  lemma OpenedTeamPartition(ps: seq<PlayerRecord>, teams: seq<Team>)
    requires ps != [] && Partition(ps[..|ps| - 1], teams)
    requires forall i :: 0 <= i < |teams| ==> !TeamTest(ps[|ps| - 1].team)(teams[i])
    ensures Partition(ps, teams + [NewTeam(ps[|ps| - 1])])
  {
    var p := ps[|ps| - 1];
    var r := teams + [NewTeam(p)];
    forall i | 0 <= i < |teams|
      ensures teams[i].team != p.team
    {
      assert !TeamTest(p.team)(teams[i]);
    }
    NewIdIsNewPlayer(ps, teams);
    NewTeamIsTeam(ps);
    forall i | 0 <= i < |teams|
      ensures TeamOf(ps, teams[i])
    {
      OtherPlayerKeepsTeam(ps, teams[i]);
    }
    CoversStep(ps, teams, r, |teams|);
  }

  /** A team id no team has yet is not the id of any player grouped before. */
  lemma NewIdIsNewPlayer(ps: seq<PlayerRecord>, teams: seq<Team>)
    requires ps != [] && Covers(ps[..|ps| - 1], teams)
    requires forall i :: 0 <= i < |teams| ==> teams[i].team != ps[|ps| - 1].team
    ensures forall j :: 0 <= j < |ps| - 1 ==> ps[j].team != ps[|ps| - 1].team
  {
    var init := ps[..|ps| - 1];
    forall j | 0 <= j < |ps| - 1
      ensures ps[j].team != ps[|ps| - 1].team
    {
      assert ps[j] == init[j];
      var i :| 0 <= i < |teams| && teams[i].team == init[j].team;
    }
  }

  /** Teams that keep the old ids, plus one with the last player's id, cover all players. */
  lemma CoversStep(ps: seq<PlayerRecord>, teams: seq<Team>, r: seq<Team>, last: int)
    requires ps != [] && Covers(ps[..|ps| - 1], teams)
    requires |teams| <= |r| && forall i :: 0 <= i < |teams| ==> r[i].team == teams[i].team
    requires 0 <= last < |r| && r[last].team == ps[|ps| - 1].team
    ensures Covers(ps, r)
  {
    var init := ps[..|ps| - 1];
    forall j | 0 <= j < |ps|
      ensures exists i :: 0 <= i < |r| && r[i].team == ps[j].team
    {
      if j < |init| {
        assert ps[j] == init[j];
        var i :| 0 <= i < |teams| && teams[i].team == init[j].team;
        assert r[i].team == ps[j].team;
      } else {
        assert r[last].team == ps[j].team;
      }
    }
  }

  /**
    The grouping partitions the players: one team per team id, every
    player's team present, and every team exactly its members with their
    totals, its first member's placement and the viewer's flag.
   */
  lemma {:induction false} GroupedIsPartition(ps: seq<PlayerRecord>)
    ensures Partition(ps, Grouped(ps))
    decreases |ps|
  {
    if ps != [] {
      GroupedIsPartition(ps[..|ps| - 1]);
      AddToTeamsKeepsPartition(ps, Grouped(ps[..|ps| - 1]));
    }
  }

  lemma {:induction false} MembersAreOnTheTeam(ps: seq<PlayerRecord>, team: string)
    ensures forall q :: q in Members(ps, team) ==> q in ps && q.team == team
    decreases |ps|
  {
    if ps != [] {
      MembersAreOnTheTeam(ps[..|ps| - 1], team);
      assert forall q :: q in ps[..|ps| - 1] ==> q in ps;
    }
  }

  lemma {:induction false} MemberOfOwnTeam(ps: seq<PlayerRecord>, k: int)
    requires 0 <= k < |ps|
    ensures ps[k] in Members(ps, ps[k].team)
    decreases |ps|
  {
    if k < |ps| - 1 {
      var init := ps[..|ps| - 1];
      assert init[k] == ps[k];
      MemberOfOwnTeam(init, k);
    }
  }

  /** Every player is listed in exactly one team. */
  lemma PlayerInExactlyOneTeam(ps: seq<PlayerRecord>, k: int)
    requires 0 <= k < |ps|
    ensures exists i :: 0 <= i < |Grouped(ps)| && ps[k] in Grouped(ps)[i].players
    ensures forall i, j :: 0 <= i < j < |Grouped(ps)| ==>
      !(ps[k] in Grouped(ps)[i].players && ps[k] in Grouped(ps)[j].players)
  {
    var g := Grouped(ps);
    GroupedIsPartition(ps);
    assert Covers(ps, g);
    var i :| 0 <= i < |g| && g[i].team == ps[k].team;
    MemberOfOwnTeam(ps, k);
    assert TeamOf(ps, g[i]);
    assert ps[k] in g[i].players;
    forall a, b | 0 <= a < b < |g|
      ensures !(ps[k] in g[a].players && ps[k] in g[b].players)
    {
      assert DistinctTeams(g) && TeamOf(ps, g[a]) && TeamOf(ps, g[b]);
      MembersAreOnTheTeam(ps, g[a].team);
      MembersAreOnTheTeam(ps, g[b].team);
    }
  }

  /** With the rows ordered by kills, each team lists its players most kills first, so its placement is its top killer's. */
  lemma {:induction false} MembersKeepOrder(ps: seq<PlayerRecord>, team: string)
    requires SortedBy(ps, KillsKey)
    ensures SortedBy(Members(ps, team), KillsKey)
    decreases |ps|
  {
    if ps != [] {
      var init := ps[..|ps| - 1];
      MembersKeepOrder(init, team);
      MembersAreOnTheTeam(init, team);
      var m := Members(init, team);
      forall q | q in m
        ensures KillsKey(q) <= KillsKey(ps[|ps| - 1])
      {
        var j :| 0 <= j < |init| && init[j] == q;
        assert ps[j] == q;
      }
    }
  }

  /**
    Promotion adds the flagged team's copy at the top when it did not place
    first, keeps every team in place, and moves the flag to the copy: the
    number of flagged teams does not change.
   */
  lemma PromotionMovesFlag(teams: seq<Team>)
    ensures CountWhere(Promoted(teams), CurrentTeamTest()) == CountWhere(teams, CurrentTeamTest())
    ensures var k := IndexWhere(teams, CurrentTeamTest());
      if k >= 0 && teams[k].placement > 1 then
        && |Promoted(teams)| == |teams| + 1
        && Promoted(teams)[0] == teams[k]
        && Promoted(teams)[k + 1] == teams[k].(isCurrentTeam := false)
        && forall i :: 0 <= i < |teams| && i != k ==> Promoted(teams)[i + 1] == teams[i]
      else Promoted(teams) == teams
  {
    var k := IndexWhere(teams, CurrentTeamTest());
    if k >= 0 && teams[k].placement > 1 {
      var cleared := teams[k := teams[k].(isCurrentTeam := false)];
      CountWhereUpdate(teams, k, teams[k].(isCurrentTeam := false), CurrentTeamTest());
      CountWherePrepend(teams[k], cleared, CurrentTeamTest());
    }
  }

  /**
    The loaded match's teams, before promotion, are ordered by placement
    and each is a well-formed team of the kill-ordered rows whose own
    players are ordered by kills.
   */
  lemma LoadedTeams(allPlayers: seq<PlayerInput>, uno: string)
    ensures var players := SortBy(Records(allPlayers, uno), KillsKey);
      var teams := SortBy(Grouped(players), PlacementKey);
      && SortedBy(teams, PlacementKey)
      && multiset(teams) == multiset(Grouped(players))
      && forall i :: 0 <= i < |teams| ==> TeamOf(players, teams[i]) && SortedBy(teams[i].players, KillsKey)
  {
    var players := SortBy(Records(allPlayers, uno), KillsKey);
    var g := Grouped(players);
    var teams := SortBy(g, PlacementKey);
    GroupedIsPartition(players);
    forall i | 0 <= i < |teams|
      ensures TeamOf(players, teams[i]) && SortedBy(teams[i].players, KillsKey)
    {
      assert teams[i] in multiset(g);
      var j :| 0 <= j < |g| && g[j] == teams[i];
      MembersKeepOrder(players, g[j].team);
    }
  }

  function UnoTest(uno: string): PlayerInput -> bool
  {
    (p: PlayerInput) => p.uno == uno
  }

  function IsCurrentTest(): PlayerRecord -> bool
  {
    (p: PlayerRecord) => p.isCurrentPlayer
  }

  lemma {:induction false} RecordsKeepViewerCount(ps: seq<PlayerInput>, uno: string)
    ensures CountWhere(Records(ps, uno), IsCurrentTest()) == CountWhere(ps, UnoTest(uno))
    decreases |ps|
  {
    if ps != [] {
      var n := |ps| - 1;
      assert Records(ps, uno)[..n] == Records(ps[..n], uno);
      RecordsKeepViewerCount(ps[..n], uno);
    }
  }

  /** One grouping step adds a flag exactly when it adds the viewer, provided no team was flagged before. */
  lemma AddToTeamsFlags(g: seq<Team>, p: PlayerRecord)
    requires p.isCurrentPlayer ==> CountWhere(g, CurrentTeamTest()) == 0
    ensures CountWhere(AddToTeams(g, p), CurrentTeamTest()) ==
      CountWhere(g, CurrentTeamTest()) + if p.isCurrentPlayer then 1 else 0
  {
    var k := IndexWhere(g, TeamTest(p.team));
    if k >= 0 {
      CountWhereUpdate(g, k, JoinTeam(g[k], p), CurrentTeamTest());
      if p.isCurrentPlayer {
        CountWhereNone(g, CurrentTeamTest(), k);
      }
    } else {
      assert (g + [NewTeam(p)])[..|g|] == g;
    }
  }

  /** With at most one viewer row, the grouping flags as many teams as there are viewer rows. */
  lemma {:induction false} GroupedFlagsViewer(ps: seq<PlayerRecord>)
    requires CountWhere(ps, IsCurrentTest()) <= 1
    ensures CountWhere(Grouped(ps), CurrentTeamTest()) == CountWhere(ps, IsCurrentTest())
    decreases |ps|
  {
    if ps != [] {
      var init, p := ps[..|ps| - 1], ps[|ps| - 1];
      assert CountWhere(ps, IsCurrentTest()) == CountWhere(init, IsCurrentTest()) + if p.isCurrentPlayer then 1 else 0;
      GroupedFlagsViewer(init);
      assert Grouped(ps) == AddToTeams(Grouped(init), p);
      AddToTeamsFlags(Grouped(init), p);
    }
  }

  /**
    When exactly one player of the match is the viewer, exactly one team of
    the loaded match is flagged, whether or not it was promoted.
   */
  lemma OneViewerOneFlaggedTeam(allPlayers: seq<PlayerInput>, uno: string)
    requires CountWhere(allPlayers, UnoTest(uno)) == 1
    ensures var players := SortBy(Records(allPlayers, uno), KillsKey);
      CountWhere(Promoted(SortBy(Grouped(players), PlacementKey)), CurrentTeamTest()) == 1
  {
    var records := Records(allPlayers, uno);
    var players := SortBy(records, KillsKey);
    var g := Grouped(players);
    var teams := SortBy(g, PlacementKey);
    RecordsKeepViewerCount(allPlayers, uno);
    CountWherePermutation(players, records, IsCurrentTest());
    GroupedFlagsViewer(players);
    CountWherePermutation(teams, g, CurrentTeamTest());
    PromotionMovesFlag(teams);
  }
}
