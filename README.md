# Match Tracker for Warzone — verified model of the app's core

A Dafny model of the core logic of a React Native app that looks up Call of
Duty: Warzone players and shows their recent matches. The model covers:

- **The on-device player store** (`app/utils/userData.js`), as module
  `UserData`. A class `PlayerStore` has three fields, one per storage key:
  - recently searched players ("recents": newest first, at most 10);
  - bookmarked players (in insertion order, at most 10);
  - a cache of fetched profile payloads (at most 5, each valid for ten minutes).

  Its methods update those fields as the source's async functions update
  storage. Pure functions specify the methods, and lemmas prove that the store
  invariant holds. The invariant: recents unique by username ignoring case;
  bookmarks unique by identity; no player in both lists.
- **The shared helpers** (`app/utils/helpers.js`), as module `Helpers`: the
  gulag result, the 12-hour clock part of `formatDate`, and `getTimePlayed`.
  `getTimePlayed` is a method that appends pieces to a text step by step and
  then trims it. It is proved against a specification that joins the non-zero
  units with blanks.
- **The profile screen's match list** (`Profile.js` `filterMatchData`), as
  module `Profile`. A loop keeps running best kills, best placement and its
  count, and gulag tallies. It then prepends a summary row.
- **The match screen's match details** (`Match.js` `filterMatchData`), as
  module `Match`. It builds a row per player sorted by kills, groups the rows
  into teams, sorts the teams by placement, and promotes the viewer's team to
  the top.
- **The home screen's search checks** (`Home.js` `onPressSearchProfile` and the
  username field's trim), as module `Home`.
- **The per-player time played** (`PlayerMatchStats.js` `getTimePlayed`), as
  module `PlayerMatchStats`.

Support modules:
- `Wrappers`: `Option`.
- `Seqs`: index search, `splice`, subsequences, a stable sort, counting.
- `Strings`: decimal digits, `lastIndexOf`, and `trim` with the whitespace and line terminators of ECMA-262.
- `Constants`: the three platforms of `app/config/constants.js`.

Two consequences of the cache code as written are proved as lemmas rather than
corrected, because the model follows the code:
- The purge loop in `cacheProfileData` splices while its index keeps
  advancing. An entry right after a removed one is therefore never examined
  (`PurgeSkipsFollower`). When that skipped entry is the player's previous
  one, it survives and shadows the freshly cached data
  (`SkippedEntryShadowsNewData`).
- The purge compares usernames case-sensitively, but lookup ignores case. An
  entry stored under another spelling of the same name, such as "FOO" for
  "foo", therefore survives the purge and shadows the freshly cached data
  (`OtherSpellingShadowsNewData`, `CaseVariantNames`).

## Model

| member | source | states |
|---|---|---|
| UserData.EqualsIgnoreCaseIsEquivalence | app/utils/userData.js:12-14 | the case-insensitive comparison is reflexive, symmetric and transitive |
| UserData.DisplayName | app/utils/userData.js:40-45 | on Battle.net the display name is the username cut just before its last '#'; otherwise, or with no '#', it is the username |
| UserData.MakeRef | app/utils/userData.js:47-51 | the stored item carries the username and platform it was made from, its name is the display name, and it identifies that player |
| UserData.IsUserBookmarked | app/utils/userData.js:89-103 | true exactly when some bookmark has the username (ignoring case) and the platform code |
| UserData.RemovedIdentity | app/utils/userData.js:121-129 | splicing out the first entry with that identity: exactly one entry fewer, the rest in order; unchanged when no entry matches |
| UserData.AddedToRecents | app/utils/userData.js:53-65 | the new item is at the head of the recents |
| UserData.RecentsList | app/utils/userData.js:172-187 | all bookmarks flagged as bookmarked, then all recents flagged as not, same order |
| UserData.LookupCached | app/utils/userData.js:208-212 | finds the first entry that matches (username ignoring case, platform code, still fresh); none exactly when no entry matches |
| UserData.Purged | app/utils/userData.js:219-228 | the purge never grows the cache |
| UserData.Capped | app/utils/userData.js:230-231 | fewer than 5 entries remain, and they are the newest suffix; a cache of 5 or more keeps exactly its newest 4; an already short cache is unchanged |
| UserData.CacheStored | app/utils/userData.js:215-238 | the cache holds 1 to 5 entries, and the last is the new one stamped with the current time |
| UserData.PlayerStore.constructor | app/utils/userData.js:24-32 | an empty store (the defaults when nothing is stored) satisfies the invariant |
| UserData.PlayerStore.AddToRecents | app/utils/userData.js:34-69 | refused exactly when bookmarked; otherwise recents become the updated list; bookmarks and cache are unchanged; the invariant is kept |
| UserData.PlayerStore.AddToBookmarks | app/utils/userData.js:105-152 | added exactly when not yet bookmarked and fewer than 10 bookmarks; the player leaves recents even when the list is full; the invariant is kept |
| UserData.PlayerStore.RemoveFromBookmarks | app/utils/userData.js:154-170 | true exactly when the player was bookmarked; that entry is removed; recents and cache are unchanged; the invariant is kept |
| UserData.PlayerStore.GetCachedProfileData | app/utils/userData.js:189-213 | with a missing argument, the whole cache; otherwise the first fresh matching entry of the cache, or a miss exactly when none matches |
| UserData.PlayerStore.CacheProfileData | app/utils/userData.js:215-248 | the cache becomes purged, capped and appended; the lists are unchanged; the invariant is kept |
| UserData.KeepRecents | app/utils/userData.js:53-63 | drops the oldest entry of a full list, then splices out the entry with the same username |
| UserData.PurgeEntries | app/utils/userData.js:219-228 | the index loop with in-place splicing computes the purge specification |
| UserData.KeepNewest | app/utils/userData.js:230-231 | the loop that drops from the front computes the cap |
| UserData.PurgeStepRemoves | app/utils/userData.js:221-227 | a splice at the current index leaves the rest of the purge unchanged from the next index |
| UserData.PurgeStepKeeps | app/utils/userData.js:221-227 | an entry that is kept leaves the rest of the purge unchanged |
| UserData.KeptMatches | app/utils/userData.js:53-63 | the pop-then-splice steps give the kept list |
| UserData.AddToRecentsKeepsValid | app/utils/userData.js:34-69 | adding a non-bookmarked player to recents keeps the store invariant |
| UserData.AddToBookmarksKeepsValid | app/utils/userData.js:105-152 | bookmarking keeps the store invariant, whether or not the bookmark list was full |
| UserData.RemovedIdentityKeepsUnique | app/utils/userData.js:121-129 | removing an entry keeps usernames unique |
| UserData.AppendedBookmarkUnique | app/utils/userData.js:144-148 | appending a player not yet bookmarked keeps bookmark identities unique |
| UserData.AppendedBookmarkDisjoint | app/utils/userData.js:120-148 | after the player leaves recents, appending them keeps the lists disjoint |
| UserData.RemoveFromBookmarksKeepsValid | app/utils/userData.js:154-170 | un-bookmarking keeps the store invariant |
| UserData.SubsequenceMembers | app/utils/userData.js:53-63 | every element of a subsequence is an element of the original |
| UserData.AddedToRecentsUnique | app/utils/userData.js:53-65 | after adding, the head is the new item, no other entry has its username, and usernames stay unique |
| UserData.PrependedUnique | app/utils/userData.js:65 | putting an item with a new username in front keeps usernames unique |
| UserData.RemoveAtKeepsUnique | app/utils/userData.js:61-63 | splicing keeps usernames unique |
| UserData.RemoveAtDropsUsername | app/utils/userData.js:57-63 | splicing out the one entry with a username leaves no entry with that username |
| UserData.AddedToRecentsBounded | app/utils/userData.js:53-65 | the list grows by at most one and never past 10 |
| UserData.AddedToRecentsKeepsOrder | app/utils/userData.js:53-65 | the older entries keep their relative order behind the new head |
| UserData.AddedToRecentsKeepsOthers | app/utils/userData.js:53-65 | an entry with a different username, not in the popped last slot, survives |
| UserData.FullRecentsLoseTailOnDuplicate | app/utils/userData.js:53-63 | on a full list, re-adding a player loses the oldest entry too, leaving 9 entries |
| UserData.ReAddingHeadOfFullRecents | app/utils/userData.js:53-65 | re-adding the newest player of a full list drops the oldest entry |
| UserData.ReAddingHeadBelowCapacity | app/utils/userData.js:53-65 | re-adding the newest player of a list that is not full changes nothing |
| UserData.RemoveUndoesAdd | app/utils/userData.js:144-164 | removing a bookmark just added gives back the old bookmarks |
| UserData.RemovedIdentityClears | app/utils/userData.js:121-129 | with unique usernames, removal leaves no entry with that identity |
| UserData.RemovedIdentityKeepsOrder | app/utils/userData.js:121-129 | removal keeps the remaining entries in order |
| UserData.BookmarkingMovesOutOfRecents | app/utils/userData.js:105-187 | after bookmarking, the combined list shows the player once, as the last bookmark |
| UserData.PurgedKeepsOrder | app/utils/userData.js:219-228 | the purge keeps the surviving entries in order |
| UserData.CacheStoredKeepsOrder | app/utils/userData.js:219-238 | the old entries that survive stay in order before the new one |
| UserData.PurgedCompleteWithoutAdjacentHits | app/utils/userData.js:219-228 | when no two adjacent entries both need purging, none survives |
| UserData.PurgeSkipsFollower | app/utils/userData.js:220-227 | with two expired entries, the one after the spliced entry is skipped and survives |
| UserData.CacheThenLookupHits | app/utils/userData.js:208-238 | with no older entry for the player, a lookup right after caching returns the new entry |
| UserData.SkippedEntryShadowsNewData | app/utils/userData.js:208-238 | an expired entry in front makes the purge skip the player's previous entry, which then shadows the new data |
| UserData.OtherSpellingShadowsNewData | app/utils/userData.js:208-238 | a fresh entry for the same player under another spelling of the name survives the purge, and the lookup returns it rather than the new data |
| UserData.CaseVariantNames | app/utils/userData.js:12-14 | "FOO" and "foo" differ but compare equal ignoring case |
| UserData.PurgedKeepsSpared | app/utils/userData.js:219-228 | every entry that is neither expired nor stored for the same username and platform survives the purge |
| UserData.CacheStoredKeepsSpared | app/utils/userData.js:215-238 | when the cache holds fewer than 5 entries, every spared entry is still cached after storing |
| UserData.RecentsKept | app/utils/userData.js:53-63 | the kept list never grows, and a full list loses at least one entry |
| UserData.PurgeHit | app/utils/userData.js:221-225 | an entry is spared exactly when it is still fresh and differs in username or platform |
| UserData.Serves | app/utils/userData.js:208-212 | a serving entry has the platform code and is fresh; a fresh entry with the exact username and the platform code serves |
| UserData.EqualsIgnoreCase | app/utils/userData.js:12-14 | equal names compare equal; names that compare equal have the same length |
| Helpers.GulagResult | app/utils/helpers.js:71-75 | 1 exactly when a gulag kill; -1 exactly when no kill but a death; 0 otherwise |
| Helpers.MonthNamesHaveThreeLetters | app/utils/helpers.js:1-14 | every month abbreviation has three letters |
| Helpers.ClockHour | app/utils/helpers.js:24-25 | the 12-hour clock hour is in 1..12 and agrees with the hour modulo 12 |
| Helpers.Meridiem | app/utils/helpers.js:22 | PM exactly from noon on |
| Helpers.ClockHourRoundTrip | app/utils/helpers.js:22-25 | the meridiem and the clock hour give back the 24-hour hour |
| Helpers.TwoDigitMinutes | app/utils/helpers.js:26 | the minutes are written as two digits that read back as the minutes |
| Helpers.ClockText | app/utils/helpers.js:22-28 | the time reads as hour digits, ':', two minute digits and AM/PM, each field decoding to its value |
| Helpers.ClockFields | app/utils/helpers.js:28 | the fields of the joined time text can be cut back out |
| Helpers.FormatDate | app/utils/helpers.js:16-29 | the date text is at least 12 characters and starts with the month abbreviation and a blank |
| Helpers.FormatDateFields | app/utils/helpers.js:16-29 | the date reads as the month abbreviation, the day in decimal, and the time, each recoverable |
| Helpers.DateFields | app/utils/helpers.js:28 | the fields of the joined date text can be cut back out |
| Helpers.ConcatEnds | app/utils/helpers.js:28 | a concatenation splits back into its three parts |
| Helpers.Component | app/utils/helpers.js:44-58 | a unit piece starts with a digit and ends with its unit letter |
| Helpers.UnitParts | app/utils/helpers.js:41-60 | every written piece is a digits-and-unit component |
| Helpers.LeadingParts | app/utils/helpers.js:41-54 | the hour and minute pieces are components |
| Helpers.TimePlayedUnits | app/utils/helpers.js:37-60 | the hours are the whole hours when included; an excluded unit is zero; with seconds included the units add up to the time |
| Helpers.UnitsText | app/utils/helpers.js:41-66 | an empty text means no unit was written and no unit is included |
| Helpers.TimePlayedText | app/utils/helpers.js:31-69 | the text is empty exactly when no unit is included |
| Helpers.TimePlayedUnitsRecompose | app/utils/helpers.js:41-60 | the units written add back up to the time played (exactly with seconds, otherwise within the dropped unit) |
| Helpers.TimePlayedCarriesIntoMinutes | app/utils/helpers.js:48-66 | minutes only: whole minutes, or "0m" under a minute |
| Helpers.TimePlayedDefault | app/utils/helpers.js:31-69 | with the default flags: "Xh Ym", "Xh", "Ym" or "0m", from the hours and the minutes left over |
| Helpers.TimePlayedSecondsOnly | app/utils/helpers.js:55-66 | seconds only: all the time in seconds |
| Helpers.JoinWithBlanksAppend | app/utils/helpers.js:44-58 | appending a piece adds one blank and the piece |
| Helpers.JoinedComponentsEnds | app/utils/helpers.js:44-58 | joined pieces start with a digit and end with a unit letter |
| Helpers.TimePlayedTextTrimmed | app/utils/helpers.js:62-68 | the result has no leading or trailing whitespace, and is empty exactly when no unit is included |
| Helpers.UnitsTextTrimmed | app/utils/helpers.js:62-68 | the same, for any split into units |
| Helpers.RawLeadingJoins | app/utils/helpers.js:41-54 | the hour and minute pieces, each followed by a blank, are the joined pieces plus one blank |
| Helpers.RawIsJoin | app/utils/helpers.js:41-60 | the untrimmed text is the pieces joined by blanks, plus one trailing blank when no seconds are written |
| Helpers.RawTimePlayedTrims | app/utils/helpers.js:62-68 | the untrimmed text is empty exactly when no piece is written; trimming gives the pieces joined by blanks |
| Helpers.TrimmedJoin | app/utils/helpers.js:68 | trimming removes just the one trailing blank |
| Helpers.GetTimePlayed | app/utils/helpers.js:31-69 | the method's text equals the specification of the time played |
| Helpers.WriteUnits | app/utils/helpers.js:37-60 | the appending steps build the untrimmed text of the units |
| Profile.MatchRecord | app/screens/Profile.js:508-529 | the row copies the match's fields; the mode is the game mode's name and the date the formatted end time; "N/A" exactly when there is no placement; gulag is the gulag result |
| Profile.SummaryOf | app/screens/Profile.js:532-543 | a summary counting all matches, whose id is the decimal text of the first match's start time |
| Profile.SummaryStatistics | app/screens/Profile.js:486-543 | the summary's best kills is at least every match's kills and is 0 or attained; its best placement is at most 99999 and every counted placement, and its count is the number of matches at it; gulag wins plus losses are at most the number of matches |
| Profile.FilterMatchData | app/screens/Profile.js:484-546 | empty for no matches; otherwise the summary followed by one row per match, in order |
| Profile.BestKills | app/screens/Profile.js:488-495 | the best kills is never negative |
| Profile.BestPlacement | app/screens/Profile.js:486-506 | the best placement is at most 99999 |
| Profile.BestPlacementCount | app/screens/Profile.js:487-505 | the count never exceeds the number of matches |
| Profile.GulagWins | app/screens/Profile.js:508-514 | the wins never exceed the number of matches |
| Profile.GulagLosses | app/screens/Profile.js:508-514 | the losses never exceed the number of matches |
| Profile.BestKillsIsMaximum | app/screens/Profile.js:488-495 | best kills is at least every match's kills, and is 0 or some match's kills |
| Profile.BestPlacementIsMinimum | app/screens/Profile.js:486-502 | best placement is at most 99999 and at most every counted placement, and is 99999 or one of them |
| Profile.PlacedCountAbsent | app/screens/Profile.js:496-506 | a placement no match has is counted zero times |
| Profile.BestPlacementCountCountsBest | app/screens/Profile.js:500-505 | the running count equals the number of matches at the best placement |
| Profile.BestPlacementCountPositive | app/screens/Profile.js:496-506 | the count is positive exactly when some counted placement is at most 99999 |
| Profile.PlacedCountHas | app/screens/Profile.js:496-506 | a placement some match has is counted |
| Profile.GulagTallyBounded | app/screens/Profile.js:513-514 | gulag wins plus losses never exceed the number of matches |
| Profile.GulagWinsCountKills | app/screens/Profile.js:508-513 | gulag wins are the number of matches with a gulag kill |
| Match.PlayerRecordOf | app/screens/Match.js:267-291 | the row copies the player's fields; it is the viewer's exactly when the uno matches; gulag is the gulag result |
| Match.Records | app/screens/Match.js:266-293 | one row per player, in order |
| Match.NewTeam | app/screens/Match.js:313-321 | a new team is named after its first player and holds only that player |
| Match.JoinTeam | app/screens/Match.js:304-311 | joining keeps the team's name and placement and appends the player |
| Match.DetailsOf | app/screens/Match.js:248-264 | the details carry the match id of the route; the date is the formatted end time, the mode the game mode's name, and the player and team counts those of the first player |
| Match.FilterMatchData | app/screens/Match.js:241-334 | fails exactly when there are no players, with status 1 and its message; otherwise the details, the rows sorted by kills, and the grouped teams sorted by placement and promoted |
| Match.BuildPlayers | app/screens/Match.js:266-298 | the loop builds one row per player |
| Match.GroupIntoTeams | app/screens/Match.js:302-323 | the loop builds the grouping |
| Match.PromoteCurrentTeam | app/screens/Match.js:326-331 | the promotion step computes the promoted team list |
| Match.AddToTeams | app/screens/Match.js:303-322 | the team list keeps its length exactly when some team has the player's team name; otherwise the new team is appended at the end |
| Match.Grouped | app/screens/Match.js:302-323 | there are never more teams than players |
| Match.Promoted | app/screens/Match.js:326-331 | either the list is unchanged, or one team is added on top, flagged and placed below first |
| Match.MembersOfAbsentTeam | app/screens/Match.js:302-323 | a team name no player has has no members |
| Match.AppendedSums | app/screens/Match.js:306-308 | adding a player adds their kills, deaths and damage to the totals |
| Match.JoinKeepsTeam | app/screens/Match.js:304-311 | joining a player to their team keeps the team equal to its members and their totals |
| Match.OtherPlayerKeepsTeam | app/screens/Match.js:302-323 | a player of another team leaves a team unchanged and still correct |
| Match.NewTeamIsTeam | app/screens/Match.js:312-321 | a team opened for a first player of that name is correct |
| Match.AddToTeamsKeepsPartition | app/screens/Match.js:302-323 | one grouping step keeps teams distinct, correct and covering every player |
| Match.JoinedTeamPartition | app/screens/Match.js:304-311 | the same, when the player joins an existing team |
| Match.OtherTeamsKept | app/screens/Match.js:304-311 | joining one team leaves the other teams correct |
| Match.OpenedTeamPartition | app/screens/Match.js:312-321 | the same, when a team is opened |
| Match.NewIdIsNewPlayer | app/screens/Match.js:303 | when no team has the name, no earlier player had it |
| Match.CoversStep | app/screens/Match.js:302-323 | every player so far is covered after the step |
| Match.GroupedIsPartition | app/screens/Match.js:302-323 | the teams have distinct names; each is exactly its members in order, with the sums of their stats, the placement of its first member, and the flag set exactly when it holds the viewer; every player has a team |
| Match.MembersAreOnTheTeam | app/screens/Match.js:303-305 | every member of a team is a player on that team |
| Match.MemberOfOwnTeam | app/screens/Match.js:303-305 | every player is a member of their own team |
| Match.PlayerInExactlyOneTeam | app/screens/Match.js:302-323 | every player appears in exactly one team |
| Match.MembersKeepOrder | app/screens/Match.js:300-305 | grouping rows sorted by kills gives teams whose players are sorted by kills |
| Match.PromotionMovesFlag | app/screens/Match.js:326-331 | promotion keeps the number of flagged teams; when the first flagged team did not place first, a copy goes on top and the original keeps its place, equal to itself with the flag cleared; otherwise nothing changes |
| Match.LoadedTeams | app/screens/Match.js:300-325 | the teams are sorted by placement, are a permutation of the grouping, and each is correct with players sorted by kills |
| Match.RecordsKeepViewerCount | app/screens/Match.js:266-267 | there are as many viewer rows as players with the viewer's uno |
| Match.AddToTeamsFlags | app/screens/Match.js:302-323 | a grouping step adds a flagged team exactly when it adds the viewer, if none was flagged yet |
| Match.GroupedFlagsViewer | app/screens/Match.js:302-323 | with at most one viewer row, the number of flagged teams equals the number of viewer rows |
| Match.OneViewerOneFlaggedTeam | app/screens/Match.js:266-331 | when exactly one player is the viewer, exactly one team of the result is flagged |
| Home.OnChangeUsername | app/screens/Home.js:308 | the stored username is the typed text with only whitespace cut from its two ends, and has no leading or trailing whitespace; whitespace alone becomes empty |
| Home.IsBattleTag | app/screens/Home.js:122-134 | a BattleTag contains a '#' and has at least two characters |
| Home.OnPressSearchProfile | app/screens/Home.js:115-142 | each check in order gives its message; the search proceeds exactly when a platform is chosen, the username is non-empty and, on Battle.net, a BattleTag; it proceeds with that username and platform |
| Home.BattleTagCheck | app/screens/Home.js:123-134 | checking the text after the last '#' decides exactly whether the username has a '#' followed by a non-empty numeric tag |
| Home.BattleTagParts | app/screens/Home.js:123-131 | a BattleTag splits at its last '#' into a name and a numeric tag |
| Home.OnChangeUsernameIdempotent | app/screens/Home.js:308 | trimming again changes nothing |
| Home.BlankUsernameRejected | app/screens/Home.js:119-121 | typing only blanks and searching asks for a username |
| PlayerMatchStats.MatchTimePlayed | app/screens/PlayerMatchStats.js:29-41 | the text starts with a digit and ends in 'm' exactly on whole minutes, else 's' |
| PlayerMatchStats.MatchTimePlayedIsMinutesAndSeconds | app/screens/PlayerMatchStats.js:29-41 | for a positive time, the same text as the shared helper with minutes and seconds; at zero it says "0m" where the helper says "0s" |
| PlayerMatchStats.MinutesAndSecondsText | app/utils/helpers.js:48-68 | the helper with minutes and seconds gives "Ym Zs", "Ym", "Zs" or "0s" |
| PlayerMatchStats.BothUnitsText | app/utils/helpers.js:48-68 | with both units non-zero, the helper gives "Ym Zs" |
| Strings.NatToString | app/screens/Profile.js:535 | the decimal text of a non-negative number (as `toString` writes it) is a non-empty run of digits, starting with '0' only for zero |
| Strings.NatToStringRoundTrip | app/screens/Profile.js:535 | the decimal text of a number reads back as that number |
| Strings.NatToStringInjective | app/screens/Profile.js:535 | different numbers have different decimal texts |
| Strings.LastIndexOf | app/screens/Home.js:123 | -1 exactly when the character is absent; otherwise its last position |
| Strings.Trim | app/screens/Home.js:308 | with `IsWhitespace` the WhiteSpace and LineTerminator characters of ECMA-262 that `trim` strips, the result is the text with only whitespace cut from its two ends, and has no leading or trailing whitespace; whitespace alone becomes empty; text already without it is unchanged |
| Strings.TrimmedIsInfix | app/screens/Home.js:308 | cutting whitespace from the front and then the back leaves an infix of the text with only whitespace outside it |
| Strings.TrimDropsTrailingBlank | app/utils/helpers.js:68 | trimming a trailing blank gives back the text |
| Seqs.IndexWhere | app/utils/userData.js:58-60 | -1 exactly when no element matches; otherwise the first match |
| Seqs.RemoveAt | app/utils/userData.js:62 | `splice(i, 1)`: one element fewer, the others in order |
| Seqs.SortBy | app/screens/Match.js:300 | the result is sorted by the key and a permutation of the input |
| Seqs.CountWherePermutation | app/screens/Match.js:300-325 | reordering keeps the number of elements that satisfy a test |
| Seqs.CountWhereUpdate | app/screens/Match.js:330 | replacing one element changes the count by what it adds and removes |
| Seqs.CountWherePrepend | app/screens/Match.js:329 | putting an element in front adds it to the count |

## Left out

- Device storage (`AsyncStorage`), JSON encoding and the storage error paths are not modelled. Each storage key is a field of `PlayerStore`, and a read that fails is the empty list.
- Storage writes that are not awaited (`setRecents` in `addToBookmarks`, `setBookmarks` in `removeFromBookmarks`) are modelled as taking effect at once. Interleaving with other calls is not modelled.
- `Date.now()`, and the date decomposition and time zone inside `formatDate`, become parameters. `FormatDate` takes the month, day, hour and minute.
- The game-mode lookup (`API.getGameMode`) and `formatDate` are passed to the screen functions as the parameters `gameMode` and `dateOf`.
- The network calls and React state of the screens are not modelled. Navigation is the `Navigate` outcome, and the snackbar text is the `Rejected` message.
- The module-level `activisionUsername` that the match screen sets is left out, because it is a write to a global and not part of the result.
- UserData.EqualsIgnoreCase: `localeCompare` with accent sensitivity is approximated by ASCII case folding. The lemmas about the store use only that the comparison is an equivalence (`EqualsIgnoreCaseIsEquivalence`); only `CaseVariantNames` looks at the folding itself.
- Home.OnPressSearchProfile: `isNaN` on the tag is approximated by "every character is an ASCII digit". JavaScript also accepts tags such as "-5", "1e3", "0x1F" or " 12", which the model rejects.
- The platform check in `onPressSearchProfile` compares objects by identity; the model compares platform values.
- Match.PlayerRecordOf: the placement is an integer. A missing placement ("N/A") is not modelled, because sorting with a comparator that returns NaN is engine-dependent.
- Profile.MatchRecord: a placement that is not an integer (`Number.isInteger` false) is not modelled. Placements are `Option<int>`, and a zero placement is kept but not counted.
- Profile.SummaryOf: start times are natural numbers, so the decimal text of a negative start time is not modelled.
- The extra player statistics copied into each row (headshots, assists, damage taken, movement, score, experience) are not modelled.
- `Array.prototype.sort` is modelled as a stable insertion sort (`Seqs.SortBy`), since the language requires the sort to be stable.
- Team objects mutated in place, and the shallow copy made on promotion, are modelled on values.
- Each loop of the source is a method with a `while` loop, proved against its specification function: `PurgeEntries`, `KeepNewest`, `BuildPlayers`, `GroupIntoTeams` and `Profile.FilterMatchData`. The straight-line steps `WriteUnits` (the three `if` blocks that append the units), `KeepRecents` (drop the oldest entry, then splice) and `PromoteCurrentTeam` (put a copy on top, then clear the original's flag) are methods too, each proved against its function.
- Negative times played are not modelled: `Helpers.GetTimePlayed`, `Helpers.WriteUnits`, `Helpers.TimePlayedUnits` and `PlayerMatchStats.MatchTimePlayed` take a natural number, while JavaScript would accept a negative time and fall back to a zero text ("0m" with the default flags). The callers pass only non-negative durations.
