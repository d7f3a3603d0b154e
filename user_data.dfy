/**
  The on-device player lists: recently searched players ("recents", newest
  first, at most 10), pinned players ("bookmarks", in insertion order, at most
  10) and a short-lived cache of fetched profile payloads (at most 5 entries,
  each valid for ten minutes).

  The three device-storage keys are the three fields of `PlayerStore`; a read
  of a key is a read of its field and a write is an assignment to it. The
  current time (`Date.now()`) is a parameter.
 */
module UserData {
  import opened Wrappers
  import opened Seqs
  import opened Strings
  import opened Constants

  const MaxRecents := 10
  const MaxBookmarks := 10
  /** Ten minutes, in milliseconds. */
  const ProfileDataLifespan := 600000
  const MaxCachedProfiles := 5

  // ---------------------------------------------------------------------------
  // Player identity

  /** A stored player: display name, username as typed, and platform. */
  datatype PlayerRef = PlayerRef(name: string, username: string, platform: Platform)

  function FoldChar(c: char): char
  {
    if 'A' <= c <= 'Z' then (c as int + 32) as char else c
  }

  /**
    Case-insensitive username equality. The application compares with a
    locale collation that ignores case but not accents; this model folds
    ASCII letters. The lemmas about the store use only that it is an
    equivalence relation that holds between equal strings.
   */
  predicate EqualsIgnoreCase(a: string, b: string)
    ensures EqualsIgnoreCase(a, b) ==> |a| == |b|
    ensures a == b ==> EqualsIgnoreCase(a, b)
  {
    |a| == |b| && forall i :: 0 <= i < |a| ==> FoldChar(a[i]) == FoldChar(b[i])
  }

  lemma EqualsIgnoreCaseIsEquivalence(a: string, b: string, c: string)
    ensures EqualsIgnoreCase(a, a)
    ensures EqualsIgnoreCase(a, b) ==> EqualsIgnoreCase(b, a)
    ensures EqualsIgnoreCase(a, b) && EqualsIgnoreCase(b, c) ==> EqualsIgnoreCase(a, c)
  {
  }

  /** The identity test used throughout: same username ignoring case, same platform code. */
  predicate Identifies(entry: PlayerRef, username: string, platform: Platform)
  {
    EqualsIgnoreCase(entry.username, username) && entry.platform.code == platform.code
  }

  function IdentityTest(username: string, platform: Platform): PlayerRef -> bool
  {
    (entry: PlayerRef) => Identifies(entry, username, platform)
  }

  /** The de-duplication test of `addToRecents`: the username alone, on any platform. */
  function UsernameTest(username: string): PlayerRef -> bool
  {
    (entry: PlayerRef) => EqualsIgnoreCase(entry.username, username)
  }

  ghost predicate HasIdentity(list: seq<PlayerRef>, username: string, platform: Platform)
  {
    exists i :: 0 <= i < |list| && Identifies(list[i], username, platform)
  }

  /**
    The name shown for a player: on Battle.net the username up to its last
    '#', elsewhere (or without a '#') the username itself.
   */
  function DisplayName(username: string, platform: Platform): (name: string)
    ensures platform.code != BattleNet.code ==> name == username
    ensures '#' !in username ==> name == username
    ensures platform.code == BattleNet.code && '#' in username ==>
              |name| < |username| && name == username[..|name|] &&
              username[|name|] == '#' && '#' !in username[|name| + 1..]
  {
    if platform.code == BattleNet.code then
      var hashtag := LastIndexOf(username, '#');
      if hashtag == -1 then username else username[..hashtag]
    else
      username
  }

  /** The entry `addToRecents` and `addToBookmarks` store for a search. */
  function MakeRef(username: string, platform: Platform): (r: PlayerRef)
    ensures r.username == username && r.platform == platform
    ensures r.name == DisplayName(username, platform)
    ensures Identifies(r, username, platform)
  {
    EqualsIgnoreCaseIsEquivalence(username, username, username);
    PlayerRef(DisplayName(username, platform), username, platform)
  }

  // ---------------------------------------------------------------------------
  // Bookmarks and recents as values

  function IsUserBookmarked(username: string, platform: Platform, bookmarks: seq<PlayerRef>): (r: bool)
    ensures r <==> HasIdentity(bookmarks, username, platform)
  {
    IndexWhere(bookmarks, IdentityTest(username, platform)) != -1
  }

  /** `findIndex` on the identity test followed by `splice(index, 1)` when found. */
  function RemovedIdentity(list: seq<PlayerRef>, username: string, platform: Platform): (r: seq<PlayerRef>)
    ensures HasIdentity(list, username, platform) ==>
              |r| == |list| - 1 &&
              exists i :: 0 <= i < |list| && Identifies(list[i], username, platform) &&
                (forall j :: 0 <= j < i ==> !Identifies(list[j], username, platform)) &&
                r == list[..i] + list[i + 1..]
    ensures !HasIdentity(list, username, platform) ==> r == list
  {
    var i := IndexWhere(list, IdentityTest(username, platform));
    if i == -1 then list else RemoveAt(list, i)
  }

  /**
    The new recents list of a successful `addToRecents`: drop the tail when the
    list is full, then remove the first entry with the same username (on any
    platform), then put the new entry in front.
   */
  function AddedToRecents(recents: seq<PlayerRef>, item: PlayerRef): (r: seq<PlayerRef>)
    ensures |r| >= 1 && r[0] == item
  {
    [item] + RecentsKept(recents, item.username)
  }

  /** The entries `addToRecents` keeps behind the new one. */
  function RecentsKept(recents: seq<PlayerRef>, username: string): (r: seq<PlayerRef>)
    ensures |r| <= |recents|
    ensures |recents| >= MaxRecents ==> |r| < |recents|
  {
    var kept := if |recents| >= MaxRecents then recents[..|recents| - 1] else recents;
    var i := IndexWhere(kept, UsernameTest(username));
    if i == -1 then kept else RemoveAt(kept, i)
  }

  ghost predicate UniqueUsernames(list: seq<PlayerRef>)
  {
    forall i, j :: 0 <= i < j < |list| ==> !EqualsIgnoreCase(list[i].username, list[j].username)
  }

  ghost predicate UniqueIdentities(list: seq<PlayerRef>)
  {
    forall i, j :: 0 <= i < j < |list| ==> !Identifies(list[j], list[i].username, list[i].platform)
  }

  /** No recents entry is also bookmarked. */
  ghost predicate Disjoint(recents: seq<PlayerRef>, bookmarks: seq<PlayerRef>)
  {
    forall r, b :: r in recents && b in bookmarks ==> !Identifies(b, r.username, r.platform)
  }

  /**
    What the application's own operations keep true of the two player lists:
    the bounds, no duplicate username among recents, no duplicate player
    among bookmarks, and no player in both lists.
   */
  ghost predicate ValidLists(recents: seq<PlayerRef>, bookmarks: seq<PlayerRef>)
  {
    && |recents| <= MaxRecents
    && |bookmarks| <= MaxBookmarks
    && UniqueUsernames(recents)
    && UniqueIdentities(bookmarks)
    && Disjoint(recents, bookmarks)
  }

  /** A row of the home screen list: bookmarks first (flagged), then recents. */
  datatype ListedPlayer = ListedPlayer(player: PlayerRef, isBookmarked: bool)

  function RecentsList(bookmarks: seq<PlayerRef>, recents: seq<PlayerRef>): (r: seq<ListedPlayer>)
    ensures |r| == |bookmarks| + |recents|
    ensures forall i :: 0 <= i < |bookmarks| ==> r[i] == ListedPlayer(bookmarks[i], true)
    ensures forall i :: 0 <= i < |recents| ==> r[|bookmarks| + i] == ListedPlayer(recents[i], false)
  {
    seq(|bookmarks|, i requires 0 <= i < |bookmarks| => ListedPlayer(bookmarks[i], true)) +
    seq(|recents|, i requires 0 <= i < |recents| => ListedPlayer(recents[i], false))
  }

  // ---------------------------------------------------------------------------
  // Profile cache as values

  datatype CacheEntry<D> = CacheEntry(username: string, platformCode: string, data: D, dateStored: int)

  /** An entry a lookup for (`username`, `platform`) at time `now` may return. */
  predicate Serves<D>(e: CacheEntry<D>, username: string, platform: Platform, now: int)
    ensures Serves(e, username, platform, now) ==> e.platformCode == platform.code && now <= e.dateStored + ProfileDataLifespan
    ensures e.username == username && e.platformCode == platform.code && now <= e.dateStored + ProfileDataLifespan ==>
              Serves(e, username, platform, now)
  {
    EqualsIgnoreCase(e.username, username) && e.platformCode == platform.code &&
    e.dateStored + ProfileDataLifespan >= now
  }

  function ServeTest<D>(username: string, platform: Platform, now: int): CacheEntry<D> -> bool
  {
    (e: CacheEntry<D>) => Serves(e, username, platform, now)
  }

  /** The `find` of `getCachedProfileData(username, platform)`: the first entry still fresh for this player. */
  function LookupCached<D>(cache: seq<CacheEntry<D>>, username: string, platform: Platform, now: int)
    : (r: Option<CacheEntry<D>>)
    ensures r.None? <==> forall i :: 0 <= i < |cache| ==> !Serves(cache[i], username, platform, now)
    ensures r.Some? ==>
              exists i :: 0 <= i < |cache| && cache[i] == r.value && Serves(r.value, username, platform, now) &&
                forall j :: 0 <= j < i ==> !Serves(cache[j], username, platform, now)
  {
    var i := IndexWhere(cache, ServeTest(username, platform, now));
    if i == -1 then None else Some(cache[i])
  }

  /**
    The removal test of `cacheProfileData`: expired, or stored for the same
    player. Unlike every other comparison of the store, the username is
    compared case-sensitively here.
   */
  predicate PurgeHit<D>(e: CacheEntry<D>, username: string, code: string, now: int)
    ensures !PurgeHit(e, username, code, now) <==>
              now <= e.dateStored + ProfileDataLifespan && (e.username != username || e.platformCode != code)
  {
    now > e.dateStored + ProfileDataLifespan || (username == e.username && code == e.platformCode)
  }

  /**
    What the purge loop of `cacheProfileData` leaves: it walks the array with
    an index, splices out each hit and then advances the index, so the element
    that moved into the hit's place is never examined.
   */
  function Purged<D>(s: seq<CacheEntry<D>>, username: string, code: string, now: int): (r: seq<CacheEntry<D>>)
    ensures |r| <= |s|
    decreases |s|
  {
    if s == [] then []
    else if PurgeHit(s[0], username, code, now) then
      if |s| == 1 then [] else [s[1]] + Purged(s[2..], username, code, now)
    else [s[0]] + Purged(s[1..], username, code, now)
  }

  /** What the capacity loop leaves: the newest entries, one fewer than the capacity. */
  function Capped<D>(s: seq<CacheEntry<D>>): (r: seq<CacheEntry<D>>)
    ensures |r| < MaxCachedProfiles
    ensures |s| < MaxCachedProfiles ==> r == s
    ensures |s| >= MaxCachedProfiles ==> |r| == MaxCachedProfiles - 1
    ensures |r| <= |s| && r == s[|s| - |r|..]
  {
    if |s| >= MaxCachedProfiles then s[|s| - (MaxCachedProfiles - 1)..] else s
  }

  /** The cache after `cacheProfileData(username, platform, data)` at time `now`. */
  function CacheStored<D>(cache: seq<CacheEntry<D>>, username: string, platform: Platform, data: D, now: int)
    : (r: seq<CacheEntry<D>>)
    ensures 1 <= |r| <= MaxCachedProfiles
    ensures r[|r| - 1] == CacheEntry(username, platform.code, data, now)
  {
    Capped(Purged(cache, username, platform.code, now)) + [CacheEntry(username, platform.code, data, now)]
  }

  /** The answer of `getCachedProfileData`: the whole array, one entry, or `null`. */
  datatype CacheLookup<D> = AllEntries(entries: seq<CacheEntry<D>>) | Hit(entry: CacheEntry<D>) | Miss

  // ---------------------------------------------------------------------------
  // The store

  class PlayerStore<D> {
    var recents: seq<PlayerRef>
    var bookmarks: seq<PlayerRef>
    var cache: seq<CacheEntry<D>>

    /** The stored lists satisfy `ValidLists` and the cache is within its capacity. */
    ghost predicate Valid()
      reads this
    {
      ValidLists(recents, bookmarks) && |cache| <= MaxCachedProfiles
    }

    /** Empty device storage: every read falls back to `[]`. */
    constructor ()
      ensures recents == [] && bookmarks == [] && cache == []
      ensures Valid()
    {
      recents, bookmarks, cache := [], [], [];
    }

    method AddToRecents(username: string, platform: Platform) returns (added: bool)
      modifies this
      ensures added <==> !IsUserBookmarked(username, platform, old(bookmarks))
      ensures recents == if added then AddedToRecents(old(recents), MakeRef(username, platform)) else old(recents)
      ensures bookmarks == old(bookmarks) && cache == old(cache)
      ensures old(Valid()) ==> Valid()
    {
      // If the player is bookmarked, don't add to recents
      if IsUserBookmarked(username, platform, bookmarks) {
        return false;
      }
      var item := MakeRef(username, platform);
      var list := KeepRecents(recents, username);
      if Valid() {
        AddToRecentsKeepsValid(recents, bookmarks, username, platform);
      }
      recents := [item] + list;
      added := true;
    }

    method AddToBookmarks(username: string, platform: Platform) returns (added: bool)
      modifies this
      ensures added <==> !IsUserBookmarked(username, platform, old(bookmarks)) && |old(bookmarks)| < MaxBookmarks
      ensures bookmarks == if added then old(bookmarks) + [MakeRef(username, platform)] else old(bookmarks)
      ensures recents == if IsUserBookmarked(username, platform, old(bookmarks)) then old(recents)
                         else RemovedIdentity(old(recents), username, platform)
      ensures cache == old(cache)
      ensures old(Valid()) ==> Valid()
    {
      if IsUserBookmarked(username, platform, bookmarks) {
        return false;
      }
      var index := IndexWhere(recents, IdentityTest(username, platform));
      if index != -1 {
        recents := RemoveAt(recents, index);
      }
      var item := MakeRef(username, platform);
      if |bookmarks| >= MaxBookmarks {
        added := false;
      } else {
        bookmarks := bookmarks + [item];
        added := true;
      }
      assert recents == RemovedIdentity(old(recents), username, platform);
      if old(Valid()) {
        AddToBookmarksKeepsValid(old(recents), old(bookmarks), username, platform);
      }
    }

    method RemoveFromBookmarks(username: string, platform: Platform) returns (removed: bool)
      modifies this
      ensures removed <==> IsUserBookmarked(username, platform, old(bookmarks))
      ensures bookmarks == RemovedIdentity(old(bookmarks), username, platform)
      ensures recents == old(recents) && cache == old(cache)
      ensures old(Valid()) ==> Valid()
    {
      var index := IndexWhere(bookmarks, IdentityTest(username, platform));
      if index != -1 {
        bookmarks := RemoveAt(bookmarks, index);
        removed := true;
      } else {
        removed := false;
      }
      assert bookmarks == RemovedIdentity(old(bookmarks), username, platform);
      if old(Valid()) {
        RemoveFromBookmarksKeepsValid(recents, old(bookmarks), username, platform);
      }
    }

    /** `getCachedProfileData(username, platform)`; either argument may be `null`. */
    function GetCachedProfileData(username: Option<string>, platform: Option<Platform>, now: int): (r: CacheLookup<D>)
      reads this
      ensures r.AllEntries? <==> username.None? || platform.None?
      ensures r.AllEntries? ==> r.entries == cache
      ensures r.Hit? ==> Serves(r.entry, username.value, platform.value, now) && r.entry in cache
      ensures r.Hit? ==>
                exists i :: 0 <= i < |cache| && cache[i] == r.entry &&
                  forall j :: 0 <= j < i ==> !Serves(cache[j], username.value, platform.value, now)
      ensures r.Miss? <==> username.Some? && platform.Some? &&
                           forall i :: 0 <= i < |cache| ==> !Serves(cache[i], username.value, platform.value, now)
    {
      if username.None? || platform.None? then AllEntries(cache)
      else
        match LookupCached(cache, username.value, platform.value, now)
        case Some(e) => Hit(e)
        case None => Miss
    }

    method CacheProfileData(username: string, platform: Platform, data: D, now: int)
      modifies this
      ensures cache == CacheStored(old(cache), username, platform, data, now)
      ensures recents == old(recents) && bookmarks == old(bookmarks)
      ensures old(Valid()) ==> Valid()
    {
      var entries := PurgeEntries(cache, username, platform.code, now);
      entries := KeepNewest(entries);
      entries := entries + [CacheEntry(username, platform.code, data, now)];
      cache := entries;
    }
  }

  /**
    The list steps of `addToRecents`: pop the oldest entry of a full list,
    then splice out the first entry with the same username.
   */
  method KeepRecents(recents: seq<PlayerRef>, username: string) returns (list: seq<PlayerRef>)
    ensures list == RecentsKept(recents, username)
  {
    list := recents;
    if |list| >= MaxRecents {
      list := list[..|list| - 1];
    }
    ghost var popped := list;
    // Remove an entry with the same username if there is one
    var index := IndexWhere(list, UsernameTest(username));
    if index != -1 {
      list := RemoveAt(list, index);
    }
    KeptMatches(recents, username, popped, index, list);
  }

  /**
    The first loop of `cacheProfileData`: removes expired entries and entries
    of the same player, advancing the index after every splice.
   */
  method PurgeEntries<D>(cache: seq<CacheEntry<D>>, username: string, code: string, now: int)
    returns (entries: seq<CacheEntry<D>>)
    ensures entries == Purged(cache, username, code, now)
  {
    entries := cache;
    var i := 0;
    while i < |entries|
      invariant 0 <= i <= |entries| + 1
      invariant PurgeProgress(entries, i, username, code, now) == Purged(cache, username, code, now)
    {
      if PurgeHit(entries[i], username, code, now) {
        PurgeStepRemoves(entries, i, username, code, now);
        entries := RemoveAt(entries, i);
      } else {
        PurgeStepKeeps(entries, i, username, code, now);
      }
      i := i + 1;
    }
    assert entries[..|entries|] == entries;
  }

  /** The second loop of `cacheProfileData`: drops the oldest entry while five or more are stored. */
  method KeepNewest<D>(purged: seq<CacheEntry<D>>) returns (entries: seq<CacheEntry<D>>)
    ensures entries == Capped(purged)
  {
    entries := purged;
    while |entries| >= MaxCachedProfiles
      invariant |entries| <= |purged| && entries == purged[|purged| - |entries|..]
      invariant |entries| < |purged| ==> |entries| >= MaxCachedProfiles - 1
    {
      entries := entries[1..];
    }
  }

  /** The state of the purge loop: the examined part, followed by what the rest will become. */
  function PurgeProgress<D>(entries: seq<CacheEntry<D>>, i: nat, username: string, code: string, now: int)
    : seq<CacheEntry<D>>
  {
    if i <= |entries| then entries[..i] + Purged(entries[i..], username, code, now) else entries
  }

  lemma PurgeStepRemoves<D>(entries: seq<CacheEntry<D>>, i: nat, username: string, code: string, now: int)
    requires i < |entries| && PurgeHit(entries[i], username, code, now)
    ensures PurgeProgress(RemoveAt(entries, i), i + 1, username, code, now)
            == PurgeProgress(entries, i, username, code, now)
  {
    var after := RemoveAt(entries, i);
    if i + 1 < |entries| {
      assert entries[i..][1..][1..] == entries[i + 2..];
      assert after[..i + 1] == entries[..i] + [entries[i + 1]];
      assert after[i + 1..] == entries[i + 2..];
    } else {
      assert after == entries[..i];
    }
  }

  lemma PurgeStepKeeps<D>(entries: seq<CacheEntry<D>>, i: nat, username: string, code: string, now: int)
    requires i < |entries| && !PurgeHit(entries[i], username, code, now)
    ensures PurgeProgress(entries, i + 1, username, code, now) == PurgeProgress(entries, i, username, code, now)
  {
    assert entries[i..][1..] == entries[i + 1..];
    assert entries[..i + 1] == entries[..i] + [entries[i]];
  }

  /** The steps `addToRecents` takes on its copy of the list compute `RecentsKept`. */
  lemma KeptMatches(recents: seq<PlayerRef>, username: string, popped: seq<PlayerRef>, index: int, list: seq<PlayerRef>)
    requires popped == if |recents| >= MaxRecents then recents[..|recents| - 1] else recents
    requires index == IndexWhere(popped, UsernameTest(username))
    requires list == if index == -1 then popped else RemoveAt(popped, index)
    ensures list == RecentsKept(recents, username)
  {
  }

  /** `addToRecents` keeps the stored lists within the invariant of `PlayerStore`. */
  lemma AddToRecentsKeepsValid(recents: seq<PlayerRef>, bookmarks: seq<PlayerRef>, username: string, platform: Platform)
    requires ValidLists(recents, bookmarks)
    requires !HasIdentity(bookmarks, username, platform)
    ensures ValidLists(AddedToRecents(recents, MakeRef(username, platform)), bookmarks)
  {
    var item := MakeRef(username, platform);
    var r := AddedToRecents(recents, item);
    AddedToRecentsUnique(recents, item);
    AddedToRecentsBounded(recents, item);
    AddedToRecentsKeepsOrder(recents, item);
    SubsequenceMembers(r[1..], recents);
    assert r == [item] + r[1..];
  }

  /** `addToBookmarks` keeps the stored lists within the invariant of `PlayerStore`. */
  lemma AddToBookmarksKeepsValid(recents: seq<PlayerRef>, bookmarks: seq<PlayerRef>, username: string, platform: Platform)
    requires ValidLists(recents, bookmarks)
    requires !HasIdentity(bookmarks, username, platform)
    ensures var b := if |bookmarks| < MaxBookmarks then bookmarks + [MakeRef(username, platform)] else bookmarks;
      ValidLists(RemovedIdentity(recents, username, platform), b)
  {
    var r := RemovedIdentity(recents, username, platform);
    var item := MakeRef(username, platform);
    RemovedIdentityKeepsUnique(recents, username, platform);
    RemovedIdentityKeepsOrder(recents, username, platform);
    SubsequenceMembers(r, recents);
    assert Disjoint(r, bookmarks);
    if |bookmarks| < MaxBookmarks {
      RemovedIdentityClears(recents, username, platform);
      AppendedBookmarkUnique(bookmarks, item);
      AppendedBookmarkDisjoint(r, bookmarks, item);
    }
  }

  lemma RemovedIdentityKeepsUnique(list: seq<PlayerRef>, username: string, platform: Platform)
    requires UniqueUsernames(list)
    ensures UniqueUsernames(RemovedIdentity(list, username, platform))
  {
    var i := IndexWhere(list, IdentityTest(username, platform));
    if i != -1 {
      RemoveAtKeepsUnique(list, i);
    }
  }

  /** A player not yet bookmarked can be appended without creating a duplicate. */
  lemma AppendedBookmarkUnique(bookmarks: seq<PlayerRef>, item: PlayerRef)
    requires UniqueIdentities(bookmarks) && !HasIdentity(bookmarks, item.username, item.platform)
    ensures UniqueIdentities(bookmarks + [item])
  {
    var b := bookmarks + [item];
    forall i, j | 0 <= i < j < |b|
      ensures !Identifies(b[j], b[i].username, b[i].platform)
    {
      if j == |bookmarks| {
        assert b[i] == bookmarks[i] && !Identifies(bookmarks[i], item.username, item.platform);
        EqualsIgnoreCaseIsEquivalence(item.username, bookmarks[i].username, item.username);
      } else {
        assert b[i] == bookmarks[i] && b[j] == bookmarks[j];
      }
    }
  }

  /** A player absent from recents can be bookmarked without breaking `Disjoint`. */
  lemma AppendedBookmarkDisjoint(recents: seq<PlayerRef>, bookmarks: seq<PlayerRef>, item: PlayerRef)
    requires Disjoint(recents, bookmarks) && !HasIdentity(recents, item.username, item.platform)
    ensures Disjoint(recents, bookmarks + [item])
  {
    forall x, b | x in recents && b in bookmarks + [item]
      ensures !Identifies(b, x.username, x.platform)
    {
      if b == item {
        var k :| 0 <= k < |recents| && recents[k] == x;
        assert !Identifies(recents[k], item.username, item.platform);
        EqualsIgnoreCaseIsEquivalence(item.username, x.username, item.username);
      } else {
        assert b in bookmarks;
      }
    }
  }

  /** `removeFromBookmarks` keeps the stored lists within the invariant of `PlayerStore`. */
  lemma RemoveFromBookmarksKeepsValid(recents: seq<PlayerRef>, bookmarks: seq<PlayerRef>, username: string, platform: Platform)
    requires ValidLists(recents, bookmarks)
    ensures ValidLists(recents, RemovedIdentity(bookmarks, username, platform))
  {
    var b := RemovedIdentity(bookmarks, username, platform);
    RemovedIdentityKeepsOrder(bookmarks, username, platform);
    SubsequenceMembers(b, bookmarks);
  }

  // ---------------------------------------------------------------------------
  // Properties of recents

  lemma SubsequenceMembers<T>(a: seq<T>, b: seq<T>)
    requires IsSubsequence(a, b)
    ensures forall x :: x in a ==> x in b
    decreases |b|
  {
    if b != [] {
      if a != [] && a[0] == b[0] && IsSubsequence(a[1..], b[1..]) {
        SubsequenceMembers(a[1..], b[1..]);
        assert a == [a[0]] + a[1..];
      } else {
        SubsequenceMembers(a, b[1..]);
      }
    }
  }

  /**
    After `addToRecents` the new entry is first and no other entry has its
    username, whatever the platform; the list stays free of duplicate usernames.
   */
  lemma AddedToRecentsUnique(recents: seq<PlayerRef>, item: PlayerRef)
    requires UniqueUsernames(recents)
    ensures var r := AddedToRecents(recents, item);
      r[0] == item &&
      (forall i :: 1 <= i < |r| ==> !EqualsIgnoreCase(r[i].username, item.username)) &&
      UniqueUsernames(r)
  {
    var kept := if |recents| >= MaxRecents then recents[..|recents| - 1] else recents;
    var i := IndexWhere(kept, UsernameTest(item.username));
    var rest := RecentsKept(recents, item.username);
    assert rest == if i == -1 then kept else RemoveAt(kept, i);
    assert UniqueUsernames(kept) by {
      assert forall k :: 0 <= k < |kept| ==> kept[k] == recents[k];
    }
    if i != -1 {
      RemoveAtKeepsUnique(kept, i);
      RemoveAtDropsUsername(kept, i, item.username);
    } else {
      assert forall k :: 0 <= k < |kept| ==> !UsernameTest(item.username)(kept[k]);
    }
    PrependedUnique(item, rest);
    assert AddedToRecents(recents, item) == [item] + rest;
  }

  /** An entry whose username no other entry has can be put in front. */
  lemma PrependedUnique(item: PlayerRef, rest: seq<PlayerRef>)
    requires UniqueUsernames(rest)
    requires forall j :: 0 <= j < |rest| ==> !EqualsIgnoreCase(rest[j].username, item.username)
    ensures UniqueUsernames([item] + rest)
  {
    var r := [item] + rest;
    forall a, b | 0 <= a < b < |r|
      ensures !EqualsIgnoreCase(r[a].username, r[b].username)
    {
      if a == 0 {
        assert r[b] == rest[b - 1];
        EqualsIgnoreCaseIsEquivalence(item.username, rest[b - 1].username, item.username);
      } else {
        assert r[a] == rest[a - 1] && r[b] == rest[b - 1];
      }
    }
  }

  /** Removing an entry keeps the usernames distinct. */
  lemma RemoveAtKeepsUnique(list: seq<PlayerRef>, i: int)
    requires 0 <= i < |list| && UniqueUsernames(list)
    ensures UniqueUsernames(RemoveAt(list, i))
  {
    var r := RemoveAt(list, i);
    forall a, b | 0 <= a < b < |r|
      ensures !EqualsIgnoreCase(r[a].username, r[b].username)
    {
      var a' := if a < i then a else a + 1;
      var b' := if b < i then b else b + 1;
      assert r[a] == list[a'] && r[b] == list[b'];
    }
  }

  /** In a list of distinct usernames, removing the one entry matching `username` leaves none. */
  lemma RemoveAtDropsUsername(list: seq<PlayerRef>, i: int, username: string)
    requires 0 <= i < |list| && UniqueUsernames(list) && EqualsIgnoreCase(list[i].username, username)
    ensures forall j :: 0 <= j < |list| - 1 ==> !EqualsIgnoreCase(RemoveAt(list, i)[j].username, username)
  {
    var r := RemoveAt(list, i);
    forall j | 0 <= j < |r|
      ensures !EqualsIgnoreCase(r[j].username, username)
    {
      var j' := if j < i then j else j + 1;
      assert r[j] == list[j'];
      if EqualsIgnoreCase(r[j].username, username) {
        EqualsIgnoreCaseIsEquivalence(list[j'].username, username, list[i].username);
        EqualsIgnoreCaseIsEquivalence(list[i].username, username, list[j'].username);
        assert false;
      }
    }
  }

  /** A recents list within its bound stays within it. */
  lemma AddedToRecentsBounded(recents: seq<PlayerRef>, item: PlayerRef)
    ensures |AddedToRecents(recents, item)| <= |recents| + 1
    ensures |recents| <= MaxRecents ==> |AddedToRecents(recents, item)| <= MaxRecents
    ensures |recents| >= MaxRecents ==> |AddedToRecents(recents, item)| <= |recents|
  {
  }

  /** The entries that stay behind the new one keep their relative order. */
  lemma AddedToRecentsKeepsOrder(recents: seq<PlayerRef>, item: PlayerRef)
    ensures IsSubsequence(AddedToRecents(recents, item)[1..], recents)
  {
    var n := if |recents| >= MaxRecents then |recents| - 1 else |recents|;
    var kept := recents[..n];
    assert recents[..|recents|] == recents;
    var i := IndexWhere(kept, UsernameTest(item.username));
    var rest := RecentsKept(recents, item.username);
    assert rest == if i == -1 then kept else RemoveAt(kept, i);
    assert AddedToRecents(recents, item)[1..] == rest;
    PrefixIsSubsequence(recents, n);
    if i != -1 {
      RemoveAtIsSubsequence(kept, i);
      SubsequenceTransitive(rest, kept, recents);
    }
  }

  /**
    Every entry of the list except the tail of a full list and the entry with
    the new username survives `addToRecents`.
   */
  lemma AddedToRecentsKeepsOthers(recents: seq<PlayerRef>, item: PlayerRef, k: nat)
    requires k < |recents| && k < MaxRecents - 1
    requires !EqualsIgnoreCase(recents[k].username, item.username)
    ensures recents[k] in AddedToRecents(recents, item)
  {
    var kept := if |recents| >= MaxRecents then recents[..|recents| - 1] else recents;
    var i := IndexWhere(kept, UsernameTest(item.username));
    var r := AddedToRecents(recents, item);
    assert kept[k] == recents[k];
    if i == -1 {
      assert r[k + 1] == recents[k];
    } else if k < i {
      assert r[k + 1] == recents[k];
    } else {
      assert k != i;
      assert r[k] == kept[k];
    }
  }

  /**
    The tail is dropped before the duplicate is looked for: adding a player
    who is already in a full list shrinks it to 9 and loses the oldest entry.
   */
  lemma FullRecentsLoseTailOnDuplicate(recents: seq<PlayerRef>, item: PlayerRef, k: nat)
    requires |recents| == MaxRecents && UniqueUsernames(recents)
    requires k < MaxRecents - 1 && EqualsIgnoreCase(recents[k].username, item.username)
    ensures |AddedToRecents(recents, item)| == MaxRecents - 1
    ensures recents[MaxRecents - 1] !in AddedToRecents(recents, item)
  {
    var kept := recents[..MaxRecents - 1];
    var i := IndexWhere(kept, UsernameTest(item.username));
    assert kept[k] == recents[k];
    var r := AddedToRecents(recents, item);
    var tail := recents[MaxRecents - 1];
    assert !EqualsIgnoreCase(tail.username, item.username) by {
      EqualsIgnoreCaseIsEquivalence(tail.username, item.username, tail.username);
      EqualsIgnoreCaseIsEquivalence(recents[k].username, item.username, tail.username);
      assert !EqualsIgnoreCase(recents[k].username, tail.username);
    }
    EqualsIgnoreCaseIsEquivalence(tail.username, tail.username, tail.username);
    forall j | 0 <= j < |r|
      ensures r[j] != tail
    {
      if j > 0 {
        var j' := if j - 1 < i then j - 1 else j;
        assert r[j] == recents[j'];
        assert !EqualsIgnoreCase(recents[j'].username, tail.username);
      }
    }
  }

  /**
    Searching again for the player at the head of a full list is not a no-op:
    the list loses its oldest entry.
   */
  lemma ReAddingHeadOfFullRecents(recents: seq<PlayerRef>)
    requires |recents| == MaxRecents && UniqueUsernames(recents)
    ensures AddedToRecents(recents, recents[0]) == [recents[0]] + recents[1..MaxRecents - 1]
  {
    var kept := recents[..MaxRecents - 1];
    EqualsIgnoreCaseIsEquivalence(recents[0].username, recents[0].username, recents[0].username);
    assert UsernameTest(recents[0].username)(kept[0]);
    assert IndexWhere(kept, UsernameTest(recents[0].username)) == 0;
    assert RemoveAt(kept, 0) == recents[1..MaxRecents - 1];
  }

  /** Below capacity, searching again for the player at the head changes nothing. */
  lemma ReAddingHeadBelowCapacity(recents: seq<PlayerRef>)
    requires 0 < |recents| < MaxRecents
    ensures AddedToRecents(recents, recents[0]) == recents
  {
    EqualsIgnoreCaseIsEquivalence(recents[0].username, recents[0].username, recents[0].username);
    assert UsernameTest(recents[0].username)(recents[0]);
    assert IndexWhere(recents, UsernameTest(recents[0].username)) == 0;
    assert RemoveAt(recents, 0) == recents[1..];
  }

  // ---------------------------------------------------------------------------
  // Properties of bookmarks

  /** Removing what was just appended gives back the list: `removeFromBookmarks` undoes `addToBookmarks`. */
  lemma RemoveUndoesAdd(bookmarks: seq<PlayerRef>, username: string, platform: Platform)
    requires !HasIdentity(bookmarks, username, platform)
    ensures RemovedIdentity(bookmarks + [MakeRef(username, platform)], username, platform) == bookmarks
  {
    var list := bookmarks + [MakeRef(username, platform)];
    assert Identifies(list[|bookmarks|], username, platform);
    assert IndexWhere(list, IdentityTest(username, platform)) == |bookmarks|;
    assert list[..|bookmarks|] == bookmarks;
  }

  /** When a list holds each username once, removing a player leaves no entry for that player. */
  lemma RemovedIdentityClears(list: seq<PlayerRef>, username: string, platform: Platform)
    requires UniqueUsernames(list)
    ensures !HasIdentity(RemovedIdentity(list, username, platform), username, platform)
  {
    var i := IndexWhere(list, IdentityTest(username, platform));
    var r := RemovedIdentity(list, username, platform);
    if i != -1 {
      forall j | 0 <= j < |r|
        ensures !Identifies(r[j], username, platform)
      {
        var j' := if j < i then j else j + 1;
        assert r[j] == list[j'];
        assert j' != i;
        EqualsIgnoreCaseIsEquivalence(list[i].username, username, list[j'].username);
        EqualsIgnoreCaseIsEquivalence(list[j'].username, username, list[i].username);
        EqualsIgnoreCaseIsEquivalence(list[j'].username, list[i].username, username);
      }
    }
  }

  lemma RemovedIdentityKeepsOrder(list: seq<PlayerRef>, username: string, platform: Platform)
    ensures IsSubsequence(RemovedIdentity(list, username, platform), list)
  {
    var i := IndexWhere(list, IdentityTest(username, platform));
    if i == -1 {
      SubsequenceOfItself(list);
    } else {
      RemoveAtIsSubsequence(list, i);
    }
  }

  /**
    Bookmarking a player who is in recents moves it: the combined list shows
    that player once, as the last bookmark.
   */
  lemma BookmarkingMovesOutOfRecents(recents: seq<PlayerRef>, bookmarks: seq<PlayerRef>,
                                     username: string, platform: Platform)
    requires UniqueUsernames(recents) && Disjoint(recents, bookmarks)
    requires !HasIdentity(bookmarks, username, platform)
    ensures var listed := RecentsList(bookmarks + [MakeRef(username, platform)],
                                      RemovedIdentity(recents, username, platform));
      listed[|bookmarks|] == ListedPlayer(MakeRef(username, platform), true) &&
      forall i :: 0 <= i < |listed| && Identifies(listed[i].player, username, platform) ==> i == |bookmarks|
  {
    var b := bookmarks + [MakeRef(username, platform)];
    var rs := RemovedIdentity(recents, username, platform);
    var listed := RecentsList(b, rs);
    RemovedIdentityClears(recents, username, platform);
  }

  // ---------------------------------------------------------------------------
  // Properties of the profile cache

  lemma {:induction false} PurgedKeepsOrder<D>(s: seq<CacheEntry<D>>, username: string, code: string, now: int)
    ensures IsSubsequence(Purged(s, username, code, now), s)
    decreases |s|
  {
    var r := Purged(s, username, code, now);
    if s == [] {
    } else if PurgeHit(s[0], username, code, now) {
      if |s| == 1 {
        EmptyIsSubsequence(s);
      } else {
        PurgedKeepsOrder(s[2..], username, code, now);
        assert s[1..][1..] == s[2..];
        assert IsSubsequence(r, s[1..]);
      }
    } else {
      PurgedKeepsOrder(s[1..], username, code, now);
      assert r[1..] == Purged(s[1..], username, code, now);
    }
  }

  /**
    After `cacheProfileData` the older entries that survive are a
    subsequence of the old cache: their relative order is kept.
   */
  lemma CacheStoredKeepsOrder<D>(cache: seq<CacheEntry<D>>, username: string, platform: Platform, data: D, now: int)
    ensures var r := CacheStored(cache, username, platform, data, now);
      IsSubsequence(r[..|r| - 1], cache)
  {
    var p := Purged(cache, username, platform.code, now);
    var r := CacheStored(cache, username, platform, data, now);
    PurgedKeepsOrder(cache, username, platform.code, now);
    SuffixOfSubsequence(p, cache, |p| - |Capped(p)|);
    assert r[..|r| - 1] == Capped(p);
  }

  /** When no two hits are adjacent, the purge removes every expired entry and every entry of the same player. */
  lemma {:induction false} PurgedCompleteWithoutAdjacentHits<D>(s: seq<CacheEntry<D>>, username: string,
                                                               code: string, now: int)
    requires forall i :: 0 <= i < |s| - 1 ==> !(PurgeHit(s[i], username, code, now) && PurgeHit(s[i + 1], username, code, now))
    ensures forall e :: e in Purged(s, username, code, now) ==> !PurgeHit(e, username, code, now)
    decreases |s|
  {
    if s == [] {
    } else if PurgeHit(s[0], username, code, now) {
      if |s| > 1 {
        assert !PurgeHit(s[1], username, code, now);
        PurgedCompleteWithoutAdjacentHits(s[2..], username, code, now);
      }
    } else {
      PurgedCompleteWithoutAdjacentHits(s[1..], username, code, now);
    }
  }

  /** The purge is not complete: of two adjacent expired entries, the second survives. */
  lemma PurgeSkipsFollower<D>(e1: CacheEntry<D>, e2: CacheEntry<D>, username: string, code: string, now: int)
    requires now > e1.dateStored + ProfileDataLifespan && now > e2.dateStored + ProfileDataLifespan
    ensures Purged([e1, e2], username, code, now) == [e2]
    ensures PurgeHit(e2, username, code, now)
  {
    assert [e1, e2][2..] == [];
  }

  /** A fresh entry for the player, stored just before, is answered by the lookup that follows. */
  lemma CacheThenLookupHits<D>(cache: seq<CacheEntry<D>>, username: string, platform: Platform, data: D, now: int)
    requires forall e :: e in cache ==> !(EqualsIgnoreCase(e.username, username) && e.platformCode == platform.code)
    ensures LookupCached(CacheStored(cache, username, platform, data, now), username, platform, now)
            == Some(CacheEntry(username, platform.code, data, now))
  {
    var r := CacheStored(cache, username, platform, data, now);
    var p := Purged(cache, username, platform.code, now);
    CacheStoredKeepsOrder(cache, username, platform, data, now);
    SubsequenceMembers(r[..|r| - 1], cache);
    forall j | 0 <= j < |r| - 1
      ensures !Serves(r[j], username, platform, now)
    {
      assert r[j] in r[..|r| - 1];
    }
    EqualsIgnoreCaseIsEquivalence(username, username, username);
    assert Serves(r[|r| - 1], username, platform, now);
  }

  /**
    Because the purge skips the element after a removed one, an older entry
    for the same player can survive next to the new one, and a lookup then
    answers with the older data.
   */
  lemma SkippedEntryShadowsNewData<D>(expired: CacheEntry<D>, previous: CacheEntry<D>,
                                       platform: Platform, data: D, now: int)
    requires now > expired.dateStored + ProfileDataLifespan
    requires previous.platformCode == platform.code && previous.dateStored + ProfileDataLifespan >= now
    ensures var r := CacheStored([expired, previous], previous.username, platform, data, now);
      r == [previous, CacheEntry(previous.username, platform.code, data, now)] &&
      LookupCached(r, previous.username, platform, now) == Some(previous)
  {
    assert [expired, previous][2..] == [];
    var r := CacheStored([expired, previous], previous.username, platform, data, now);
    EqualsIgnoreCaseIsEquivalence(previous.username, previous.username, previous.username);
    assert Serves(r[0], previous.username, platform, now);
  }

  /**
    The purge compares usernames with their case, the lookup without: an
    entry for the player stored under another spelling of the name survives
    the purge, and the lookup that follows answers with it instead of the new
    data.
   */
  lemma OtherSpellingShadowsNewData<D>(previous: CacheEntry<D>, username: string, platform: Platform, data: D, now: int)
    requires previous.username != username && EqualsIgnoreCase(previous.username, username)
    requires previous.platformCode == platform.code && previous.dateStored + ProfileDataLifespan >= now
    ensures var r := CacheStored([previous], username, platform, data, now);
      r == [previous, CacheEntry(username, platform.code, data, now)] &&
      LookupCached(r, username, platform, now) == Some(previous)
  {
    assert !PurgeHit(previous, username, platform.code, now);
    assert [previous][1..] == [];
    assert Purged([previous], username, platform.code, now) == [previous];
    assert Capped([previous]) == [previous];
    var r := CacheStored([previous], username, platform, data, now);
    assert r == [previous, CacheEntry(username, platform.code, data, now)];
    assert Serves(r[0], username, platform, now);
  }

  /** "FOO" and "foo" are two spellings of one name, so the lemma above applies to them. */
  lemma CaseVariantNames()
    ensures "FOO" != "foo" && EqualsIgnoreCase("FOO", "foo")
  {
    assert FoldChar('F') == FoldChar('f') && FoldChar('O') == FoldChar('o');
  }

  /** Every entry the purge test spares survives the purge, whether examined or skipped. */
  lemma {:induction false} PurgedKeepsSpared<D>(s: seq<CacheEntry<D>>, username: string, code: string, now: int,
                                                e: CacheEntry<D>)
    requires e in s && !PurgeHit(e, username, code, now)
    ensures e in Purged(s, username, code, now)
    decreases |s|
  {
    if s[0] != e {
      if PurgeHit(s[0], username, code, now) {
        if s[1] != e {
          assert e in s[2..];
          PurgedKeepsSpared(s[2..], username, code, now, e);
        }
      } else {
        assert e in s[1..];
        PurgedKeepsSpared(s[1..], username, code, now, e);
      }
    }
  }

  /** With fewer than five entries cached, every entry the purge spares is still there after caching. */
  lemma CacheStoredKeepsSpared<D>(cache: seq<CacheEntry<D>>, username: string, platform: Platform, data: D, now: int,
                                   e: CacheEntry<D>)
    requires |cache| < MaxCachedProfiles
    requires e in cache && !PurgeHit(e, username, platform.code, now)
    ensures e in CacheStored(cache, username, platform, data, now)
  {
    PurgedKeepsSpared(cache, username, platform.code, now, e);
    var p := Purged(cache, username, platform.code, now);
    assert Capped(p) == p;
    assert CacheStored(cache, username, platform, data, now)[..|p|] == p;
  }
}
