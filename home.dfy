/**
  The home screen's search: the username field keeps its text trimmed,
  and pressing search either shows a message or opens the profile of
  that username on the selected platform.
 */
module Home {
  import opened Wrappers
  import opened Strings
  import opened Constants

  /** What pressing search does: show a message, or open the profile screen. */
  datatype SearchOutcome = Rejected(message: string) | Navigate(username: string, platform: Platform)

  const SelectPlatformMessage := "Please select a platform."
  const EnterUsernameMessage := "Please enter a username."
  const InvalidBattleNetMessage := "Invalid Battle.net username."

  function MissingTagMessage(username: string): string
  {
    "Missing BattleTag '#' (ie. '" + username + "#1234')."
  }

  /** A Battle.net username: a name, '#', and a non-empty numeric tag. */
  ghost predicate IsBattleTag(username: string)
    ensures IsBattleTag(username) ==> '#' in username && |username| >= 2
  {
    exists k :: 0 <= k < |username| && username[k] == '#' && username[k + 1..] != [] && AllDigits(username[k + 1..])
  }

  /** The text typed into the username field, as stored: trimmed. */
  function OnChangeUsername(text: string): (username: string)
    ensures username == [] || (!IsWhitespace(username[0]) && !IsWhitespace(username[|username| - 1]))
    ensures (forall i :: 0 <= i < |text| ==> IsWhitespace(text[i])) ==> username == []
    ensures (exists a, b :: 0 <= a <= b <= |text| && username == text[a..b] &&
               (forall i :: 0 <= i < a ==> IsWhitespace(text[i])) && (forall i :: b <= i < |text| ==> IsWhitespace(text[i])))
  {
    Trim(text)
  }

  /**
    `onPressSearchProfile`: the checks in order (platform chosen, username
    entered, and for Battle.net a '#' followed by a numeric tag), the first
    that fails giving its message.
   */
  function OnPressSearchProfile(selectedPlatform: Option<Platform>, username: string): (r: SearchOutcome)
    ensures selectedPlatform == None ==> r == Rejected(SelectPlatformMessage)
    ensures selectedPlatform != None && username == "" ==> r == Rejected(EnterUsernameMessage)
    ensures selectedPlatform == Some(BattleNet) && username != "" && '#' !in username ==>
      r == Rejected(MissingTagMessage(username))
    ensures selectedPlatform == Some(BattleNet) && '#' in username && !IsBattleTag(username) ==>
      r == Rejected(InvalidBattleNetMessage)
    ensures r.Navigate? <==>
      selectedPlatform != None && username != "" && (selectedPlatform.value == BattleNet ==> IsBattleTag(username))
    ensures r.Navigate? ==> r.username == username && selectedPlatform == Some(r.platform)
  {
    if selectedPlatform == None then Rejected(SelectPlatformMessage)
    else if username == "" then Rejected(EnterUsernameMessage)
    else if selectedPlatform.value == BattleNet then
      var hashtagIndex := LastIndexOf(username, '#');
      if hashtagIndex < 0 then Rejected(MissingTagMessage(username))
      else
        var battleTag := username[hashtagIndex + 1..];
        BattleTagCheck(username);
        if battleTag == "" || !AllDigits(battleTag) then Rejected(InvalidBattleNetMessage)
        else Navigate(username, selectedPlatform.value)
    else Navigate(username, selectedPlatform.value)
  }

  /** Checking the text after the last '#' decides whether the username is a BattleTag. */
  lemma BattleTagCheck(username: string)
    requires '#' in username
    ensures var k := LastIndexOf(username, '#');
      IsBattleTag(username) <==> username[k + 1..] != [] && AllDigits(username[k + 1..])
  {
    var k := LastIndexOf(username, '#');
    if IsBattleTag(username) {
      var j :| 0 <= j < |username| && username[j] == '#' && username[j + 1..] != [] && AllDigits(username[j + 1..]);
      assert j == k;
    }
  }

  /** A BattleTag splits at its last '#' into a name and the digits after it. */
  lemma BattleTagParts(username: string)
    requires IsBattleTag(username)
    ensures var k := LastIndexOf(username, '#');
      0 <= k && username == username[..k] + "#" + username[k + 1..] && AllDigits(username[k + 1..])
  {
    BattleTagCheck(username);
    var k := LastIndexOf(username, '#');
    assert username == username[..k] + [username[k]] + username[k + 1..];
  }

  /** Trimming the field again changes nothing. */
  lemma OnChangeUsernameIdempotent(text: string)
    ensures OnChangeUsername(OnChangeUsername(text)) == OnChangeUsername(text)
  {
    var u := OnChangeUsername(text);
    if u == [] {
      assert Trim(u) == [];
    }
  }

  /** Typing only blanks leaves the field empty, so a search asks for a username. */
  lemma BlankUsernameRejected(platform: Platform, text: string)
    requires forall i :: 0 <= i < |text| ==> IsWhitespace(text[i])
    ensures OnPressSearchProfile(Some(platform), OnChangeUsername(text)) == Rejected(EnterUsernameMessage)
  {
  }
}
