/**
  The callback-data mini-protocol of the inline keyboards: `tag:field:field` strings built
  with `fmt.Sprintf`, taken apart with `strings.Split(data, ":")` and `strconv.ParseInt`,
  and dispatched on their exact text or on the text before the first ':'.
*/
module Callbacks {
  import opened Common
  import opened Text

  const Separator: char := ':'

  const JoinChallengeData: string := "join_challenge"
  const CompleteChallengeData: string := "complete_challenge"
  const UndoCompleteData: string := "undo_complete"
  const UpdateListData: string := "update_list"
  const AdjustStreakTag: string := "adjust_streak"
  const SetStreakTag: string := "set_streak"
  const CustomStreakTag: string := "custom_streak"

  /** The preset values offered on the streak keyboard. */
  const PresetStreaks: seq<int> := [0, 7, 30, 100]

  datatype CallbackError = MalformedData | NotANumber

  // ---------------------------------------------------------------------------
  // Formatters
  // ---------------------------------------------------------------------------

  /** `adjust_streak:<user>:<name>`, one button per participant. */
  function AdjustStreakData(user: UserId, name: string): (data: string)
    ensures AdjustStreakTag + [Separator] <= data
  {
    AdjustStreakTag + [Separator] + FormatInt(user) + [Separator] + name
  }

  /** `set_streak:<user>:<days>`. */
  function SetStreakData(user: UserId, days: int): (data: string)
    ensures SetStreakTag + [Separator] <= data
  {
    SetStreakTag + [Separator] + FormatInt(user) + [Separator] + FormatInt(days)
  }

  /** `custom_streak:<user>`. */
  function CustomStreakData(user: UserId): (data: string)
    ensures CustomStreakTag + [Separator] <= data
  {
    CustomStreakTag + [Separator] + FormatInt(user)
  }

  /** The data of the five buttons offered after a participant is picked: the presets, then "other value". */
  function StreakKeyboard(user: UserId): (buttons: seq<string>)
    ensures |buttons| == |PresetStreaks| + 1
  {
    [SetStreakData(user, 0), SetStreakData(user, 7), SetStreakData(user, 30), SetStreakData(user, 100),
     CustomStreakData(user)]
  }

  // ---------------------------------------------------------------------------
  // Parsers
  // ---------------------------------------------------------------------------

  /** At least three parts; the second is the participant id. The rest is only a display fallback. */
  function ParseAdjustStreak(data: string): (r: Result<UserId, CallbackError>)
    ensures r.Ok? ==> IsInt64(r.value) && |Split(data, Separator)| >= 3
  {
    var parts := Split(data, Separator);
    if |parts| < 3 then Err(MalformedData)
    else match ParseInt(parts[1])
      case None => Err(NotANumber)
      case Some(user) => Ok(user)
  }

  /** Exactly three parts: the participant id and the number of days. */
  function ParseSetStreak(data: string): (r: Result<(UserId, int), CallbackError>)
    ensures r.Ok? ==> IsInt64(r.value.0) && IsInt64(r.value.1)
    ensures |Split(data, Separator)| != 3 ==> r == Err(MalformedData)
  {
    var parts := Split(data, Separator);
    if |parts| != 3 then Err(MalformedData)
    else match ParseInt(parts[1])
      case None => Err(NotANumber)
      case Some(user) =>
        match ParseInt(parts[2])
        case None => Err(NotANumber)
        case Some(days) => Ok((user, days))
  }

  /** Exactly two parts: the participant id. */
  function ParseCustomStreak(data: string): (r: Result<UserId, CallbackError>)
    ensures r.Ok? ==> IsInt64(r.value)
    ensures |Split(data, Separator)| != 2 ==> r == Err(MalformedData)
  {
    var parts := Split(data, Separator);
    if |parts| != 2 then Err(MalformedData)
    else match ParseInt(parts[1])
      case None => Err(NotANumber)
      case Some(user) => Ok(user)
  }

  // ---------------------------------------------------------------------------
  // Dispatch
  // ---------------------------------------------------------------------------

  /** The text before the first ':', or all of `data` when it has none. */
  function CallbackPrefix(data: string): (p: string)
    ensures p <= data && Separator !in p
    ensures |p| < |data| ==> data[|p|] == Separator
  {
    FirstPartIsPrefix(data, Separator);
    if Separator in data then Split(data, Separator)[0] else data
  }

  datatype CallbackRoute =
    | JoinChallenge | CompleteChallenge | UndoComplete | UpdateList
    | AdjustStreakPick | SetStreakPick | CustomStreakPick | NoHandler

  /** Exact data first, then the prefix, in the order the switch lists them. */
  function RouteCallback(data: string): (r: CallbackRoute)
    ensures r == JoinChallenge <==> data == JoinChallengeData
    ensures r == CompleteChallenge <==> data == CompleteChallengeData
    ensures r == UndoComplete <==> data == UndoCompleteData
    ensures r == UpdateList <==> data == UpdateListData
    ensures r == NoHandler <==>
              data !in {JoinChallengeData, CompleteChallengeData, UndoCompleteData, UpdateListData}
              && CallbackPrefix(data) !in {AdjustStreakTag, SetStreakTag, CustomStreakTag}
    ensures r == SetStreakPick <==> CallbackPrefix(data) == SetStreakTag
    ensures r == CustomStreakPick <==> CallbackPrefix(data) == CustomStreakTag
    ensures r == AdjustStreakPick <==> CallbackPrefix(data) == AdjustStreakTag
  {
    var prefix := CallbackPrefix(data);
    if data == JoinChallengeData then JoinChallenge
    else if data == CompleteChallengeData then CompleteChallenge
    else if data == UndoCompleteData then UndoComplete
    else if data == UpdateListData then UpdateList
    else if prefix == AdjustStreakTag then AdjustStreakPick
    else if prefix == SetStreakTag then SetStreakPick
    else if prefix == CustomStreakTag then CustomStreakPick
    else NoHandler
  }

  // ---------------------------------------------------------------------------
  // Round trips
  // ---------------------------------------------------------------------------

  /** Splitting `tag:<n>:rest` gives the tag, the printed number, then the parts of rest. */
  lemma SplitTagged(tag: string, n: int, rest: string)
    requires Separator !in tag
    ensures Split(tag + [Separator] + FormatInt(n) + [Separator] + rest, Separator)
            == [tag, FormatInt(n)] + Split(rest, Separator)
  {
    FormatIntHasNoColon(n);
    var num := FormatInt(n);
    assert tag + [Separator] + num + [Separator] + rest == tag + [Separator] + (num + [Separator] + rest);
    SplitAtFirst(tag, num + [Separator] + rest, Separator);
    SplitAtFirst(num, rest, Separator);
  }

  /** The dispatch prefix of `tag:rest` is the tag. */
  lemma PrefixOfTagged(tag: string, rest: string)
    requires Separator !in tag
    ensures CallbackPrefix(tag + [Separator] + rest) == tag
  {
    var data := tag + [Separator] + rest;
    assert data[|tag|] == Separator;
    SplitAtFirst(tag, rest, Separator);
  }

  lemma SetStreakParses(user: UserId, days: int)
    requires IsInt64(user) && IsInt64(days)
    ensures ParseSetStreak(SetStreakData(user, days)) == Ok((user, days))
  {
    SplitTagged(SetStreakTag, user, FormatInt(days));
    FormatIntHasNoColon(days);
    SplitWithoutSeparator(FormatInt(days), Separator);
    assert Split(SetStreakData(user, days), Separator) == [SetStreakTag, FormatInt(user), FormatInt(days)];
    ParseFormatRoundTrip(user);
    ParseFormatRoundTrip(days);
  }

  lemma SetStreakRoundTrip(user: UserId, days: int)
    requires IsInt64(user) && IsInt64(days)
    ensures ParseSetStreak(SetStreakData(user, days)) == Ok((user, days))
    ensures RouteCallback(SetStreakData(user, days)) == SetStreakPick
  {
    SetStreakParses(user, days);
    SetStreakRoutes(user, days);
  }

  lemma SetStreakRoutes(user: UserId, days: int)
    ensures RouteCallback(SetStreakData(user, days)) == SetStreakPick
  {
    var rest := FormatInt(user) + [Separator] + FormatInt(days);
    assert SetStreakData(user, days) == SetStreakTag + [Separator] + rest;
    PrefixOfTagged(SetStreakTag, rest);
  }

  lemma CustomStreakRoundTrip(user: UserId)
    requires IsInt64(user)
    ensures ParseCustomStreak(CustomStreakData(user)) == Ok(user)
    ensures RouteCallback(CustomStreakData(user)) == CustomStreakPick
  {
    FormatIntHasNoColon(user);
    SplitAtFirst(CustomStreakTag, FormatInt(user), Separator);
    SplitWithoutSeparator(FormatInt(user), Separator);
    ParseFormatRoundTrip(user);
    PrefixOfTagged(CustomStreakTag, FormatInt(user));
  }

  lemma AdjustStreakParses(user: UserId, name: string)
    requires IsInt64(user)
    ensures ParseAdjustStreak(AdjustStreakData(user, name)) == Ok(user)
  {
    SplitTagged(AdjustStreakTag, user, name);
    ParseFormatRoundTrip(user);
  }

  /** Whatever the name holds, ':' included, the participant id comes back. */
  lemma AdjustStreakRoundTrip(user: UserId, name: string)
    requires IsInt64(user)
    ensures ParseAdjustStreak(AdjustStreakData(user, name)) == Ok(user)
    ensures RouteCallback(AdjustStreakData(user, name)) == AdjustStreakPick
  {
    AdjustStreakParses(user, name);
    var rest := FormatInt(user) + [Separator] + name;
    assert AdjustStreakData(user, name) == AdjustStreakTag + [Separator] + rest;
    PrefixOfTagged(AdjustStreakTag, rest);
  }

  /** Every button of the streak keyboard is routed to its handler and parses to the intended values. */
  lemma StreakKeyboardRoundTrip(user: UserId)
    requires IsInt64(user)
    ensures forall i :: 0 <= i < |PresetStreaks| ==>
              RouteCallback(StreakKeyboard(user)[i]) == SetStreakPick
              && ParseSetStreak(StreakKeyboard(user)[i]) == Ok((user, PresetStreaks[i]))
    ensures RouteCallback(StreakKeyboard(user)[4]) == CustomStreakPick
    ensures ParseCustomStreak(StreakKeyboard(user)[4]) == Ok(user)
  {
    var keyboard := StreakKeyboard(user);
    forall i | 0 <= i < |PresetStreaks|
      ensures RouteCallback(keyboard[i]) == SetStreakPick
      ensures ParseSetStreak(keyboard[i]) == Ok((user, PresetStreaks[i]))
    {
      assert keyboard[i] == SetStreakData(user, PresetStreaks[i]);
      SetStreakRoundTrip(user, PresetStreaks[i]);
    }
    CustomStreakRoundTrip(user);
  }
}
