/**
  Classification of an incoming text message in the update loop: the exact command and
  button texts first, then the retired `/setstreak` prefix, then a pending custom-streak
  conversation, then (for replies only) a pending join.
*/
module Routing {
  import opened Common

  const StartCommand: string := "/start"
  const RefreshButton: string := "Обновить"
  const CompleteButton: string := "Сделать зарядочку"
  const YesterdayButton: string := "Отметить за вчера"
  const ListUserIdsCommand: string := "/listuserids"
  const AdjustStreakCommand: string := "/adjuststreak"
  const SetStreakCommand: string := "/setstreak"

  datatype MessageRoute =
    | ShowStart            // handleStart
    | ShowList             // sendParticipantsList
    | MarkToday            // handleCompleteChallenge
    | MarkYesterday        // handleMarkYesterday
    | ListUserIds          // handleListUserIDs
    | PickUser             // handleAdjustStreak
    | SetStreakRetired     // the notice that /setstreak is retired
    | CustomStreakReply    // handleCustomStreakInput
    | NameReply            // handleNameResponse
    | NotHandled

  /** The route of a text that is one of the exact commands or button labels. */
  function CommandRoute(text: string): (r: Option<MessageRoute>)
    ensures r.Some? ==> r.value in {ShowStart, ShowList, MarkToday, MarkYesterday, ListUserIds, PickUser}
    ensures r.Some? <==> text in {StartCommand, RefreshButton, CompleteButton, YesterdayButton,
                                  ListUserIdsCommand, AdjustStreakCommand}
    // Each text reaches its own handler.
    ensures r == Some(ShowStart) <==> text == StartCommand
    ensures r == Some(ShowList) <==> text == RefreshButton
    ensures r == Some(MarkToday) <==> text == CompleteButton
    ensures r == Some(MarkYesterday) <==> text == YesterdayButton
    ensures r == Some(ListUserIds) <==> text == ListUserIdsCommand
    ensures r == Some(PickUser) <==> text == AdjustStreakCommand
  {
    if text == StartCommand then Some(ShowStart)
    else if text == RefreshButton then Some(ShowList)
    else if text == CompleteButton then Some(MarkToday)
    else if text == YesterdayButton then Some(MarkYesterday)
    else if text == ListUserIdsCommand then Some(ListUserIds)
    else if text == AdjustStreakCommand then Some(PickUser)
    else None
  }

  predicate IsConversationRoute(r: MessageRoute)
  {
    r == CustomStreakReply || r == NameReply
  }

  /**
    The handler a text message goes to. `awaitingStreak`: a `waiting_custom_streak` row exists
    for this (user, chat); `isReply`: the message replies to another; `awaitingName`: a
    pending join exists for this (user, chat).
  */
  function RouteMessage(text: string, awaitingStreak: bool, isReply: bool, awaitingName: bool): (r: MessageRoute)
    // Commands and buttons win whatever conversation is pending.
    ensures CommandRoute(text).Some? ==> r == CommandRoute(text).value
    // A pending conversation only ever receives text that is no command.
    ensures IsConversationRoute(r) ==> CommandRoute(text).None? && !(SetStreakCommand <= text)
    // A custom-streak conversation is served before a pending join.
    ensures r == NameReply ==> !awaitingStreak && isReply && awaitingName
    ensures r == SetStreakRetired <==> CommandRoute(text).None? && SetStreakCommand <= text
    ensures r == CustomStreakReply <==>
              CommandRoute(text).None? && !(SetStreakCommand <= text) && awaitingStreak
    ensures r == NameReply <==>
              CommandRoute(text).None? && !(SetStreakCommand <= text) && !awaitingStreak
              && isReply && awaitingName
    // Free text that nothing is waiting for is dropped.
    ensures (CommandRoute(text).None? && !(SetStreakCommand <= text) && !awaitingStreak
             && !(isReply && awaitingName)) ==> r == NotHandled
  {
    match CommandRoute(text)
    case Some(route) => route
    case None =>
      if SetStreakCommand <= text then SetStreakRetired
      else if awaitingStreak then CustomStreakReply
      else if isReply && awaitingName then NameReply
      else NotHandled
  }

  /** The conversation state can change the route only of texts that are not commands. */
  lemma CommandsIgnoreConversations(text: string, s1: bool, r1: bool, n1: bool, s2: bool, r2: bool, n2: bool)
    requires CommandRoute(text).Some? || SetStreakCommand <= text
    ensures RouteMessage(text, s1, r1, n1) == RouteMessage(text, s2, r2, n2)
  {
  }
}
