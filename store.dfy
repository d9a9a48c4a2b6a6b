/**
  The bot's persistent state and the handlers that change it. The SQLite tables become the
  fields of one `Store` object: `participants`, `daily_completions` (the ledger of
  (user, day) pairs), `achievements`, `pending_joins` and `bot_state`. Each handler is a
  method that reads and updates those fields the way the handler's SQL statements do;
  Telegram messages are not sent but returned as an `Outcome`, and "today" is a parameter.
*/
module Bot {
  import opened Common
  import opened Text
  import opened Streaks
  import opened Achievements
  import opened Callbacks
  import opened Routing

  /** The only `state` the bot ever writes to `bot_state`. */
  const WaitingCustomStreak: string := "waiting_custom_streak"

  /** A `bot_state` row: the state tag and its context text. */
  datatype Conversation = Conversation(state: string, context: string)

  datatype Failure =
    | UnknownParticipant    // "user with ID %d does not exist", or a failed chat lookup
    | MalformedCallback     // "invalid callback data format"
    | BadNumber             // a strconv parse error

  function FailureOf(e: CallbackError): Failure
  {
    match e
    case MalformedData => MalformedCallback
    case NotANumber => BadNumber
  }

  /** What a handler did, as far as the chat sees it. */
  datatype Outcome =
    | Completed(streak: nat, notices: seq<Notice>)   // a completion was inserted
    | AlreadyCompleted
    | Undone
    | NothingToUndo
    | StreakSet(notices: seq<Notice>)
    | OfferStreaks(buttons: seq<string>)             // the preset keyboard for a picked participant
    | AskStreakValue                                 // "enter a number" after "other value"
    | InvalidStreakValue                             // re-prompt; the conversation is kept
    | AskName
    | Joined
    | Unchanged                                      // display-only handlers and ignored updates
    | Failed(failure: Failure)

  /** How handleCustomStreakInput reads a reply, given the `bot_state` row of its (user, chat). */
  datatype StreakReply =
    | NotWaiting           // no waiting_custom_streak row: the text is ignored
    | BadContext           // the stored participant id does not parse
    | NotANonNegative      // the trimmed reply is not a non-negative integer
    | SetTo(target: UserId, days: int)

  function ReadStreakReply(row: Option<Conversation>, text: string): (r: StreakReply)
    ensures r == NotWaiting <==> row.None? || row.value.state != WaitingCustomStreak
    ensures r == BadContext <==> row.Some? && row.value.state == WaitingCustomStreak
                                 && ParseInt(row.value.context).None?
    ensures r == NotANonNegative <==>
              row.Some? && row.value.state == WaitingCustomStreak && ParseInt(row.value.context).Some?
              && !(ParseInt(TrimSpace(text)).Some? && ParseInt(TrimSpace(text)).value >= 0)
    ensures r.SetTo? ==> row.Some? && ParseInt(row.value.context) == Some(r.target)
                         && ParseInt(TrimSpace(text)) == Some(r.days) && r.days >= 0
  {
    if row.None? || row.value.state != WaitingCustomStreak then NotWaiting
    else match ParseInt(row.value.context)
      case None => BadContext
      case Some(target) =>
        match ParseInt(TrimSpace(text))
        case Some(days) => if days < 0 then NotANonNegative else SetTo(target, days)
        case None => NotANonNegative
  }

  /**
    The conversation opened for a participant, answered with any numeral Atoi accepts
    (a sign and leading zeros allowed) between white space, asks to set that participant's
    streak to the numeral's value when it is not negative.
  */
  lemma ReplyToOpenedConversation(target: UserId, front: string, numeral: string, back: string)
    requires IsInt64(target)
    requires ParseInt(numeral).Some? && ParseInt(numeral).value >= 0
    requires AllSpace(front) && AllSpace(back)
    ensures ReadStreakReply(Some(Conversation(WaitingCustomStreak, FormatInt(target))), front + numeral + back)
            == SetTo(target, ParseInt(numeral).value)
  {
    var t := numeral;
    assert !IsSpace(t[0]);
    assert IsDigit(t[|t| - 1]) by {
      if |t| > 1 { assert t[|t| - 1] == t[1..][|t| - 2]; }
    }
    TrimSpaceOfPadded(front, t, back);
    ParseFormatRoundTrip(target);
  }

  /** The ledger, achievements and reply a handler leaves behind. */
  datatype Effect = Effect(completions: Ledger, awards: Awards, outcome: Outcome)

  /** What SetUserStreak(u, n) does to the ledger `c` and the achievements `a`. */
  function StreakSetting(c: Ledger, a: Awards, p: map<UserId, Participant>, u: UserId, n: int, today: Day): (e: Effect)
    ensures u !in p ==> e == Effect(c, a, Failed(UnknownParticipant))
    ensures u in p ==> e.completions == StreakReset(c, u, n, today) && e.outcome.StreakSet?
    ensures u in p ==> e.awards == Award(a, p, u, IndividualStreak(e.completions, u, today), today).awards
    ensures Tiered(a) ==> Tiered(e.awards)
  {
    if u !in p then Effect(c, a, Failed(UnknownParticipant))
    else
      var reset := StreakReset(c, u, n, today);
      var r := Award(a, p, u, IndividualStreak(reset, u, today), today);
      Effect(reset, r.awards, StreakSet(r.notices))
  }

  /**
    What handleCompleteChallenge does to the ledger `c` and the achievements `a`: today is
    recorded once, and the achievements are checked for the streak that record makes.
  */
  function TodayMarked(c: Ledger, a: Awards, p: map<UserId, Participant>, u: UserId, today: Day): (e: Effect)
    ensures (u, today) in c ==> e == Effect(c, a, AlreadyCompleted)
    ensures (u, today) !in c ==>
              var streak := IndividualStreak(e.completions, u, today);
              var r := Award(a, p, u, streak, today);
              && e.completions == c + {(u, today)}
              && e.awards == r.awards
              && e.outcome == if r.failed then Failed(UnknownParticipant) else Completed(streak, r.notices)
    ensures Tiered(a) ==> Tiered(e.awards)
  {
    if (u, today) in c then Effect(c, a, AlreadyCompleted)
    else
      var streak := Run(c, u, today - 1) + 1;
      var r := Award(a, p, u, streak, today);
      MarkTodayStreak(c, u, today);
      Effect(c + {(u, today)}, r.awards, if r.failed then Failed(UnknownParticipant) else Completed(streak, r.notices))
  }

  /**
    What handleMarkYesterday does: the same for yesterday's record, with the streak still
    ending today and a failed achievement check only logged.
  */
  function YesterdayMarked(c: Ledger, a: Awards, p: map<UserId, Participant>, u: UserId, today: Day): (e: Effect)
    ensures (u, today - 1) in c ==> e == Effect(c, a, AlreadyCompleted)
    ensures (u, today - 1) !in c ==>
              var streak := IndividualStreak(e.completions, u, today);
              var r := Award(a, p, u, streak, today);
              && e.completions == c + {(u, today - 1)}
              && e.awards == r.awards
              && e.outcome == Completed(streak, r.notices)
    ensures Tiered(a) ==> Tiered(e.awards)
  {
    if (u, today - 1) in c then Effect(c, a, AlreadyCompleted)
    else
      var streak := 1 + Run(c, u, today - 2) + (if (u, today) in c then 1 else 0);
      var r := Award(a, p, u, streak, today);
      MarkYesterdayStreak(c, u, today);
      Effect(c + {(u, today - 1)}, r.awards, Completed(streak, r.notices))
  }

  /** What handleUndoComplete does: today's record goes, the achievements stay. */
  function TodayUndone(c: Ledger, a: Awards, u: UserId, today: Day): (e: Effect)
    ensures e.completions == c - {(u, today)} && e.awards == a
    ensures e.outcome == Undone <==> (u, today) in c
    ensures e.outcome == NothingToUndo <==> (u, today) !in c
    ensures IndividualStreak(e.completions, u, today) == Run(c, u, today - 1)
  {
    UndoTodayStreak(c, u, today);
    Effect(c - {(u, today)}, a, if (u, today) in c then Undone else NothingToUndo)
  }

  /** The callbacks whose handlers write the completion ledger. */
  predicate CallbackChangesLedger(route: CallbackRoute)
  {
    route == CompleteChallenge || route == UndoComplete || route == SetStreakPick
  }

  /** The message routes whose handlers write any table. */
  predicate MessageChangesState(route: MessageRoute)
  {
    route == MarkToday || route == MarkYesterday || route == CustomStreakReply || route == NameReply
  }

  class Store {
    var participants: map<UserId, Participant>
    var completions: Ledger
    var awards: Awards
    var pendingJoins: map<UserId, ChatId>
    var conversations: map<(UserId, ChatId), Conversation>

    /** The invariant every handler keeps: a 365-day award is always preceded by the 100-day one. */
    ghost predicate Valid()
      reads this`awards
    {
      Tiered(awards)
    }

    constructor ()
      ensures Valid()
      ensures participants == map[] && completions == {} && awards == map[]
      ensures pendingJoins == map[] && conversations == map[]
    {
      participants := map[];
      completions := {};
      awards := map[];
      pendingJoins := map[];
      conversations := map[];
    }

    /** A `waiting_custom_streak` row exists for this (user, chat). */
    predicate AwaitingStreak(u: UserId, chat: ChatId)
      reads this`conversations
    {
      (u, chat) in conversations && conversations[(u, chat)].state == WaitingCustomStreak
    }

    /** A pending join exists for this (user, chat). */
    predicate AwaitingName(u: UserId, chat: ChatId)
      reads this`pendingJoins
    {
      u in pendingJoins && pendingJoins[u] == chat
    }

    // -------------------------------------------------------------------------
    // Queries
    // -------------------------------------------------------------------------

    /** getIndividualStreak: walk back from yesterday while the user has a record, then add today. */
    method GetIndividualStreak(u: UserId, today: Day) returns (streak: nat)
      ensures streak == IndividualStreak(completions, u, today)
    {
      streak := 0;
      var current := today - 1;
      while (u, current) in completions
        invariant streak + Run(completions, u, current) == Run(completions, u, today - 1)
        decreases |UpTo(completions, current)|
      {
        UpToShrinks(completions, u, current);
        streak := streak + 1;
        current := current - 1;
      }
      if (u, today) in completions {
        streak := streak + 1;
      }
    }

    /**
      getConsecutiveCompletionDays: walk back from yesterday while every eligible participant
      has a record (compared by counts, as the SQL does), then add today on the same test.
    */
    method GetConsecutiveCompletionDays(today: Day) returns (streak: nat)
      ensures streak == GroupStreak(participants, completions, today)
    {
      streak := 0;
      var current := today - 1;
      while true
        invariant streak + GroupRun(participants, completions, current)
                  == GroupRun(participants, completions, today - 1)
        decreases |UpTo(completions, current)|
      {
        var completed := |CompletedOn(participants, completions, current)|;
        var total := |Eligible(participants, current)|;
        CountsDecideDay(participants, completions, current);
        if completed != total || total == 0 {
          break;
        }
        GroupDayShrinks(participants, completions, current);
        streak := streak + 1;
        current := current - 1;
      }
      var completedToday := |CompletedOn(participants, completions, today)|;
      var totalToday := |Eligible(participants, today)|;
      CountsDecideDay(participants, completions, today);
      if completedToday == totalToday && totalToday > 0 {
        streak := streak + 1;
      }
    }

    /**
      The recipients of sendDailyReminders and sendLastChanceReminders: every participant
      without a record for today, with the chat to write to.
    */
    method ReminderRecipients(today: Day) returns (targets: map<UserId, ChatId>)
      ensures forall u :: u in targets <==> u in participants && (u, today) !in completions
      ensures forall u :: u in targets ==> targets[u] == participants[u].chatId
    {
      targets := map[];
      var pending := participants.Keys;
      while pending != {}
        invariant pending <= participants.Keys
        invariant forall u :: u in targets <==>
                    u in participants && u !in pending && (u, today) !in completions
        invariant forall u :: u in targets ==> targets[u] == participants[u].chatId
        decreases |pending|
      {
        ghost var some := SomeElement(pending);
        var u :| u in pending;
        if (u, today) !in completions {
          targets := targets[u := participants[u].chatId];
        }
        pending := pending - {u};
      }
    }

    // -------------------------------------------------------------------------
    // Achievements
    // -------------------------------------------------------------------------

    /**
      checkAndRecordAchievements: the 100-day tier, then the 365-day tier. The chat lookup
      of a non-participant fails after the row was inserted, and the call stops there.
    */
    method CheckAndRecordAchievements(u: UserId, streak: int, today: Day) returns (notices: seq<Notice>, failed: bool)
      requires Valid()
      modifies this`awards
      ensures Valid()
      ensures var r := Award(old(awards), participants, u, streak, today);
              awards == r.awards && notices == r.notices && failed == r.failed
    {
      notices, failed := [], false;
      if streak >= 100 && (u, Days100) !in awards {
        awards := awards[(u, Days100) := today];
        if u !in participants {
          failed := true;
          return;
        }
        notices := notices + [Congratulate(participants[u].chatId, Days100)];
      }
      if streak >= 365 && (u, Days365) !in awards {
        awards := awards[(u, Days365) := today];
        if u !in participants {
          failed := true;
          return;
        }
        notices := notices + [Congratulate(participants[u].chatId, Days365)];
      }
    }

    // -------------------------------------------------------------------------
    // The completion ledger
    // -------------------------------------------------------------------------

    /**
      handleCompleteChallenge: a second completion on the same day is refused; otherwise the
      record is inserted, the streak recomputed and the achievements checked, whose failure
      is the handler's failure (the record stays).
    */
    method HandleCompleteChallenge(u: UserId, today: Day) returns (outcome: Outcome)
      requires Valid()
      modifies this`completions, this`awards
      ensures Valid()
      ensures participants == old(participants) && pendingJoins == old(pendingJoins) && conversations == old(conversations)
      ensures (u, today) in old(completions) ==>
                outcome == AlreadyCompleted && completions == old(completions) && awards == old(awards)
      ensures (u, today) !in old(completions) ==>
                var streak := Run(old(completions), u, today - 1) + 1;
                var r := Award(old(awards), participants, u, streak, today);
                && completions == old(completions) + {(u, today)}
                && awards == r.awards
                && outcome == (if r.failed then Failed(UnknownParticipant) else Completed(streak, r.notices))
      ensures Effect(completions, awards, outcome) == TodayMarked(old(completions), old(awards), participants, u, today)
    {
      if (u, today) in completions {
        return AlreadyCompleted;
      }
      MarkTodayStreak(completions, u, today);
      completions := completions + {(u, today)};
      var streak := GetIndividualStreak(u, today);
      var notices, failed := CheckAndRecordAchievements(u, streak, today);
      outcome := if failed then Failed(UnknownParticipant) else Completed(streak, notices);
    }

    /**
      handleMarkYesterday: the same for yesterday's record. The streak still ends today, and
      a failed achievement check is only logged.
    */
    method HandleMarkYesterday(u: UserId, today: Day) returns (outcome: Outcome)
      requires Valid()
      modifies this`completions, this`awards
      ensures Valid()
      ensures participants == old(participants) && pendingJoins == old(pendingJoins) && conversations == old(conversations)
      ensures (u, today - 1) in old(completions) ==>
                outcome == AlreadyCompleted && completions == old(completions) && awards == old(awards)
      ensures (u, today - 1) !in old(completions) ==>
                var streak := 1 + Run(old(completions), u, today - 2)
                              + (if (u, today) in old(completions) then 1 else 0);
                var r := Award(old(awards), participants, u, streak, today);
                && completions == old(completions) + {(u, today - 1)}
                && awards == r.awards
                && outcome == Completed(streak, r.notices)
      ensures Effect(completions, awards, outcome) == YesterdayMarked(old(completions), old(awards), participants, u, today)
    {
      if (u, today - 1) in completions {
        return AlreadyCompleted;
      }
      MarkYesterdayStreak(completions, u, today);
      completions := completions + {(u, today - 1)};
      var streak := GetIndividualStreak(u, today);
      var notices, failed := CheckAndRecordAchievements(u, streak, today);
      outcome := Completed(streak, notices);
    }

    /** handleUndoComplete: removes today's record, and nothing else. */
    method HandleUndoComplete(u: UserId, today: Day) returns (outcome: Outcome)
      modifies this`completions
      ensures completions == old(completions) - {(u, today)}
      ensures outcome == if (u, today) in old(completions) then Undone else NothingToUndo
      ensures IndividualStreak(completions, u, today) == Run(old(completions), u, today - 1)
      ensures Effect(completions, awards, outcome) == TodayUndone(old(completions), old(awards), u, today)
    {
      UndoTodayStreak(completions, u, today);
      if (u, today) !in completions {
        return NothingToUndo;
      }
      completions := completions - {(u, today)};
      outcome := Undone;
    }

    /**
      SetUserStreak: for a participant, delete the days `today - n .. today`, insert the days
      `today - n + 1 .. today` one by one (oldest first), then check achievements for the new
      streak. An unknown user is an error and changes nothing.
    */
    method SetUserStreak(u: UserId, n: int, today: Day) returns (outcome: Outcome)
      requires Valid()
      modifies this`completions, this`awards
      ensures Valid()
      ensures u !in participants ==>
                outcome == Failed(UnknownParticipant) && completions == old(completions) && awards == old(awards)
      ensures u in participants ==>
                var r := Award(old(awards), participants, u, IndividualStreak(completions, u, today), today);
                && completions == StreakReset(old(completions), u, n, today)
                && awards == r.awards
                && outcome == StreakSet(r.notices)
      ensures u in participants && n >= 1 ==> IndividualStreak(completions, u, today) == n
      ensures Effect(completions, awards, outcome)
              == StreakSetting(old(completions), old(awards), participants, u, n, today)
    {
      if u !in participants {
        return Failed(UnknownParticipant);
      }
      if n >= 0 {
        completions := completions - DaysOf(u, today - n, today);
      }
      ghost var cleared := completions;
      var i := n - 1;
      while i >= 0
        invariant i <= n - 1 && (i >= -1 || i == n - 1)
        invariant completions == cleared + DaysOf(u, today - n + 1, today - i - 1)
        invariant awards == old(awards)
      {
        // The window was cleared and only older days were refilled, so the plain INSERT
        // never meets an existing (user, day) key (with the window inside SQLite's date range).
        assert (u, today - i) !in completions;
        DaysOfGrows(u, today - n + 1, today - i - 1);
        completions := completions + {(u, today - i)};
        i := i - 1;
      }
      assert completions == StreakReset(old(completions), u, n, today);
      if n >= 1 {
        StreakResetGivesStreak(old(completions), u, n, today);
      }
      var streak := GetIndividualStreak(u, today);
      var notices, failed := CheckAndRecordAchievements(u, streak, today);
      outcome := StreakSet(notices);
    }

    // -------------------------------------------------------------------------
    // Joining
    // -------------------------------------------------------------------------

    /** handleJoinChallenge: remember that the user's next reply in this chat is their name. */
    method HandleJoinChallenge(u: UserId, chat: ChatId) returns (outcome: Outcome)
      modifies this`pendingJoins
      ensures pendingJoins == old(pendingJoins)[u := chat]
      ensures AwaitingName(u, chat)
      ensures outcome == AskName
    {
      pendingJoins := pendingJoins[u := chat];
      outcome := AskName;
    }

    /**
      handleNameResponse: INSERT OR REPLACE the participant (a re-join replaces the row and so
      restarts the join day), then drop every pending join of the user.
    */
    method HandleNameResponse(u: UserId, username: string, chat: ChatId, name: string, today: Day)
      returns (outcome: Outcome)
      modifies this`participants, this`pendingJoins
      ensures participants == old(participants)[u := Participant(username, chat, name, today)]
      ensures pendingJoins == old(pendingJoins) - {u}
      ensures forall c :: !AwaitingName(u, c)
      ensures completions == old(completions) && awards == old(awards) && conversations == old(conversations)
      ensures outcome == Joined
    {
      participants := participants[u := Participant(username, chat, name, today)];
      pendingJoins := pendingJoins - {u};
      outcome := Joined;
    }

    // -------------------------------------------------------------------------
    // The streak-adjustment conversation
    // -------------------------------------------------------------------------

    /**
      handleCustomStreakCallback: after "other value" is pressed, record that this user's
      next text in this chat is the streak of the picked participant, whose id is the context.
    */
    method HandleCustomStreakCallback(sender: UserId, chat: ChatId, data: string) returns (outcome: Outcome)
      modifies this`conversations
      ensures ParseCustomStreak(data).Err? ==>
                outcome == Failed(FailureOf(ParseCustomStreak(data).error))
                && conversations == old(conversations)
      ensures ParseCustomStreak(data).Ok? ==>
                var target := ParseCustomStreak(data).value;
                && conversations == old(conversations)[(sender, chat) := Conversation(WaitingCustomStreak, FormatInt(target))]
                && AwaitingStreak(sender, chat)
                && ParseInt(conversations[(sender, chat)].context) == Some(target)
                && outcome == AskStreakValue
    {
      match ParseCustomStreak(data)
      case Err(e) =>
        outcome := Failed(FailureOf(e));
      case Ok(target) =>
        ParseFormatRoundTrip(target);
        conversations := conversations[(sender, chat) := Conversation(WaitingCustomStreak, FormatInt(target))];
        outcome := AskStreakValue;
    }

    /** The `bot_state` row of this (user, chat), if any. */
    function Row(u: UserId, chat: ChatId): (row: Option<Conversation>)
      reads this`conversations
      ensures row.Some? && row.value.state == WaitingCustomStreak <==> AwaitingStreak(u, chat)
    {
      if (u, chat) in conversations then Some(conversations[(u, chat)]) else None
    }

    /**
      handleCustomStreakInput: the user's reply to the prompt. A reply that is not a
      non-negative integer is re-prompted; a failed SetUserStreak is reported; in both cases
      the conversation stays open. Only a successful SetUserStreak closes it.
    */
    method HandleCustomStreakInput(sender: UserId, chat: ChatId, text: string, today: Day) returns (outcome: Outcome)
      requires Valid()
      modifies this`completions, this`awards, this`conversations
      ensures Valid()
      ensures participants == old(participants) && pendingJoins == old(pendingJoins)
      ensures var reply := ReadStreakReply(old(Row(sender, chat)), text);
              !reply.SetTo? ==>
                && completions == old(completions) && awards == old(awards)
                && conversations == old(conversations)
                && (reply == NotWaiting ==> outcome == Unchanged)
                && (reply == BadContext ==> outcome == Failed(BadNumber))
                && (reply == NotANonNegative ==> outcome == InvalidStreakValue)
      ensures var reply := ReadStreakReply(old(Row(sender, chat)), text);
              reply.SetTo? && reply.target !in participants ==>
                && completions == old(completions) && awards == old(awards)
                && conversations == old(conversations)
                && outcome == Failed(UnknownParticipant)
      ensures var reply := ReadStreakReply(old(Row(sender, chat)), text);
              reply.SetTo? && reply.target in participants ==>
                && completions == StreakReset(old(completions), reply.target, reply.days, today)
                && awards == Award(old(awards), participants, reply.target,
                                   IndividualStreak(completions, reply.target, today), today).awards
                && conversations == old(conversations) - {(sender, chat)}
                && outcome.StreakSet?
      ensures var reply := ReadStreakReply(old(Row(sender, chat)), text);
              reply.SetTo? ==>
                Effect(completions, awards, outcome)
                == StreakSetting(old(completions), old(awards), participants, reply.target, reply.days, today)
    {
      var reply := ReadStreakReply(Row(sender, chat), text);
      match reply
      case NotWaiting =>
        outcome := Unchanged;
      case BadContext =>
        outcome := Failed(BadNumber);
      case NotANonNegative =>
        outcome := InvalidStreakValue;
      case SetTo(target, days) =>
        outcome := ApplyCustomStreak(sender, chat, target, days, today);
    }

    /** The end of handleCustomStreakInput: set the streak, and close the conversation only if that worked. */
    method ApplyCustomStreak(sender: UserId, chat: ChatId, target: UserId, days: int, today: Day) returns (outcome: Outcome)
      requires Valid()
      modifies this`completions, this`awards, this`conversations
      ensures Valid()
      ensures participants == old(participants) && pendingJoins == old(pendingJoins)
      ensures target !in participants ==>
                && completions == old(completions) && awards == old(awards)
                && conversations == old(conversations)
                && outcome == Failed(UnknownParticipant)
      ensures target in participants ==>
                && completions == StreakReset(old(completions), target, days, today)
                && awards == Award(old(awards), participants, target,
                                   IndividualStreak(completions, target, today), today).awards
                && conversations == old(conversations) - {(sender, chat)}
                && outcome.StreakSet?
      ensures Effect(completions, awards, outcome)
              == StreakSetting(old(completions), old(awards), participants, target, days, today)
    {
      outcome := SetUserStreak(target, days, today);
      if !outcome.Failed? {
        conversations := conversations - {(sender, chat)};
      }
    }

    /** handleSetStreakCallback: a preset button was pressed. */
    method HandleSetStreakCallback(data: string, today: Day) returns (outcome: Outcome)
      requires Valid()
      modifies this`completions, this`awards
      ensures Valid()
      ensures ParseSetStreak(data).Err? ==>
                outcome == Failed(FailureOf(ParseSetStreak(data).error))
                && completions == old(completions) && awards == old(awards)
      ensures ParseSetStreak(data).Ok? ==>
                var (target, days) := ParseSetStreak(data).value;
                && (target in participants ==>
                      var r := Award(old(awards), participants, target, IndividualStreak(completions, target, today), today);
                      && completions == StreakReset(old(completions), target, days, today)
                      && awards == r.awards
                      && outcome == StreakSet(r.notices))
                && (target !in participants ==> completions == old(completions) && awards == old(awards)
                                                && outcome == Failed(UnknownParticipant))
                && Effect(completions, awards, outcome)
                   == StreakSetting(old(completions), old(awards), participants, target, days, today)
    {
      match ParseSetStreak(data)
      case Err(e) =>
        outcome := Failed(FailureOf(e));
      case Ok((target, days)) =>
        outcome := SetUserStreak(target, days, today);
    }

    // -------------------------------------------------------------------------
    // Dispatch
    // -------------------------------------------------------------------------

    /**
      The text-message branch of the update loop. Commands and buttons never touch the
      conversation state; a pending conversation is served only for other text.
    */
    method HandleMessage(u: UserId, username: string, chat: ChatId, text: string, isReply: bool, today: Day)
      returns (outcome: Outcome)
      requires Valid()
      modifies this
      ensures Valid()
      ensures var route := RouteMessage(text, old(AwaitingStreak(u, chat)), isReply, old(AwaitingName(u, chat)));
              && (route != NameReply ==> participants == old(participants) && pendingJoins == old(pendingJoins))
              && (route != CustomStreakReply ==> conversations == old(conversations))
              && (!MessageChangesState(route) ==>
                    completions == old(completions) && awards == old(awards) && outcome == Unchanged)
              && (route == MarkToday ==> completions == old(completions) + {(u, today)})
              && (route == MarkYesterday ==> completions == old(completions) + {(u, today - 1)})
              && (route == NameReply ==>
                    && participants == old(participants)[u := Participant(username, chat, text, today)]
                    && pendingJoins == old(pendingJoins) - {u}
                    && completions == old(completions) && awards == old(awards)
                    && outcome == Joined)
      ensures RouteMessage(text, old(AwaitingStreak(u, chat)), isReply, old(AwaitingName(u, chat))) == MarkToday ==>
                Effect(completions, awards, outcome) == TodayMarked(old(completions), old(awards), participants, u, today)
      ensures RouteMessage(text, old(AwaitingStreak(u, chat)), isReply, old(AwaitingName(u, chat))) == MarkYesterday ==>
                Effect(completions, awards, outcome) == YesterdayMarked(old(completions), old(awards), participants, u, today)
      ensures RouteMessage(text, old(AwaitingStreak(u, chat)), isReply, old(AwaitingName(u, chat))) == MarkToday
              && (u, today) !in old(completions) ==>
                awards == Award(old(awards), participants, u, Run(old(completions), u, today - 1) + 1, today).awards
      ensures RouteMessage(text, old(AwaitingStreak(u, chat)), isReply, old(AwaitingName(u, chat))) == CustomStreakReply ==>
                var reply := ReadStreakReply(old(Row(u, chat)), text);
                && (!reply.SetTo? ==> completions == old(completions) && awards == old(awards)
                                      && conversations == old(conversations))
                && (reply == NotWaiting ==> outcome == Unchanged)
                && (reply == BadContext ==> outcome == Failed(BadNumber))
                && (reply == NotANonNegative ==> outcome == InvalidStreakValue)
                && (reply.SetTo? ==>
                      && Effect(completions, awards, outcome)
                         == StreakSetting(old(completions), old(awards), participants, reply.target, reply.days, today)
                      && conversations == if reply.target in participants then old(conversations) - {(u, chat)}
                                          else old(conversations))
    {
      var route := RouteMessage(text, AwaitingStreak(u, chat), isReply, AwaitingName(u, chat));
      outcome := RunMessage(route, u, username, chat, text, today);
    }

    /** The handler a message route selects. */
    method RunMessage(route: MessageRoute, u: UserId, username: string, chat: ChatId, text: string, today: Day)
      returns (outcome: Outcome)
      requires Valid()
      modifies this
      ensures Valid()
      ensures route != NameReply ==> participants == old(participants) && pendingJoins == old(pendingJoins)
      ensures route != CustomStreakReply ==> conversations == old(conversations)
      ensures !MessageChangesState(route) ==>
                completions == old(completions) && awards == old(awards) && outcome == Unchanged
      ensures route == MarkToday ==> completions == old(completions) + {(u, today)}
      ensures route == MarkToday && (u, today) !in old(completions) ==>
                awards == Award(old(awards), participants, u, Run(old(completions), u, today - 1) + 1, today).awards
      ensures route == MarkYesterday ==> completions == old(completions) + {(u, today - 1)}
      ensures route == MarkToday ==>
                Effect(completions, awards, outcome) == TodayMarked(old(completions), old(awards), participants, u, today)
      ensures route == MarkYesterday ==>
                Effect(completions, awards, outcome) == YesterdayMarked(old(completions), old(awards), participants, u, today)
      ensures route == CustomStreakReply ==>
                var reply := ReadStreakReply(old(Row(u, chat)), text);
                && (!reply.SetTo? ==> completions == old(completions) && awards == old(awards)
                                      && conversations == old(conversations))
                && (reply == NotWaiting ==> outcome == Unchanged)
                && (reply == BadContext ==> outcome == Failed(BadNumber))
                && (reply == NotANonNegative ==> outcome == InvalidStreakValue)
                && (reply.SetTo? ==>
                      && Effect(completions, awards, outcome)
                         == StreakSetting(old(completions), old(awards), participants, reply.target, reply.days, today)
                      && conversations == if reply.target in participants then old(conversations) - {(u, chat)}
                                          else old(conversations))
      ensures route == NameReply ==>
                && participants == old(participants)[u := Participant(username, chat, text, today)]
                && pendingJoins == old(pendingJoins) - {u}
                && completions == old(completions) && awards == old(awards)
                && conversations == old(conversations)
                && outcome == Joined
    {
      if route == NameReply {
        outcome := HandleNameResponse(u, username, chat, text, today);
      } else {
        outcome := RunStreakMessage(route, u, chat, text, today);
      }
    }

    /** The message routes other than a name reply: they may write the ledger and the conversation. */
    method RunStreakMessage(route: MessageRoute, u: UserId, chat: ChatId, text: string, today: Day)
      returns (outcome: Outcome)
      requires Valid()
      requires route != NameReply
      modifies this`completions, this`awards, this`conversations
      ensures Valid()
      ensures participants == old(participants) && pendingJoins == old(pendingJoins)
      ensures route != CustomStreakReply ==> conversations == old(conversations)
      ensures !MessageChangesState(route) ==>
                completions == old(completions) && awards == old(awards) && outcome == Unchanged
      ensures route == MarkToday ==> completions == old(completions) + {(u, today)}
      ensures route == MarkToday && (u, today) !in old(completions) ==>
                awards == Award(old(awards), participants, u, Run(old(completions), u, today - 1) + 1, today).awards
      ensures route == MarkYesterday ==> completions == old(completions) + {(u, today - 1)}
      ensures route == MarkToday ==>
                Effect(completions, awards, outcome) == TodayMarked(old(completions), old(awards), participants, u, today)
      ensures route == MarkYesterday ==>
                Effect(completions, awards, outcome) == YesterdayMarked(old(completions), old(awards), participants, u, today)
      ensures route == CustomStreakReply ==>
                var reply := ReadStreakReply(old(Row(u, chat)), text);
                && (!reply.SetTo? ==> completions == old(completions) && awards == old(awards)
                                      && conversations == old(conversations))
                && (reply == NotWaiting ==> outcome == Unchanged)
                && (reply == BadContext ==> outcome == Failed(BadNumber))
                && (reply == NotANonNegative ==> outcome == InvalidStreakValue)
                && (reply.SetTo? ==>
                      && Effect(completions, awards, outcome)
                         == StreakSetting(old(completions), old(awards), participants, reply.target, reply.days, today)
                      && conversations == if reply.target in participants then old(conversations) - {(u, chat)}
                                          else old(conversations))
    {
      match route
      case MarkToday =>
        outcome := HandleCompleteChallenge(u, today);
      case MarkYesterday =>
        outcome := HandleMarkYesterday(u, today);
      case CustomStreakReply =>
        outcome := HandleCustomStreakInput(u, chat, text, today);
      case _ =>
        outcome := Unchanged;
    }

    /**
      The callback branch of the update loop: the route is decided on the data alone (exact
      data first, then the prefix), and the participant table is never changed by a button.
    */
    method HandleCallback(u: UserId, chat: ChatId, data: string, today: Day) returns (outcome: Outcome)
      requires Valid()
      modifies this
      ensures Valid()
      ensures participants == old(participants)
      ensures RouteCallback(data) == JoinChallenge ==> pendingJoins == old(pendingJoins)[u := chat] && outcome == AskName
      ensures RouteCallback(data) != JoinChallenge ==> pendingJoins == old(pendingJoins)
      ensures RouteCallback(data) != CustomStreakPick ==> conversations == old(conversations)
      ensures !CallbackChangesLedger(RouteCallback(data)) ==> completions == old(completions) && awards == old(awards)
      ensures RouteCallback(data) == CompleteChallenge ==> completions == old(completions) + {(u, today)}
      ensures RouteCallback(data) == CompleteChallenge ==>
                Effect(completions, awards, outcome) == TodayMarked(old(completions), old(awards), participants, u, today)
      ensures RouteCallback(data) == UndoComplete ==>
                Effect(completions, awards, outcome) == TodayUndone(old(completions), old(awards), u, today)
      ensures RouteCallback(data) == CompleteChallenge && (u, today) !in old(completions) ==>
                awards == Award(old(awards), participants, u, Run(old(completions), u, today - 1) + 1, today).awards
      ensures RouteCallback(data) == UndoComplete ==> completions == old(completions) - {(u, today)}
      ensures RouteCallback(data) == AdjustStreakPick && ParseAdjustStreak(data).Ok? ==>
                outcome == OfferStreaks(StreakKeyboard(ParseAdjustStreak(data).value))
      ensures RouteCallback(data) == AdjustStreakPick && ParseAdjustStreak(data).Err? ==>
                outcome == Failed(FailureOf(ParseAdjustStreak(data).error))
      ensures RouteCallback(data) == SetStreakPick && ParseSetStreak(data).Err? ==>
                completions == old(completions) && awards == old(awards)
                && outcome == Failed(FailureOf(ParseSetStreak(data).error))
      ensures RouteCallback(data) == SetStreakPick && ParseSetStreak(data).Ok? ==>
                var (target, days) := ParseSetStreak(data).value;
                Effect(completions, awards, outcome)
                == StreakSetting(old(completions), old(awards), participants, target, days, today)
      ensures RouteCallback(data) == CustomStreakPick && ParseCustomStreak(data).Err? ==> conversations == old(conversations)
      ensures RouteCallback(data) == CustomStreakPick && ParseCustomStreak(data).Ok? ==>
                && conversations == old(conversations)[(u, chat) := Conversation(WaitingCustomStreak, FormatInt(ParseCustomStreak(data).value))]
                && outcome == AskStreakValue
    {
      outcome := RunCallback(RouteCallback(data), u, chat, data, today);
    }

    /** The handler a callback route selects. */
    method RunCallback(route: CallbackRoute, u: UserId, chat: ChatId, data: string, today: Day) returns (outcome: Outcome)
      requires Valid()
      modifies this
      ensures Valid()
      ensures participants == old(participants)
      ensures route == JoinChallenge ==> pendingJoins == old(pendingJoins)[u := chat] && outcome == AskName
      ensures route != JoinChallenge ==> pendingJoins == old(pendingJoins)
      ensures route != CustomStreakPick ==> conversations == old(conversations)
      ensures !CallbackChangesLedger(route) ==> completions == old(completions) && awards == old(awards)
      ensures route == CompleteChallenge ==> completions == old(completions) + {(u, today)}
      ensures route == CompleteChallenge ==>
                Effect(completions, awards, outcome) == TodayMarked(old(completions), old(awards), participants, u, today)
      ensures route == UndoComplete ==>
                Effect(completions, awards, outcome) == TodayUndone(old(completions), old(awards), u, today)
      ensures route == CompleteChallenge && (u, today) !in old(completions) ==>
                awards == Award(old(awards), participants, u, Run(old(completions), u, today - 1) + 1, today).awards
      ensures route == UndoComplete ==> completions == old(completions) - {(u, today)}
      ensures route == AdjustStreakPick && ParseAdjustStreak(data).Ok? ==>
                outcome == OfferStreaks(StreakKeyboard(ParseAdjustStreak(data).value))
      ensures route == AdjustStreakPick && ParseAdjustStreak(data).Err? ==>
                outcome == Failed(FailureOf(ParseAdjustStreak(data).error))
      ensures route == SetStreakPick && ParseSetStreak(data).Err? ==>
                completions == old(completions) && awards == old(awards)
                && outcome == Failed(FailureOf(ParseSetStreak(data).error))
      ensures route == SetStreakPick && ParseSetStreak(data).Ok? ==>
                var (target, days) := ParseSetStreak(data).value;
                Effect(completions, awards, outcome)
                == StreakSetting(old(completions), old(awards), participants, target, days, today)
      ensures route == CustomStreakPick && ParseCustomStreak(data).Err? ==> conversations == old(conversations)
      ensures route == CustomStreakPick && ParseCustomStreak(data).Ok? ==>
                && conversations == old(conversations)[(u, chat) := Conversation(WaitingCustomStreak, FormatInt(ParseCustomStreak(data).value))]
                && outcome == AskStreakValue
    {
      if CallbackChangesLedger(route) {
        outcome := RunLedgerCallback(route, u, data, today);
      } else {
        outcome := RunChatCallback(route, u, chat, data);
      }
    }

    /** The buttons that write the completion ledger: mark today, undo today, a preset streak. */
    method RunLedgerCallback(route: CallbackRoute, u: UserId, data: string, today: Day) returns (outcome: Outcome)
      requires Valid()
      requires CallbackChangesLedger(route)
      modifies this`completions, this`awards
      ensures Valid()
      ensures route == CompleteChallenge ==> completions == old(completions) + {(u, today)}
      ensures route == CompleteChallenge ==>
                Effect(completions, awards, outcome) == TodayMarked(old(completions), old(awards), participants, u, today)
      ensures route == UndoComplete ==>
                Effect(completions, awards, outcome) == TodayUndone(old(completions), old(awards), u, today)
      ensures route == CompleteChallenge && (u, today) !in old(completions) ==>
                awards == Award(old(awards), participants, u, Run(old(completions), u, today - 1) + 1, today).awards
      ensures route == UndoComplete ==> completions == old(completions) - {(u, today)} && awards == old(awards)
      ensures route == SetStreakPick && ParseSetStreak(data).Err? ==>
                completions == old(completions) && awards == old(awards)
                && outcome == Failed(FailureOf(ParseSetStreak(data).error))
      ensures route == SetStreakPick && ParseSetStreak(data).Ok? ==>
                var (target, days) := ParseSetStreak(data).value;
                Effect(completions, awards, outcome)
                == StreakSetting(old(completions), old(awards), participants, target, days, today)
    {
      match route
      case CompleteChallenge =>
        outcome := HandleCompleteChallenge(u, today);
      case UndoComplete =>
        outcome := HandleUndoComplete(u, today);
      case SetStreakPick =>
        outcome := HandleSetStreakCallback(data, today);
    }

    /** The other buttons: they only open a conversation or answer with a prompt or a keyboard. */
    method RunChatCallback(route: CallbackRoute, u: UserId, chat: ChatId, data: string) returns (outcome: Outcome)
      requires !CallbackChangesLedger(route)
      modifies this`pendingJoins, this`conversations
      ensures route == JoinChallenge ==> pendingJoins == old(pendingJoins)[u := chat] && outcome == AskName
      ensures route != JoinChallenge ==> pendingJoins == old(pendingJoins)
      ensures route != CustomStreakPick ==> conversations == old(conversations)
      ensures route == AdjustStreakPick && ParseAdjustStreak(data).Ok? ==>
                outcome == OfferStreaks(StreakKeyboard(ParseAdjustStreak(data).value))
      ensures route == AdjustStreakPick && ParseAdjustStreak(data).Err? ==>
                outcome == Failed(FailureOf(ParseAdjustStreak(data).error))
      ensures route == CustomStreakPick && ParseCustomStreak(data).Err? ==> conversations == old(conversations)
      ensures route == CustomStreakPick && ParseCustomStreak(data).Ok? ==>
                && conversations == old(conversations)[(u, chat) := Conversation(WaitingCustomStreak, FormatInt(ParseCustomStreak(data).value))]
                && outcome == AskStreakValue
    {
      match route
      case JoinChallenge =>
        outcome := HandleJoinChallenge(u, chat);
      case UpdateList =>
        outcome := Unchanged;
      case AdjustStreakPick =>
        var picked := ParseAdjustStreak(data);
        outcome := if picked.Ok? then OfferStreaks(StreakKeyboard(picked.value)) else Failed(FailureOf(picked.error));
      case CustomStreakPick =>
        outcome := HandleCustomStreakCallback(u, chat, data);
      case NoHandler =>
        outcome := Unchanged;
    }
  }
}
