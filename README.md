# Zaryadochka engagement core in Dafny

This project models "zaryadochka", a Telegram bot for a daily morning-exercise challenge.
People join a group challenge by giving a display name. Each day they mark that day, or
yesterday, as done. The bot shows each participant's own streak and the streak of days on
which every counted participant was done. It awards 100-day and 365-day achievements, and it
reminds the people who are not done yet at 12:00 and 21:00. Any user can set any
participant's streak through a two-step inline-keyboard dialogue, with an optional free-text
reply: the bot has no administrator check on `/adjuststreak`, on its buttons or on the reply.

The model follows the bot's own structure:

- `common.dfy` (`Common`): identifiers, days and the participant record.
- `text.dfy` (`Text`): the Go library functions the protocol relies on.
  - `strings.Split` and `strings.TrimSpace`, with Go's white-space set.
  - `strconv.ParseInt`, `Atoi` and `FormatInt`, with the 64-bit range.
- `callbacks.dfy` (`Callbacks`): the `tag:field:field` callback data.
  - Its formatters and its parsers.
  - The dispatch on the exact data or on the text before the first `:`.
- `routing.dfy` (`Routing`): which handler a text message goes to.
- `reminders.dfy` (`Reminders`): the two reminder timers and which one fires first.
- `streaks.dfy` (`Streaks`): the individual and group streak walks as functions of the
  completion ledger, their block characterisations, and the effect of the
  streak setter.
- `achievements.dfy` (`Achievements`): checkAndRecordAchievements as a function on the
  achievements table.
- `store.dfy` (`Bot`): the class `Store`.
  - Its fields are the five SQLite tables.
  - Its methods are the handlers, each proved against the functions above.
  - Two dispatchers route an update to a handler.

Days are integers: day `d + 1` follows day `d`. "Today" and the time of day are parameters,
never read from a clock. A Telegram message the bot would send becomes part of the returned
`Outcome`.

Four behaviours of the code shape the model:

- **Eligibility for a group day is strict.** `joined_at` is a timestamp
  `YYYY-MM-DD HH:MM:SS` that is compared as text with a bare date `YYYY-MM-DD`
  (main.go:602-606, 614-618). A participant therefore counts only for days strictly after
  the day they joined: on that day the participant neither counts nor blocks a group day.
- **A re-join resets the join day.** handleNameResponse writes the participant with
  `INSERT OR REPLACE` and does not list `joined_at` (main.go:249-252). The column goes back
  to its default, so the join day becomes the day of the new name.
- **A day can be marked without a participant row.**
  - handleCompleteChallenge and handleMarkYesterday never check the participants table.
  - The ledger model therefore accepts records of any user.
  - checkAndRecordAchievements for a user who is not a participant inserts the achievement
    row and then fails on the chat lookup.
- **A negative streak can reach SetUserStreak** through a hand-made `set_streak` callback.
  - The SQL date modifier `--k days` is malformed, so nothing is deleted.
  - The insertion loop does not run, except at the 64-bit minimum (see "Left out").

## Model

| member | source | states |
|---|---|---|
| Text.Split | main.go:1109 | gives one or more parts, none containing the separator, whose join with the separator is the input (the contract of `strings.Split`) |
| Text.SplitWithoutSeparator | main.go:1157 | a string without the separator splits into just itself |
| Text.SplitAtFirst | main.go:1211 | splitting `a:b` where `a` has no separator gives `a` followed by the parts of `b` |
| Text.FirstPartIsPrefix | main.go:1478-1479 | the first part is a prefix of the data, and it is followed by the separator when shorter |
| Text.LeadingSpaces | main.go:1276 | counts the white space at the front: all of it is space, and the next character is not |
| Text.TrailingSpaces | main.go:1276 | the same at the back |
| Text.TrimSpace | main.go:1276 | the result is a slice of the input that neither starts nor ends with white space, and only white space was cut at either end |
| Text.TrimSpaceOfPadded | main.go:1276 | trimming `front + t + back`, where `front` and `back` are white space and `t` has no white space at either end, gives `t` |
| Text.NatDigits | main.go:1233 | decimal digits with no leading zero, except for 0 itself |
| Text.DigitsValueOfNatDigits | main.go:1233 | the digits read back as the number |
| Text.LeadingDigitPositive | main.go:1270 | a digit string without a leading zero has a positive value |
| Text.NatDigitsOfDigitsValue | main.go:1270 | a canonical digit string is the printing of its value |
| Text.FormatInt | main.go:1233 | produces digits, with a `-` sign only in front |
| Text.ParseInt | main.go:1114 | accepts exactly an optional `+` or `-` followed by one or more decimal digits whose signed value fits in 64 bits, and the value is the digits read in base 10, negated after `-` |
| Text.ParseIntExamples | main.go:1276 | `+5`, `007` and `-0` are accepted as 5, 7 and 0; the empty text, a lone sign, a letter and a trailing space are refused |
| Text.ParseFormatRoundTrip | main.go:1233 | parsing the printing of a 64-bit number gives the number back |
| Text.FormatParseRoundTrip | main.go:1270 | printing a parsed canonical numeral gives the text back |
| Text.FormatIntHasNoColon | main.go:1130-1138 | a printed number never contains `:`, so it cannot break the callback fields |
| Callbacks.AdjustStreakData | main.go:1083 | the data starts with `adjust_streak:` |
| Callbacks.SetStreakData | main.go:1130-1135 | the data starts with `set_streak:` |
| Callbacks.CustomStreakData | main.go:1138 | the data starts with `custom_streak:` |
| Callbacks.StreakKeyboard | main.go:1128-1140 | the streak keyboard has the four presets plus "other value" |
| Callbacks.ParseAdjustStreak | main.go:1109-1117 | a parsed id fits in 64 bits, and at least three parts were present |
| Callbacks.ParseSetStreak | main.go:1157-1170 | data without exactly three parts is malformed, and parsed values fit in 64 bits |
| Callbacks.ParseCustomStreak | main.go:1211-1219 | data without exactly two parts is malformed, and a parsed id fits in 64 bits |
| Callbacks.CallbackPrefix | main.go:1476-1481 | the text before the first `:`, or all of the data when it has none |
| Callbacks.RouteCallback | main.go:1484-1500 | each exact-data handler (join, complete, undo, update list) is chosen exactly on its own data; each streak handler exactly when the prefix is its tag; no handler exactly when neither matches |
| Callbacks.SplitTagged | main.go:1083 | `tag:<n>:rest` splits into the tag, the printed number and the parts of `rest` |
| Callbacks.PrefixOfTagged | main.go:1478-1479 | the dispatch prefix of `tag:rest` is the tag |
| Callbacks.SetStreakParses | main.go:1130-1135 | `set_streak:<u>:<d>` parses back to (u, d) |
| Callbacks.SetStreakRoutes | main.go:1496 | `set_streak:<u>:<d>` reaches handleSetStreakCallback |
| Callbacks.SetStreakRoundTrip | main.go:1155-1170 | a preset button's data parses back to its (user, days) and is routed to its handler |
| Callbacks.CustomStreakRoundTrip | main.go:1209-1219 | `custom_streak:<u>` parses back to u and is routed to handleCustomStreakCallback |
| Callbacks.AdjustStreakParses | main.go:1107-1117 | `adjust_streak:<u>:<name>` parses back to u |
| Callbacks.AdjustStreakRoundTrip | main.go:1083 | whatever the name holds, `:` included, the participant id comes back, and the data is routed to handleAdjustStreakCallback |
| Callbacks.StreakKeyboardRoundTrip | main.go:1128-1140 | every button on the streak keyboard reaches its handler with the intended participant and value |
| Routing.CommandRoute | main.go:1416-1433 | exactly the six command and button texts have a fixed handler, each its own: `/start` the start message, "Обновить" the list, "Сделать зарядочку" today's completion, "Отметить за вчера" yesterday's, `/listuserids` the id list and `/adjuststreak` the participant picker |
| Routing.RouteMessage | main.go:1416-1466 | commands win over pending conversations; any other `/setstreak...` text is dropped exactly when it is not a command; a custom-streak conversation comes before a pending join; a name is taken exactly from a reply in a chat with a pending join and no waiting streak conversation; other text is dropped |
| Routing.CommandsIgnoreConversations | main.go:1416-1441 | the route of a command or `/setstreak...` text does not depend on the conversation state |
| Reminders.DelayUntil | main.go:1368-1376 | the delay is under a day, it lands on the trigger time, and no shorter delay does; the trigger rolls over only when now is strictly after it |
| Reminders.FirstToFire | main.go:1378-1395 | the noon reminder fires first exactly when now is at or before 12:00 or after 21:00, and its delay is strictly the shorter one |
| Streaks.UpToShrinks | main.go:185-206 | each counted day consumes a record, so the backward walk terminates |
| Streaks.Run | main.go:185-206 | the backward walk counts a day exactly when the start day is recorded, and never more days than there are records up to it |
| Streaks.IndividualStreak | main.go:179-228 | zero when neither today nor yesterday is recorded; one when only today is; at least one whenever yesterday is |
| Streaks.RunIsBlock | main.go:185-206 | the run is a block of recorded days ending at the start day and closed by a missing day |
| Streaks.BlockIsRun | main.go:185-206 | conversely, such a block measures the run |
| Streaks.RunFrame | main.go:188-194 | the run depends only on the user's own records up to its start day |
| Streaks.MarkTodayStreak | main.go:411-421 | after completing today the streak is the run ending yesterday plus one |
| Streaks.MarkYesterdayStreak | main.go:469-480 | after marking yesterday the streak is one plus the run before it plus today |
| Streaks.UndoTodayStreak | main.go:524-528 | after undoing today the streak is the run ending yesterday |
| Streaks.StreakIgnoresOthers | main.go:188-194 | a streak does not depend on other users' records |
| Streaks.CountsDecideDay | main.go:599-626 | comparing the two counts, and requiring them non-zero, decides exactly "somebody is eligible and every eligible participant has a record" |
| Streaks.EligibleAfterJoinDay | main.go:600-618 | a participant is not counted on their join day, is counted on the next day, and stays counted on every later day |
| Streaks.GroupDayShrinks | main.go:596-630 | a counted group day consumes a record, so the group walk terminates |
| Streaks.GroupRun | main.go:596-630 | the group walk counts a day exactly when that day is a group day, and never more days than there are records up to it |
| Streaks.GroupStreak | main.go:590-665 | zero without participants, and zero when neither today nor yesterday is a group day |
| Streaks.GroupRunIsBlock | main.go:596-630 | the group run is a block of group days closed by a day that is not one |
| Streaks.BlockIsGroupRun | main.go:596-630 | conversely, such a block measures the group run |
| Streaks.GroupRunWithinOwnRun | main.go:599-626 | every group day after a participant's join day is one they completed |
| Streaks.GroupStreakWithinIndividual | main.go:590-665 | capped by a participant's days since joining, the group streak never exceeds their individual streak |
| Streaks.NoParticipantsNoGroupDay | main.go:658-661 | with no participants no day is a group day |
| Streaks.DaysOfGrows | main.go:743-754 | the inserted window grows by one day per iteration |
| Streaks.StreakReset | main.go:729-754 | other users and days outside `today - n .. today` are untouched, and inside it every day but the first is recorded; a negative n changes nothing |
| Streaks.StreakResetGivesStreak | main.go:712-759 | after setting a positive streak n, the individual streak is exactly n |
| Streaks.StreakResetZero | main.go:729-733 | setting a streak of 0 deletes only today's record |
| Streaks.SkippedDayScenario | main.go:179-228 | with days 1-5 and 7 completed, the streak is 5 on day 6 and 1 on days 7 and 8 |
| Streaks.MissedGroupDayScenario | main.go:590-665 | two participants who joined on day 0, one completing days 1-10 and the other days 1-9, have a group streak of 9 on day 10 and 0 on day 11 |
| Achievements.RecordTier | main.go:866-907 | a tier is added only when reached and absent; existing rows are kept; only a non-participant fails; a participant is congratulated in their chat |
| Achievements.Award | main.go:864-955 | rows are never removed or rewritten; only the user's rows are added, dated today; each tier's row is present exactly when it was before or the streak reaches it, with the 365 tier needing the call to get that far; below 100 nothing happens; the 365 row never appears without the 100 row; the call fails exactly when a non-participant is given a new row |
| Achievements.AwardNotifiesEachNewRow | main.go:888-903 | a participant is congratulated for exactly the milestones newly recorded |
| Achievements.AwardNotifiesOncePerRow | main.go:888-903 | one congratulation per added row |
| Achievements.AwardIdempotent | main.go:868-885 | a second check with the same streak changes nothing and sends nothing, except in the one case a non-participant reaches 365 days |
| Achievements.NonParticipantNeedsTwoCalls | main.go:886-891 | that exception, exhibited: the first call stops after the 100-day row, and the second adds the 365-day row |
| Achievements.FirstHundred | main.go:866-907 | a first streak of 100 yields exactly the 100-day row and one congratulation |
| Bot.ReadStreakReply | main.go:1252-1280 | no waiting row means the text is ignored; an unparsable context is an error; otherwise the streak is set exactly when the trimmed reply is a non-negative 64-bit integer, and the reply is refused as invalid exactly when it is not |
| Bot.ReplyToOpenedConversation | main.go:1231-1276 | any numeral `Atoi` accepts with a non-negative value (`+5` and `007` included), between white space, sent to a conversation opened for a participant, sets that participant's streak to its value |
| Bot.StreakSetting | main.go:712-759 | for an unknown user nothing changes and the failure is reported; otherwise the ledger becomes StreakReset, the achievements follow Award for the new streak, and the reply lists the congratulations; the 100-before-365 invariant is kept |
| Bot.TodayMarked | main.go:385-438 | a second completion on a day changes nothing and is reported; otherwise exactly today's record is added, the achievements follow Award for the individual streak that record makes, and the reply is that streak with its congratulations, or the failure when the achievement check fails; the 100-before-365 invariant is kept |
| Bot.YesterdayMarked | main.go:440-500 | the same for yesterday's record, with the streak measured up to today and an achievement failure not reported |
| Bot.TodayUndone | main.go:502-538 | only today's record is removed, the achievements stay, the reply says whether there was a record, and the streak becomes the run ending yesterday |
| Bot.Store.constructor | main.go:56-91 | starts with all five tables empty and the achievement invariant holding |
| Bot.Store.Row | main.go:1257-1260 | a `waiting_custom_streak` row exists exactly when the conversation is awaited |
| Bot.Store.GetIndividualStreak | main.go:179-228 | the loop computes the individual streak |
| Bot.Store.GetConsecutiveCompletionDays | main.go:590-665 | the count-comparing loop computes the group streak |
| Bot.Store.ReminderRecipients | main.go:540-551 | the recipients are exactly the participants without a record for today, each at their own chat |
| Bot.Store.CheckAndRecordAchievements | main.go:864-955 | updates the achievements table and reports the congratulations and failure as Award says, and keeps the 100-before-365 invariant |
| Bot.Store.HandleCompleteChallenge | main.go:385-438 | a second completion on a day changes nothing; otherwise exactly today's record is added, the streak is the run ending yesterday plus one, achievements follow Award, and their failure is the handler's failure; the whole effect is TodayMarked, and no other table changes |
| Bot.Store.HandleMarkYesterday | main.go:440-500 | the same for yesterday's record; the streak still ends today and an achievement failure is only logged; the whole effect is YesterdayMarked |
| Bot.Store.HandleUndoComplete | main.go:502-538 | removes exactly today's record, reports whether there was one, and leaves the run ending yesterday as the streak; the whole effect is TodayUndone |
| Bot.Store.SetUserStreak | main.go:712-759 | an unknown user changes nothing; otherwise the ledger becomes StreakReset, and a positive n gives a streak of exactly n; achievements follow Award; the whole effect is StreakSetting |
| Bot.Store.HandleJoinChallenge | main.go:230-241 | records the pending join for this chat, replacing any earlier one |
| Bot.Store.HandleNameResponse | main.go:243-264 | writes the participant with the reply as display name and today as join day, and removes every pending join of the user |
| Bot.Store.HandleCustomStreakCallback | main.go:1209-1249 | malformed data changes nothing; otherwise the sender's conversation waits with the participant id as context, which parses back to that id |
| Bot.Store.HandleCustomStreakInput | main.go:1252-1314 | an ignored, malformed or invalid reply changes nothing; a valid one has the StreakSetting effect for the target and value read, and closes the conversation only when the target is a participant |
| Bot.Store.ApplyCustomStreak | main.go:1282-1295 | the StreakSetting effect; a failed SetUserStreak keeps the conversation open; a successful one closes exactly this (sender, chat) conversation |
| Bot.Store.HandleSetStreakCallback | main.go:1155-1170 | malformed data changes nothing; an unknown target changes neither the ledger nor the achievements and is reported; for a participant the ledger becomes StreakReset and the achievements follow Award for the new streak (the StreakSetting effect) |
| Bot.Store.HandleMessage | main.go:1416-1466 | only the route's handler changes state: marking today or yesterday has exactly the TodayMarked or YesterdayMarked effect on ledger, achievements and reply; a custom-streak reply has the handleCustomStreakInput effect for the reply read; a name reply writes the participant, drops their pending joins and leaves the ledger, achievements and conversations alone; other routes change nothing |
| Bot.Store.RunMessage | main.go:1416-1466 | the same effects, for a given route |
| Bot.Store.RunStreakMessage | main.go:1416-1453 | the same effects for the routes other than a name reply, which leave participants and pending joins alone |
| Bot.Store.HandleCallback | main.go:1476-1500 | buttons never change the participants; join records the pending join and asks for the name; complete has exactly the TodayMarked effect and undo the TodayUndone effect on ledger, achievements and reply; a preset has the StreakSetting effect and a malformed one changes nothing and reports the parse failure; "other value" opens the waiting conversation for its participant; an adjust button yields that participant's streak keyboard, or the parse failure for malformed data; every other route leaves ledger, achievements, pending joins and conversations alone |
| Bot.Store.RunCallback | main.go:1484-1500 | the same effects, for a given route |
| Bot.Store.RunLedgerCallback | main.go:1486-1497 | the effects of complete (TodayMarked), undo (TodayUndone) and preset (StreakSetting, or the parse failure with nothing changed) buttons on ledger, achievements and reply |
| Bot.Store.RunChatCallback | main.go:1484-1500 | the effects of the other buttons, which never touch the ledger or the achievements |

## Left out

- Telegram I/O: the message and keyboard texts, message edits, callback answers and the
  failures of sending are not modelled. Handlers return an `Outcome` instead.
- Rendering is not modelled: handleStart, sendParticipantsList, getParticipantsList,
  getWalkOfFame, handleListUserIDs, handleUpdateList and the day-word declension. They only
  read the tables and format text.
- handleAdjustStreak's participant keyboard is not modelled beyond its callback data. Its
  cut of long data to the first 40 bytes of the name (main.go:1085-1088) is left out, because
  the names are text rather than bytes here. The parsers never read the name field.
- The clock is a parameter. The Go side formats days in local time, while SQLite's
  `date('now')` in SetUserStreak and the achievement rows uses UTC. The model treats both as
  the same day.
- The default `CURRENT_TIMESTAMP` of `joined_at` (main.go:62) is also UTC. The model takes the
  join day as the local day of the name reply. Near midnight the real join date can be a day
  off, which moves the first group day a participant counts for.
- Streaks.StreakReset: the model assumes that clocks agree, so the window deleted by SQL and
  the days inserted by Go are aligned.
- Streaks.StreakReset: at n = -2^63, which a hand-made `set_streak` callback can carry, the
  model leaves the ledger unchanged. In Go, `streakDays - 1` (main.go:739) wraps to 2^63 - 1,
  so the insertion loop runs practically without end. Go's 64-bit wrap-around is not modelled.
- Streaks.StreakReset: for an n so large that `date('now', '-n days')` (main.go:733) falls
  outside SQLite's date range, the bound is NULL, nothing is deleted, and the plain INSERT
  fails on the first day the user already has. The model deletes and refills the whole
  window. Days are integers here, with no calendar range.
- Bot.Store.SetUserStreak: in those two cases it reports `StreakSet` and checks achievements.
  The source never returns (n = -2^63), or returns the INSERT error without checking
  achievements.
- Bot.StreakSetting, Bot.Store.HandleSetStreakCallback, Bot.Store.ApplyCustomStreak,
  Bot.Store.HandleCustomStreakInput: they carry the same two gaps. For the second one, the
  custom-streak reply keeps its conversation open in the source (main.go:1285-1289), where
  the model closes it.
- The reminder goroutine, its timers, `select` and the zone lookup are not modelled. Only the
  delays and the choice of timer are.
- Random congratulation texts are not modelled. The `congrats_message` column is dropped,
  because nothing reads it back.
- Database errors other than the ones named here are not modelled: a failed query, a
  constraint failure, or a missing table from initDB.
  - The foreign keys of `daily_completions` and `achievements` are not enforced, because
    SQLite does not enforce them without `PRAGMA foreign_keys`.
  - The username and display-name fallback `COALESCE` is not modelled.
- TestFillCompletions is not modelled. It is a development helper with random skips and is
  never called by the bot.
- handleNameResponse takes any text as the name, including an empty one. The model does the
  same and does not validate it.
- Bot.Store.HandleMarkYesterday, Bot.Store.HandleCompleteChallenge: the random congratulation
  sent afterwards is not modelled.
