/**
  The achievement engine. The `achievements` table is keyed by (user, achievement_type) and
  holds the day of first qualification. checkAndRecordAchievements looks at the 100-day tier,
  then the 365-day tier; for a tier whose threshold the streak meets and whose row is absent
  it inserts the row, looks up the participant's chat and sends a congratulation. The chat
  lookup fails for a user who is not a participant: the error is returned at once, after the
  row was inserted and before the next tier is looked at.
*/
module Achievements {
  import opened Common

  datatype Milestone = Days100 | Days365

  /** The streak a milestone needs. */
  function Threshold(m: Milestone): nat
  {
    match m
    case Days100 => 100
    case Days365 => 365
  }

  /** The `achievements` relation: (user, milestone) to the day it was reached. */
  type Awards = map<(UserId, Milestone), Day>

  /** A congratulation sent to a chat. */
  datatype Notice = Congratulate(chat: ChatId, milestone: Milestone)

  /** The new table, the congratulations sent, and whether the call returned an error. */
  datatype Report = Report(awards: Awards, notices: seq<Notice>, failed: bool)

  /** The 365-day row never exists without the 100-day row. */
  ghost predicate Tiered(a: Awards)
  {
    forall u :: (u, Days365) in a ==> (u, Days100) in a
  }

  /** One tier of checkAndRecordAchievements. */
  function RecordTier(a: Awards, p: map<UserId, Participant>, u: UserId, m: Milestone, streak: int, today: Day): (r: Report)
    ensures r.awards.Keys == if streak >= Threshold(m) then a.Keys + {(u, m)} else a.Keys
    ensures forall k :: k in a ==> r.awards[k] == a[k]
    ensures r.failed <==> streak >= Threshold(m) && (u, m) !in a && u !in p
    ensures r.notices == if streak >= Threshold(m) && (u, m) !in a && u in p
                         then [Congratulate(p[u].chatId, m)] else []
  {
    if streak < Threshold(m) || (u, m) in a then Report(a, [], false)
    else if u !in p then Report(a[(u, m) := today], [], true)
    else Report(a[(u, m) := today], [Congratulate(p[u].chatId, m)], false)
  }

  /** checkAndRecordAchievements(u, streak) run against the tables `a` and `p` on day `today`. */
  function Award(a: Awards, p: map<UserId, Participant>, u: UserId, streak: int, today: Day): (r: Report)
    // Existing rows are never removed or rewritten.
    ensures forall k :: k in a ==> k in r.awards && r.awards[k] == a[k]
    // Only u's milestone rows can be added, and they are dated today.
    ensures forall k :: k in r.awards && k !in a ==> k.0 == u && r.awards[k] == today
    // The 100-day row is present afterwards iff it was before or the streak reaches 100.
    ensures (u, Days100) in r.awards <==> (u, Days100) in a || streak >= 100
    // The 365-day row is added iff the streak reaches 365 and the call got that far.
    ensures (u, Days365) in r.awards
            <==> (u, Days365) in a || (streak >= 365 && (u in p || (u, Days100) in a))
    // Below 100 days nothing at all happens.
    ensures streak < 100 ==> r == Report(a, [], false)
    // The call fails exactly when a non-participant is given a new row (its chat lookup fails).
    ensures r.failed <==> u !in p && ((streak >= 100 && (u, Days100) !in a)
                                      || (streak >= 365 && (u, Days365) !in a))
    // Congratulations go to the participant's chat.
    ensures forall i :: 0 <= i < |r.notices| ==> u in p && r.notices[i].chat == p[u].chatId
    ensures Tiered(a) ==> Tiered(r.awards)
  {
    var first := RecordTier(a, p, u, Days100, streak, today);
    if first.failed then first
    else
      var second := RecordTier(first.awards, p, u, Days365, streak, today);
      Report(second.awards, first.notices + second.notices, second.failed)
  }

  /** A participant gets a congratulation for exactly the milestones whose rows were added. */
  lemma AwardNotifiesEachNewRow(a: Awards, p: map<UserId, Participant>, u: UserId, streak: int, today: Day)
    requires u in p
    ensures var r := Award(a, p, u, streak, today);
            && !r.failed
            && forall m :: Congratulate(p[u].chatId, m) in r.notices <==> (u, m) in r.awards && (u, m) !in a
  {
  }

  /** ... and one congratulation per added row. */
  lemma AwardNotifiesOncePerRow(a: Awards, p: map<UserId, Participant>, u: UserId, streak: int, today: Day)
    requires u in p
    ensures var r := Award(a, p, u, streak, today);
            |r.notices| == |r.awards| - |a|
  {
    var first := RecordTier(a, p, u, Days100, streak, today);
    var second := RecordTier(first.awards, p, u, Days365, streak, today);
    assert |first.awards| == |a| + |first.notices| by {
      if first.notices != [] { assert first.awards.Keys == a.Keys + {(u, Days100)}; }
    }
    assert |second.awards| == |first.awards| + |second.notices| by {
      if second.notices != [] { assert second.awards.Keys == first.awards.Keys + {(u, Days365)}; }
    }
  }

  /**
    Running the check again with the same streak changes nothing and sends nothing. The
    proviso covers the one case where it does not hold: a non-participant reaching 365 days
    gets the 100-day row on the first call (which then fails) and the 365-day row on the second.
  */
  lemma AwardIdempotent(a: Awards, p: map<UserId, Participant>, u: UserId, streak: int, today: Day, later: Day)
    requires u in p || streak < 365
    ensures var once := Award(a, p, u, streak, today);
            Award(once.awards, p, u, streak, later) == Report(once.awards, [], false)
  {
    var once := Award(a, p, u, streak, today);
    if streak >= 100 {
      assert (u, Days100) in once.awards;
      if streak >= 365 {
        assert (u, Days365) in once.awards;
      }
    }
  }

  /** The exception to idempotence, exhibited. */
  lemma NonParticipantNeedsTwoCalls(u: UserId, today: Day)
    ensures var once := Award(map[], map[], u, 365, today);
            once.failed && once.awards == map[(u, Days100) := today]
            && Award(once.awards, map[], u, 365, today).awards
               == map[(u, Days100) := today, (u, Days365) := today]
  {
  }

  /** Setting a streak of 100 to a participant without awards yields exactly the 100-day award. */
  lemma FirstHundred(p: map<UserId, Participant>, u: UserId, today: Day)
    requires u in p
    ensures Award(map[], p, u, 100, today)
            == Report(map[(u, Days100) := today], [Congratulate(p[u].chatId, Days100)], false)
  {
  }
}
