/**
  The streak engine. The `daily_completions` table is a finite set of (user, day) pairs
  (its primary key), and both streaks walk backward from yesterday until the first day that
  does not count, then add one for today when today counts.

  The walks in the bot have no bound. They stop because every day they count consumes a
  record of the finite ledger dated on or before that day (for the group walk: a day counts
  only when somebody is eligible and everybody eligible has a record), so the number of such
  records is the termination measure.
*/
module Streaks {
  import opened Common

  /** The `daily_completions` relation: user `u` completed day `d` iff `(u, d)` is in it. */
  type Ledger = set<(UserId, Day)>

  /** The records dated on or before `d`. */
  function UpTo(c: Ledger, d: Day): set<(UserId, Day)>
  {
    set k | k in c && k.1 <= d
  }

  lemma UpToShrinks(c: Ledger, u: UserId, d: Day)
    requires (u, d) in c
    ensures |UpTo(c, d - 1)| < |UpTo(c, d)|
  {
    assert UpTo(c, d - 1) <= UpTo(c, d) - {(u, d)};
    SubsetCardinality(UpTo(c, d - 1), UpTo(c, d) - {(u, d)});
  }

  // ---------------------------------------------------------------------------
  // Individual streak
  // ---------------------------------------------------------------------------

  /** The number of consecutive days of `u` recorded in `c`, going backward from `d`. */
  function Run(c: Ledger, u: UserId, d: Day): (r: nat)
    ensures r > 0 <==> (u, d) in c
    // Each counted day is a distinct record dated on or before d.
    ensures r <= |UpTo(c, d)|
    decreases |UpTo(c, d)|
  {
    if (u, d) in c then
      UpToShrinks(c, u, d);
      1 + Run(c, u, d - 1)
    else 0
  }

  /** The streak getIndividualStreak reports: the run ending yesterday, plus today if recorded. */
  function IndividualStreak(c: Ledger, u: UserId, today: Day): (r: nat)
    ensures (u, today) !in c && (u, today - 1) !in c ==> r == 0
    ensures (u, today) in c && (u, today - 1) !in c ==> r == 1
    ensures (u, today - 1) in c ==> r >= 1
  {
    Run(c, u, today - 1) + (if (u, today) in c then 1 else 0)
  }

  /** The days `d - k + 1 .. d` are all recorded for `u`. */
  predicate RecordedBlock(c: Ledger, u: UserId, d: Day, k: nat)
  {
    forall e :: d - k < e <= d ==> (u, e) in c
  }

  /** Run(c, u, d) days are recorded in a row ending at d, and the day before them is not. */
  lemma {:induction false} RunIsBlock(c: Ledger, u: UserId, d: Day)
    ensures RecordedBlock(c, u, d, Run(c, u, d))
    ensures (u, d - Run(c, u, d)) !in c
    decreases |UpTo(c, d)|
  {
    if (u, d) in c {
      UpToShrinks(c, u, d);
      RunIsBlock(c, u, d - 1);
    }
  }

  /** Conversely, a recorded block closed by a missing day measures the run. */
  lemma {:induction false} BlockIsRun(c: Ledger, u: UserId, d: Day, k: nat)
    requires RecordedBlock(c, u, d, k)
    requires (u, d - k) !in c
    ensures Run(c, u, d) == k
    decreases k
  {
    if k > 0 {
      assert (u, d) in c;
      BlockIsRun(c, u, d - 1, k - 1);
    }
  }

  /** The run ending at `d` depends only on u's own records up to `d`. */
  lemma RunFrame(c1: Ledger, c2: Ledger, u: UserId, d: Day)
    requires forall e :: e <= d ==> ((u, e) in c1 <==> (u, e) in c2)
    ensures Run(c1, u, d) == Run(c2, u, d)
  {
    RunIsBlock(c1, u, d);
    BlockIsRun(c2, u, d, Run(c1, u, d));
  }

  /** Completing today adds one to the run ending yesterday: +1 after a completed yesterday, 1 after a gap. */
  lemma MarkTodayStreak(c: Ledger, u: UserId, today: Day)
    ensures IndividualStreak(c + {(u, today)}, u, today) == Run(c, u, today - 1) + 1
  {
    RunFrame(c + {(u, today)}, c, u, today - 1);
  }

  /** Marking yesterday joins it to the run before it. */
  lemma MarkYesterdayStreak(c: Ledger, u: UserId, today: Day)
    ensures IndividualStreak(c + {(u, today - 1)}, u, today)
            == 1 + Run(c, u, today - 2) + (if (u, today) in c then 1 else 0)
  {
    var c' := c + {(u, today - 1)};
    UpToShrinks(c', u, today - 1);
    assert Run(c', u, today - 1) == 1 + Run(c', u, today - 2);
    RunFrame(c', c, u, today - 2);
  }

  /** Undoing today leaves exactly the run ending yesterday. */
  lemma UndoTodayStreak(c: Ledger, u: UserId, today: Day)
    ensures IndividualStreak(c - {(u, today)}, u, today) == Run(c, u, today - 1)
  {
    RunFrame(c - {(u, today)}, c, u, today - 1);
  }

  /** Nobody's streak depends on another user's records. */
  lemma StreakIgnoresOthers(c1: Ledger, c2: Ledger, u: UserId, today: Day)
    requires forall e :: (u, e) in c1 <==> (u, e) in c2
    ensures IndividualStreak(c1, u, today) == IndividualStreak(c2, u, today)
  {
    RunFrame(c1, c2, u, today - 1);
  }

  // ---------------------------------------------------------------------------
  // Group streak
  // ---------------------------------------------------------------------------

  /**
    The participants counted for day `d`: `joined_at` holds 'YYYY-MM-DD HH:MM:SS' and is
    compared as text with 'YYYY-MM-DD' for `d`, so only those who joined strictly before `d`.
  */
  function Eligible(p: map<UserId, Participant>, d: Day): set<UserId>
  {
    set u | u in p && p[u].joinDay < d
  }

  /**
    A participant is never counted on the day they joined, and is counted on every day after
    it; the set of counted participants only grows with the day.
  */
  lemma EligibleAfterJoinDay(p: map<UserId, Participant>, u: UserId, d1: Day, d2: Day)
    requires u in p
    requires d1 <= d2
    ensures u !in Eligible(p, p[u].joinDay)
    ensures u in Eligible(p, p[u].joinDay + 1)
    ensures Eligible(p, d1) <= Eligible(p, d2)
  {
  }

  /** The eligible participants with a record on day `d`. */
  function CompletedOn(p: map<UserId, Participant>, c: Ledger, d: Day): set<UserId>
  {
    set u | u in Eligible(p, d) && (u, d) in c
  }

  /** A group day: somebody is eligible and every eligible participant completed it. */
  predicate DayComplete(p: map<UserId, Participant>, c: Ledger, d: Day)
  {
    Eligible(p, d) != {} && forall u :: u in Eligible(p, d) ==> (u, d) in c
  }

  /** The two counts the bot compares agree, and are not zero, exactly on a group day. */
  lemma CountsDecideDay(p: map<UserId, Participant>, c: Ledger, d: Day)
    ensures DayComplete(p, c, d)
            <==> |CompletedOn(p, c, d)| == |Eligible(p, d)| && |Eligible(p, d)| != 0
  {
    var e, done := Eligible(p, d), CompletedOn(p, c, d);
    assert done <= e;
    if |done| == |e| && |e| != 0 {
      if exists u :: u in e && (u, d) !in c {
        var u :| u in e && (u, d) !in c;
        assert done <= e - {u};
        SubsetCardinality(done, e - {u});
        assert false;
      }
    }
    if DayComplete(p, c, d) {
      forall v | v in e ensures v in done {}
      assert done == e;
    }
  }

  lemma SubsetCardinality<T>(a: set<T>, b: set<T>)
    requires a <= b
    ensures |a| <= |b|
  {
    assert b == a + (b - a);
  }

  lemma SomeElement<T>(s: set<T>) returns (x: T)
    requires s != {}
    ensures x in s
  {
    x :| x in s;
  }

  lemma GroupDayShrinks(p: map<UserId, Participant>, c: Ledger, d: Day)
    requires DayComplete(p, c, d)
    ensures |UpTo(c, d - 1)| < |UpTo(c, d)|
  {
    var u := SomeElement(Eligible(p, d));
    UpToShrinks(c, u, d);
  }

  /** The number of consecutive group days going backward from `d`. */
  function GroupRun(p: map<UserId, Participant>, c: Ledger, d: Day): (r: nat)
    ensures r > 0 <==> DayComplete(p, c, d)
    // Each counted group day holds at least one record dated on or before d.
    ensures r <= |UpTo(c, d)|
    decreases |UpTo(c, d)|
  {
    if DayComplete(p, c, d) then
      GroupDayShrinks(p, c, d);
      1 + GroupRun(p, c, d - 1)
    else 0
  }

  /** The streak getConsecutiveCompletionDays reports. */
  function GroupStreak(p: map<UserId, Participant>, c: Ledger, today: Day): (r: nat)
    ensures p == map[] ==> r == 0
    ensures !DayComplete(p, c, today) && !DayComplete(p, c, today - 1) ==> r == 0
  {
    GroupRun(p, c, today - 1) + (if DayComplete(p, c, today) then 1 else 0)
  }

  /** GroupRun(p, c, d) group days in a row end at d, and the day before them is not one. */
  lemma {:induction false} GroupRunIsBlock(p: map<UserId, Participant>, c: Ledger, d: Day)
    ensures forall e :: d - GroupRun(p, c, d) < e <= d ==> DayComplete(p, c, e)
    ensures !DayComplete(p, c, d - GroupRun(p, c, d))
    decreases |UpTo(c, d)|
  {
    if DayComplete(p, c, d) {
      GroupDayShrinks(p, c, d);
      GroupRunIsBlock(p, c, d - 1);
    }
  }

  /** Conversely, a block of group days closed by a day that is not one measures the group run. */
  lemma {:induction false} BlockIsGroupRun(p: map<UserId, Participant>, c: Ledger, d: Day, k: nat)
    requires forall e :: d - k < e <= d ==> DayComplete(p, c, e)
    requires !DayComplete(p, c, d - k)
    ensures GroupRun(p, c, d) == k
    decreases k
  {
    if k > 0 {
      assert DayComplete(p, c, d);
      BlockIsGroupRun(p, c, d - 1, k - 1);
    }
  }

  /**
    A participant's own run is at least the group run, capped by the days the participant
    has been counted in it: every group day after their join day is a day they completed.
  */
  lemma {:induction false} GroupRunWithinOwnRun(p: map<UserId, Participant>, c: Ledger, u: UserId, d: Day)
    requires u in p
    ensures Min(GroupRun(p, c, d), d - p[u].joinDay) <= Run(c, u, d)
    decreases |UpTo(c, d)|
  {
    if DayComplete(p, c, d) && p[u].joinDay < d {
      assert u in Eligible(p, d);
      GroupDayShrinks(p, c, d);
      GroupRunWithinOwnRun(p, c, u, d - 1);
    }
  }

  function Min(a: int, b: int): int
  {
    if a < b then a else b
  }

  /** The group streak never exceeds the streak of a participant counted on all of its days. */
  lemma GroupStreakWithinIndividual(p: map<UserId, Participant>, c: Ledger, u: UserId, today: Day)
    requires u in p
    ensures Min(GroupStreak(p, c, today), today - 1 - p[u].joinDay) <= IndividualStreak(c, u, today)
  {
    GroupRunWithinOwnRun(p, c, u, today - 1);
    if DayComplete(p, c, today) && p[u].joinDay < today {
      assert u in Eligible(p, today);
    }
  }

  /** With no participants there is no group day, so the group streak is zero. */
  lemma NoParticipantsNoGroupDay(c: Ledger, d: Day)
    ensures !DayComplete(map[], c, d)
  {
    assert Eligible(map[], d) == {};
  }

  // ---------------------------------------------------------------------------
  // The streak setter (/adjuststreak, served to any user)
  // ---------------------------------------------------------------------------

  /** The records of user `u` for the days `lo .. hi`. */
  function DaysOf(u: UserId, lo: Day, hi: Day): set<(UserId, Day)>
  {
    set d | lo <= d <= hi :: (u, d)
  }

  lemma DaysOfGrows(u: UserId, lo: Day, hi: Day)
    requires lo <= hi + 1
    ensures DaysOf(u, lo, hi + 1) == DaysOf(u, lo, hi) + {(u, hi + 1)}
  {
    assert (u, hi + 1) in DaysOf(u, lo, hi + 1);
  }

  /**
    The ledger after SetUserStreak(u, n): the days `today - n .. today` of `u` are deleted and
    `today - n + 1 .. today` inserted. A negative `n` makes the SQL date modifier "--k days"
    malformed, so nothing is deleted, and the insertion loop does not run (except at the
    64-bit minimum, where `n - 1` wraps; see the README).
  */
  function StreakReset(c: Ledger, u: UserId, n: int, today: Day): (r: Ledger)
    // Other users and days outside the window keep their records.
    ensures forall k: (UserId, Day) :: (k.0 != u || k.1 < today - n || k.1 > today) ==> (k in r <==> k in c)
    // Inside the window, every day but the first is recorded.
    ensures n >= 0 ==> forall d :: today - n <= d <= today ==> ((u, d) in r <==> d != today - n)
    ensures n < 0 ==> r == c
  {
    if n < 0 then c else c - DaysOf(u, today - n, today) + DaysOf(u, today - n + 1, today)
  }

  /** After setting a positive streak n, the individual streak is exactly n. */
  lemma StreakResetGivesStreak(c: Ledger, u: UserId, n: int, today: Day)
    requires n >= 1
    ensures IndividualStreak(StreakReset(c, u, n, today), u, today) == n
  {
    var r := StreakReset(c, u, n, today);
    assert (u, today) in r;
    assert RecordedBlock(r, u, today - 1, n - 1);
    BlockIsRun(r, u, today - 1, n - 1);
  }

  /** Setting a streak of zero only deletes today's record. */
  lemma StreakResetZero(c: Ledger, u: UserId, today: Day)
    ensures StreakReset(c, u, 0, today) == c - {(u, today)}
  {
    assert DaysOf(u, today, today) == {(u, today)};
    assert DaysOf(u, today + 1, today) == {};
  }

  // ---------------------------------------------------------------------------
  // Worked scenarios
  // ---------------------------------------------------------------------------

  /** Completing days 1-5, skipping 6 and completing 7: the streak is 5 on day 6 and 1 on days 7 and 8. */
  lemma SkippedDayScenario(a: UserId)
    ensures var c := (set d | 1 <= d <= 5 :: (a, d)) + {(a, 7)};
            IndividualStreak(c, a, 6) == 5 && IndividualStreak(c, a, 7) == 1 && IndividualStreak(c, a, 8) == 1
  {
    var c := (set d | 1 <= d <= 5 :: (a, d)) + {(a, 7)};
    assert (a, 5) in c && (a, 4) in c && (a, 3) in c && (a, 2) in c && (a, 1) in c;
    BlockIsRun(c, a, 5, 5);
    BlockIsRun(c, a, 7, 1);
    assert (a, 6) !in c;
  }

  /**
    Two participants who joined on day 0; one completes days 1-10, the other days 1-9.
    On day 10 the group streak is 9 (today is not a group day); on day 11 it is 0.
  */
  lemma MissedGroupDayScenario(a: UserId, b: UserId)
    requires a != b
    ensures var p := map[a := Participant("a", 1, "A", 0), b := Participant("b", 2, "B", 0)];
            var c := (set d | 1 <= d <= 10 :: (a, d)) + (set d | 1 <= d <= 9 :: (b, d));
            GroupStreak(p, c, 10) == 9 && GroupStreak(p, c, 11) == 0
  {
    var p := map[a := Participant("a", 1, "A", 0), b := Participant("b", 2, "B", 0)];
    var c := (set d | 1 <= d <= 10 :: (a, d)) + (set d | 1 <= d <= 9 :: (b, d));
    forall e | 0 < e <= 9 ensures DayComplete(p, c, e) {
      assert a in Eligible(p, e);
      assert Eligible(p, e) == {a, b};
      assert (a, e) in c && (b, e) in c;
    }
    assert Eligible(p, 0) == {};
    BlockIsGroupRun(p, c, 9, 9);
    assert b in Eligible(p, 10) && (b, 10) !in c;
    assert b in Eligible(p, 11) && (b, 11) !in c;
  }
}
