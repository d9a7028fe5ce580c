/** src/app/components/StudyHistory.tsx: the history panel's totals of
    worked minutes for today and the last seven days, the average
    productivity rating, and the rating dots. The query result (the last
    completed sessions) and the clock are parameters; a completion time is
    milliseconds since 1970-01-01 UTC. The panel's `formatDuration` is
    `Text.CompactDuration`. */
module StudyHistory {
  import opened Wrappers
  import opened Text
  import opened Totals

  const DayMs: int := 24 * 60 * 60 * 1000

  /** A row of study_sessions_detailed as the panel reads it. */
  datatype HistorySession = HistorySession(
    completedAt: Option<int>,
    totalWorkMinutes: Option<int>,
    productivityRating: Option<int>)

  /** `s.total_work_minutes || 0` */
  function WorkOrZero(s: HistorySession): int {
    if s.totalWorkMinutes.Some? then s.totalWorkMinutes.value else 0
  }

  /** `completed_at?.startsWith(today)`: completed on the UTC day `today`. */
  predicate CompletedOnDay(s: HistorySession, today: int) {
    s.completedAt.Some? && s.completedAt.value / DayMs == today
  }

  /** `completed_at && completed_at >= weekAgo` */
  predicate CompletedSince(s: HistorySession, weekAgo: int) {
    s.completedAt.Some? && s.completedAt.value >= weekAgo
  }

  /** The sum of worked minutes of the sessions completed today. */
  function TodayMinutes(rows: seq<HistorySession>, today: int): int
    decreases |rows|
  {
    if rows == [] then 0
    else
      var last := rows[|rows| - 1];
      TodayMinutes(rows[..|rows| - 1], today) + (if CompletedOnDay(last, today) then WorkOrZero(last) else 0)
  }

  /** The sum of worked minutes of the sessions completed since `weekAgo`. */
  function WeekMinutes(rows: seq<HistorySession>, weekAgo: int): int
    decreases |rows|
  {
    if rows == [] then 0
    else
      var last := rows[|rows| - 1];
      WeekMinutes(rows[..|rows| - 1], weekAgo) + (if CompletedSince(last, weekAgo) then WorkOrZero(last) else 0)
  }

  predicate NonNegativeWork(rows: seq<HistorySession>) {
    forall k :: 0 <= k < |rows| ==> WorkOrZero(rows[k]) >= 0
  }

  /** Every session completed today was completed in the last seven days,
      so with non-negative minutes today's total never exceeds the week's,
      and each total is itself non-negative. */
  lemma {:induction false} TodayWithinWeek(rows: seq<HistorySession>, nowMs: int)
    requires NonNegativeWork(rows)
    ensures 0 <= TodayMinutes(rows, nowMs / DayMs) <= WeekMinutes(rows, nowMs - 7 * DayMs)
    decreases |rows|
  {
    if rows != [] {
      var front := rows[..|rows| - 1];
      var last := rows[|rows| - 1];
      assert NonNegativeWork(front) by {
        forall k | 0 <= k < |front| ensures WorkOrZero(front[k]) >= 0 {
          assert front[k] == rows[k];
        }
      }
      TodayWithinWeek(front, nowMs);
      assert WorkOrZero(last) >= 0;
      if CompletedOnDay(last, nowMs / DayMs) {
        var t := last.completedAt.value;
        assert t >= (nowMs / DayMs) * DayMs;
        assert nowMs < (nowMs / DayMs) * DayMs + DayMs;
        assert CompletedSince(last, nowMs - 7 * DayMs);
      }
    }
  }

  /** A session's rating, with a missing one read as 0 (both are falsy). */
  function RatingOrZero(s: HistorySession): int {
    if s.productivityRating.Some? then s.productivityRating.value else 0
  }

  /** Every session's rating or 0, in order. */
  function RatingValues(rows: seq<HistorySession>): seq<int> {
    seq(|rows|, k requires 0 <= k < |rows| => RatingOrZero(rows[k]))
  }

  lemma RatingValuesBack(rows: seq<HistorySession>)
    requires rows != []
    ensures RatingValues(rows) == RatingValues(rows[..|rows| - 1]) + [RatingOrZero(rows[|rows| - 1])]
  {
  }

  /** The truthy ratings, in order: `filter(s => s.productivity_rating)`.
      Each non-zero value occurs as often as sessions carry it. */
  function Ratings(rows: seq<HistorySession>): (r: seq<int>)
    ensures |r| <= |rows|
    ensures forall k :: 0 <= k < |r| ==> r[k] != 0 && exists s :: s in rows && s.productivityRating == Some(r[k])
    ensures forall v :: v != 0 ==> multiset(r)[v] == multiset(RatingValues(rows))[v]
    ensures multiset(r)[0] == 0
    decreases |rows|
  {
    if rows == [] then []
    else
      var last := rows[|rows| - 1];
      var front := Ratings(rows[..|rows| - 1]);
      RatingValuesBack(rows);
      if last.productivityRating.Some? && last.productivityRating.value != 0
      then front + [last.productivityRating.value]
      else front
  }

  /** The ratings the form stores run from 1 to 5 (0 counts as unrated). */
  predicate RatingsInRange(rows: seq<HistorySession>) {
    forall s :: s in rows && s.productivityRating.Some? ==> 0 <= s.productivityRating.value <= 5
  }

  /** The average over rated sessions only: unrated sessions do not pull it
      towards 0, so it stays within the rating scale. */
  lemma AverageRatingInScale(rows: seq<HistorySession>)
    requires RatingsInRange(rows)
    requires Ratings(rows) != []
    ensures 1.0 <= Average(Ratings(rows)) <= 5.0
  {
    var r := Ratings(rows);
    assert Within(r, 1, 5) by {
      forall k | 0 <= k < |r| ensures 1 <= r[k] <= 5 {
        var s :| s in rows && s.productivityRating == Some(r[k]);
      }
    }
    AverageBounds(r, 1, 5);
  }

  /** Rating dots: dot i is lit when i < rating. */
  function RatingDots(rating: int): seq<bool> {
    seq(5, i => i < rating)
  }

  function CountLit(dots: seq<bool>): nat
    decreases |dots|
  {
    if dots == [] then 0 else CountLit(dots[..|dots| - 1]) + (if dots[|dots| - 1] then 1 else 0)
  }

  /** Of the first n dots, min(n, rating) are lit (none for a rating below 1). */
  lemma {:induction false} LitPrefix(rating: int, n: nat)
    requires n <= 5
    ensures CountLit(RatingDots(rating)[..n]) == if rating <= 0 then 0 else if rating < n then rating else n
  {
    if n > 0 {
      var dots := RatingDots(rating)[..n];
      assert dots[..n - 1] == RatingDots(rating)[..n - 1];
      LitPrefix(rating, n - 1);
    }
  }

  /** Exactly `rating` of the five dots are lit for a rating from 0 to 5. */
  lemma DotsShowRating(rating: int)
    requires 0 <= rating <= 5
    ensures |RatingDots(rating)| == 5
    ensures CountLit(RatingDots(rating)) == rating
  {
    LitPrefix(rating, 5);
    assert RatingDots(rating)[..5] == RatingDots(rating);
  }

  /** The panel's state. */
  class History {
    var sessions: seq<HistorySession>
    var loading: bool
    var todayMinutes: int
    var weekMinutes: int
    var avgProductivity: real

    constructor ()
      ensures sessions == [] && loading && todayMinutes == 0 && weekMinutes == 0 && avgProductivity == 0.0
    {
      sessions := [];
      loading := true;
      todayMinutes := 0;
      weekMinutes := 0;
      avgProductivity := 0.0;
    }

    /** `loadHistory` after its query, whose result is None when the query
      reports an error: that throws, and only `loading` is cleared.
      Otherwise the totals for today's UTC day and
      for the seven days before `nowMs`; the average is set only when some
      session is rated (its rounding to one decimal is not modelled). */
    method LoadHistory(result: Option<seq<HistorySession>>, nowMs: int)
      modifies this
      ensures !loading
      ensures result.None? ==> sessions == old(sessions) && todayMinutes == old(todayMinutes) &&
                               weekMinutes == old(weekMinutes) && avgProductivity == old(avgProductivity)
      ensures result.Some? ==> sessions == result.value
      ensures result.Some? ==> todayMinutes == TodayMinutes(result.value, nowMs / DayMs)
      ensures result.Some? ==> weekMinutes == WeekMinutes(result.value, nowMs - 7 * DayMs)
      ensures result.Some? ==> avgProductivity == if Ratings(result.value) == [] then old(avgProductivity)
                                                  else Average(Ratings(result.value))
    {
      if result.None? {
        loading := false;
        return;
      }
      var rows := result.value;
      sessions := rows;
      todayMinutes := TodayMinutes(rows, nowMs / DayMs);
      weekMinutes := WeekMinutes(rows, nowMs - 7 * DayMs);
      var rated := Ratings(rows);
      if |rated| > 0 {
        avgProductivity := Average(rated);
      }
      loading := false;
    }
  }
}
