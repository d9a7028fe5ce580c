/** src/lib/study-helpers.ts: building the current week's sessions from a
    plan, the study streak, the duration text and the progress message.
    Query results and the insert outcome are parameters; dates are day
    numbers (module Calendar). */
module StudyHelpers {
  import opened Wrappers
  import opened Text
  import opened Records
  import opened Calendar
  import opened Sequences

  /** The fields of a study plan that the week generator reads. */
  datatype Plan = Plan(
    id: string,
    sessionDuration: int,
    sessionsPerDay: int,
    studyDays: seq<string>,
    preferredTimes: seq<string>)

  /** One row handed to the insert; the time is None where the source
      would store `undefined` (an empty list of preferred times). */
  datatype NewSession = NewSession(
    userId: string,
    planId: string,
    scheduledDate: int,
    scheduledTime: Option<string>,
    durationMinutes: int,
    status: Status)

  /** The two ways generation fails: a day code outside the day map gives
      an invalid date, which throws once a record for it is built; and the
      insert can report an error. */
  datatype GenError = InvalidDate | InsertFailed

  /** `created` is the number of inserted rows; `inserted` the rows. */
  datatype Generated = Generated(created: nat, inserted: seq<NewSession>)

  /** The preferred time of the session with index i: entry i when it is
      present and non-empty, otherwise entry 0. */
  function TimeFor(times: seq<string>, i: nat): (t: Option<string>)
    ensures t.None? <==> times == []
    ensures t.Some? ==> t.value in times
    ensures i < |times| && times[i] != "" ==> t == Some(times[i])
  {
    if i < |times| && times[i] != "" then Some(times[i])
    else if times == [] then None
    else Some(times[0])
  }

  /** The list is not cycled: every index past its end, and every index
      whose entry is empty, gets the first entry. */
  lemma TimeForFallsBackToFirst(times: seq<string>, i: nat)
    requires i >= |times| || times[i] == ""
    requires times != []
    ensures TimeFor(times, i) == Some(times[0]) == TimeFor(times, 0)
  {
  }

  /** The record pushed for session i on the given date. */
  function Record(userId: string, plan: Plan, date: int, i: nat): NewSession {
    NewSession(userId, plan.id, date, TimeFor(plan.preferredTimes, i), plan.sessionDuration, Pending)
  }

  /** The records of one study day: sessions 0 .. count-1 in order. */
  function DayRecords(userId: string, plan: Plan, date: int, count: nat): seq<NewSession>
  {
    if count == 0 then [] else DayRecords(userId, plan, date, count - 1) + [Record(userId, plan, date, count - 1)]
  }

  /** The sessions of a study day with this code, if the code is known. */
  function SessionsPerDay(plan: Plan): nat {
    if plan.sessionsPerDay <= 0 then 0 else plan.sessionsPerDay
  }

  /** Specification of the nested loop over `days` (a prefix of the plan's
      study days): records day by day, an invalid date as soon as a day
      with an unknown code gets a record. */
  function WeekRecords(userId: string, plan: Plan, monday: int, days: seq<string>): Result<seq<NewSession>, GenError>
    decreases |days|
  {
    if days == [] then Ok([])
    else
      match WeekRecords(userId, plan, monday, days[..|days| - 1])
      case Err(e) => Err(e)
      case Ok(prefix) =>
        var n := SessionsPerDay(plan);
        if n == 0 then Ok(prefix)
        else
          match DayNumber(days[|days| - 1])
          case None => Err(InvalidDate)
          case Some(d) => Ok(prefix + DayRecords(userId, plan, monday + MondayOffset(d), n))
  }

  lemma {:induction false} DayRecordsAt(userId: string, plan: Plan, date: int, count: nat)
    ensures |DayRecords(userId, plan, date, count)| == count
    ensures forall i :: 0 <= i < count ==> DayRecords(userId, plan, date, count)[i] == Record(userId, plan, date, i)
  {
    if count > 0 {
      DayRecordsAt(userId, plan, date, count - 1);
    }
  }

  /** The loop fails exactly when some study day has an unknown code and the
      plan asks for at least one session per day. */
  lemma {:induction false} WeekRecordsFails(userId: string, plan: Plan, monday: int, days: seq<string>)
    ensures WeekRecords(userId, plan, monday, days).Err? <==>
      SessionsPerDay(plan) > 0 && exists j :: 0 <= j < |days| && DayNumber(days[j]).None?
    ensures WeekRecords(userId, plan, monday, days).Err? ==> WeekRecords(userId, plan, monday, days).error == InvalidDate
  {
    if days != [] {
      var front := days[..|days| - 1];
      WeekRecordsFails(userId, plan, monday, front);
      if SessionsPerDay(plan) > 0 && (exists j :: 0 <= j < |days| && DayNumber(days[j]).None?) {
        var j :| 0 <= j < |days| && DayNumber(days[j]).None?;
        if j < |days| - 1 {
          assert front[j] == days[j];
        }
      }
      if exists j :: 0 <= j < |front| && DayNumber(front[j]).None? {
        var j :| 0 <= j < |front| && DayNumber(front[j]).None?;
        assert days[j] == front[j];
      }
    }
  }

  /** j * n + i lies in the block of day j. */
  lemma BlockIndex(j: nat, i: nat, n: nat, days: nat)
    requires j < days && i < n
    ensures j * n + i < days * n
    ensures j < days - 1 ==> j * n + i < (days - 1) * n
    ensures j == days - 1 ==> j * n + i - (days - 1) * n == i
  {
    assert (j + 1) * n == j * n + n;
    if j < days - 1 {
      assert (days - 1) * n >= (j + 1) * n;
    }
    assert days * n == (days - 1) * n + n;
  }

  /** Position k of a list of `days` blocks of n entries is entry i of block j. */
  lemma BlockOf(k: nat, n: nat, days: nat) returns (j: nat, i: nat)
    requires k < days * n
    ensures j < days && i < n && k == j * n + i
  {
    j, i := 0, k;
    while i >= n
      invariant k == j * n + i && j <= days
      invariant j * n <= k
    {
      assert (j + 1) * n == j * n + n;
      j, i := j + 1, i - n;
    }
  }

  /** Exactly |days| * sessionsPerDay records are built. */
  lemma {:induction false} WeekRecordsLength(userId: string, plan: Plan, monday: int, days: seq<string>)
    requires WeekRecords(userId, plan, monday, days).Ok?
    ensures |WeekRecords(userId, plan, monday, days).value| == |days| * SessionsPerDay(plan)
  {
    var n := SessionsPerDay(plan);
    if days != [] {
      var front := days[..|days| - 1];
      WeekRecordsLength(userId, plan, monday, front);
      if n > 0 {
        var d := DayNumber(days[|days| - 1]).value;
        DayRecordsAt(userId, plan, monday + MondayOffset(d), n);
        assert |days| * n == (|days| - 1) * n + n;
      }
    }
  }

  /** Records come in day order and session order: record j * n + i belongs
      to study day j and session i. */
  lemma {:induction false} WeekRecordAt(userId: string, plan: Plan, monday: int, days: seq<string>, j: nat, i: nat)
    requires WeekRecords(userId, plan, monday, days).Ok?
    requires j < |days| && i < SessionsPerDay(plan)
    ensures j * SessionsPerDay(plan) + i < |WeekRecords(userId, plan, monday, days).value|
    ensures DayNumber(days[j]).Some?
    ensures WeekRecords(userId, plan, monday, days).value[j * SessionsPerDay(plan) + i]
      == Record(userId, plan, monday + MondayOffset(DayNumber(days[j]).value), i)
  {
    var n := SessionsPerDay(plan);
    var front := days[..|days| - 1];
    var prefix := WeekRecords(userId, plan, monday, front).value;
    var d := DayNumber(days[|days| - 1]).value;
    var date := monday + MondayOffset(d);
    assert WeekRecords(userId, plan, monday, days).value == prefix + DayRecords(userId, plan, date, n);
    WeekRecordsLength(userId, plan, monday, front);
    DayRecordsAt(userId, plan, date, n);
    BlockIndex(j, i, n, |days|);
    if j < |days| - 1 {
      WeekRecordAt(userId, plan, monday, front, j, i);
      assert days[j] == front[j];
    }
  }

  /** Every built record is pending, carries the plan's id and session
      duration and the preferred time of its index, and falls in the week
      that starts on `monday` on the weekday its study-day code names. */
  lemma RecordsInWeek(userId: string, plan: Plan, monday: int, j: nat, i: nat)
    requires Weekday(monday) == Monday
    requires WeekRecords(userId, plan, monday, plan.studyDays).Ok?
    requires j < |plan.studyDays| && i < SessionsPerDay(plan)
    ensures j * SessionsPerDay(plan) + i < |WeekRecords(userId, plan, monday, plan.studyDays).value|
    ensures var rec := WeekRecords(userId, plan, monday, plan.studyDays).value[j * SessionsPerDay(plan) + i];
      monday <= rec.scheduledDate <= monday + 6 &&
      Some(Weekday(rec.scheduledDate)) == DayNumber(plan.studyDays[j]) &&
      rec.status == Pending && rec.planId == plan.id && rec.durationMinutes == plan.sessionDuration &&
      rec.scheduledTime == TimeFor(plan.preferredTimes, i)
  {
    WeekRecordAt(userId, plan, monday, plan.studyDays, j, i);
    OffsetLandsOnWeekday(plan.studyDays[j], monday);
  }

  /** Every built record is pending and dated within the week. */
  lemma BuiltRecordsInWeek(userId: string, plan: Plan, monday: int, k: nat)
    requires Weekday(monday) == Monday
    requires WeekRecords(userId, plan, monday, plan.studyDays).Ok?
    requires k < |WeekRecords(userId, plan, monday, plan.studyDays).value|
    ensures var rec := WeekRecords(userId, plan, monday, plan.studyDays).value[k];
      rec.status == Pending && monday <= rec.scheduledDate <= monday + 6
  {
    var n := SessionsPerDay(plan);
    WeekRecordsLength(userId, plan, monday, plan.studyDays);
    var j, i := BlockOf(k, n, |plan.studyDays|);
    RecordsInWeek(userId, plan, monday, j, i);
  }

  /** One more study day appends that day's records. */
  lemma WeekRecordsNext(userId: string, plan: Plan, monday: int, days: seq<string>, k: nat, date: int)
    requires k < |days| && WeekRecords(userId, plan, monday, days[..k]).Ok?
    requires SessionsPerDay(plan) > 0 ==>
      DayNumber(days[k]).Some? && date == monday + MondayOffset(DayNumber(days[k]).value)
    ensures WeekRecords(userId, plan, monday, days[..k + 1])
      == Ok(WeekRecords(userId, plan, monday, days[..k]).value + DayRecords(userId, plan, date, SessionsPerDay(plan)))
  {
    assert days[..k + 1][..k] == days[..k];
    if SessionsPerDay(plan) == 0 {
      var prefix := WeekRecords(userId, plan, monday, days[..k]).value;
      assert prefix + [] == prefix;
    }
  }

  /** The nested loop of the generator: one record per study day and session
      index, pushed in order. */
  method BuildWeekSessions(userId: string, plan: Plan, monday: int) returns (r: Result<seq<NewSession>, GenError>)
    ensures r == WeekRecords(userId, plan, monday, plan.studyDays)
  {
    var days := plan.studyDays;
    var sessions: seq<NewSession> := [];
    var k := 0;
    while k < |days|
      invariant 0 <= k <= |days|
      invariant WeekRecords(userId, plan, monday, days[..k]) == Ok(sessions)
    {
      var dayNumber := DayNumber(days[k]);
      var date := if dayNumber.Some? then monday + MondayOffset(dayNumber.value) else monday;
      var before := sessions;
      var i := 0;
      while i < plan.sessionsPerDay
        invariant 0 <= i <= SessionsPerDay(plan)
        invariant i > 0 ==> dayNumber.Some?
        invariant sessions == before + DayRecords(userId, plan, date, i)
      {
        if dayNumber.None? {
          WeekRecordsFails(userId, plan, monday, days);
          return Err(InvalidDate);
        }
        Associative(before, DayRecords(userId, plan, date, i), [Record(userId, plan, date, i)]);
        sessions := sessions + [Record(userId, plan, date, i)];
        i := i + 1;
      }
      WeekRecordsNext(userId, plan, monday, days, k, date);
      k := k + 1;
    }
    assert days[..k] == days;
    return Ok(sessions);
  }

  /** `generateWeeklySessions`: build the records, then insert them only when
      the query for this user's sessions dated from Monday on came back
      null or empty. `existing` is that query's rows, `insertFails` whether
      the insert reports an error. */
  method GenerateWeeklySessions(userId: string, plan: Plan, today: int, existing: Option<seq<string>>, insertFails: bool)
    returns (r: Result<Generated, GenError>)
    ensures var built := WeekRecords(userId, plan, StartOfWeek(today), plan.studyDays);
      var noneThisWeek := existing.None? || existing.value == [];
      (built.Err? ==> r == Err(InvalidDate)) &&
      (built.Ok? && !noneThisWeek ==> r == Ok(Generated(0, []))) &&
      (built.Ok? && noneThisWeek && insertFails ==> r == Err(InsertFailed)) &&
      (built.Ok? && noneThisWeek && !insertFails ==> r == Ok(Generated(|built.value|, built.value)))
  {
    var monday := StartOfWeek(today);
    var built := BuildWeekSessions(userId, plan, monday);
    WeekRecordsFails(userId, plan, monday, plan.studyDays);
    if built.Err? {
      return Err(built.error);
    }
    var sessions := built.value;
    if existing.None? || existing.value == [] {
      if insertFails {
        return Err(InsertFailed);
      }
      return Ok(Generated(|sessions|, sessions));
    }
    return Ok(Generated(0, []));
  }

  /** `formatDuration`: "m min" below an hour, "h h mmin" above, and "h h"
      for whole hours. */
  function FormatDuration(minutes: int): string {
    if minutes < 60 then IntToString(minutes) + " min"
    else
      var hours := minutes / 60;
      var mins := minutes % 60;
      if mins > 0 then IntToString(hours) + "h " + IntToString(mins) + "min"
      else IntToString(hours) + "h"
  }

  /** The text gives back the minutes it was made from. */
  lemma FormatDurationRoundTrip(minutes: int)
    ensures ReadDuration(FormatDuration(minutes)) == Some(minutes)
  {
    if minutes < 60 {
      ReadMinutes(minutes, " min");
    } else if minutes % 60 > 0 {
      ReadHoursMinutes(minutes / 60, minutes % 60);
    } else {
      ReadHours(minutes / 60);
    }
  }

  /** The streak walk over completed dates: a date `streak` days before
      today extends the streak, a date further back ends it, and a later
      date (a repeat, or one in the future) is skipped. */
  function StreakWalk(dates: seq<int>, today: int, streak: nat): (r: nat)
    ensures streak <= r <= streak + |dates|
    decreases |dates|
  {
    if dates == [] then streak
    else
      var diff := today - dates[0];
      if diff == streak then StreakWalk(dates[1..], today, streak + 1)
      else if diff > streak then streak
      else StreakWalk(dates[1..], today, streak)
  }

  /** `calculateStreak`. `completed` is the query result: the dates of the
      user's completed sessions, newest first, or None on a failed query. */
  method CalculateStreak(completed: Option<seq<int>>, today: int) returns (streak: nat)
    ensures completed.None? || completed.value == [] ==> streak == 0
    ensures completed.Some? ==> streak == StreakWalk(completed.value, today, 0)
  {
    if completed.None? || completed.value == [] {
      return 0;
    }
    var dates := completed.value;
    streak := 0;
    var i := 0;
    while i < |dates|
      invariant 0 <= i <= |dates|
      invariant StreakWalk(dates[i..], today, streak) == StreakWalk(dates, today, 0)
    {
      assert dates[i..][1..] == dates[i + 1..];
      var diff := today - dates[i];
      if diff == streak {
        streak := streak + 1;
      } else if diff > streak {
        break;
      }
      i := i + 1;
    }
  }

  predicate SortedNewestFirst(dates: seq<int>) {
    forall i, j :: 0 <= i < j < |dates| ==> dates[i] >= dates[j]
  }

  /** The day j days before today has a completed session. */
  predicate StudiedDaysBefore(dates: seq<int>, today: int, j: int) {
    today - j in dates
  }

  /** Each day counted by the walk has a completed session. */
  lemma {:induction false} StreakDaysStudied(dates: seq<int>, today: int, s: nat)
    ensures forall j :: s <= j < StreakWalk(dates, today, s) ==> StudiedDaysBefore(dates, today, j)
    decreases |dates|
  {
    if dates != [] {
      StreakDaysStudied(dates[1..], today, if today - dates[0] == s then s + 1 else s);
      forall j | s <= j < StreakWalk(dates, today, s)
        ensures StudiedDaysBefore(dates, today, j)
      {
        if j != today - dates[0] {
          assert StudiedDaysBefore(dates[1..], today, j);
          assert today - j in dates[1..];
        }
      }
    }
  }

  /** On dates ordered newest first the walk stops at the first gap: the day
      right before the streak has no completed session. */
  lemma {:induction false} StreakStopsAtGap(dates: seq<int>, today: int, s: nat)
    requires SortedNewestFirst(dates)
    ensures today - StreakWalk(dates, today, s) !in dates
    decreases |dates|
  {
    if dates != [] {
      var rest := dates[1..];
      assert dates == [dates[0]] + rest;
      var diff := today - dates[0];
      assert SortedNewestFirst(rest) by {
        forall i, j | 0 <= i < j < |rest| ensures rest[i] >= rest[j] {
          assert rest[i] == dates[i + 1] && rest[j] == dates[j + 1];
        }
      }
      if diff == s {
        StreakStopsAtGap(rest, today, s + 1);
      } else if diff > s {
        forall d | d in rest ensures d < today - s {
          var i :| 0 <= i < |rest| && rest[i] == d;
          assert dates[i + 1] == d;
        }
      } else {
        StreakStopsAtGap(rest, today, s);
      }
    }
  }

  /** Without a completed session dated today the streak is 0. */
  lemma {:induction false} NoSessionTodayNoStreak(dates: seq<int>, today: int)
    requires today !in dates
    ensures StreakWalk(dates, today, 0) == 0
    decreases |dates|
  {
    if dates != [] {
      assert today - dates[0] != 0;
      NoSessionTodayNoStreak(dates[1..], today);
    }
  }

  /** The last k days ending today, as a set of day numbers. */
  function LastDays(today: int, k: nat): (r: set<int>)
    ensures |r| == k
    ensures forall d :: d in r <==> today - k < d <= today
  {
    if k == 0 then {} else LastDays(today, k - 1) + {today - (k - 1)}
  }

  lemma SubsetCard(a: set<int>, b: set<int>)
    requires a <= b
    ensures |a| <= |b|
  {
    assert b == a + (b - a);
  }

  /** Streak k: each of today, today-1, ..., today-(k-1) has a completed
      session, so k is at most the number of distinct completed dates;
      ordered newest first, today-k has none. */
  lemma StreakIsRunEndingToday(dates: seq<int>, today: int)
    ensures var k := StreakWalk(dates, today, 0);
      (forall j :: 0 <= j < k ==> StudiedDaysBefore(dates, today, j)) &&
      k <= |set d | d in dates| &&
      (SortedNewestFirst(dates) ==> today - k !in dates)
  {
    var k := StreakWalk(dates, today, 0);
    StreakDaysStudied(dates, today, 0);
    forall d | d in LastDays(today, k) ensures d in set x | x in dates {
      assert StudiedDaysBefore(dates, today, today - d);
    }
    SubsetCard(LastDays(today, k), set x | x in dates);
    if SortedNewestFirst(dates) {
      StreakStopsAtGap(dates, today, 0);
    }
  }

  /** The six bands of `getMotivationalMessage`. */
  datatype Motivation = NotStarted | GoodStart | OnTrack | PastHalf | AlmostThere | WeekDone {
    function Rank(): nat {
      match this
      case NotStarted => 0
      case GoodStart => 1
      case OnTrack => 2
      case PastHalf => 3
      case AlmostThere => 4
      case WeekDone => 5
    }

    function Message(): string {
      match this
      case NotStarted => "Vamos começar! O primeiro passo é sempre o mais importante. \U{1F680}"
      case GoodStart => "Ótimo começo! Continue assim e você vai longe. \U{1F4AA}"
      case OnTrack => "Você está no caminho certo! Mantenha o ritmo. \U{1F3AF}"
      case PastHalf => "Mais da metade concluída! Você está arrasando! \U{1F525}"
      case AlmostThere => "Quase lá! Mais um pouco de esforço e você completa a semana. \U{1F31F}"
      case WeekDone => "Parabéns! Você completou todas as sessões da semana! \U{1F389}"
    }
  }

  function MotivationBand(progressPercent: real): Motivation {
    if progressPercent == 0.0 then NotStarted
    else if progressPercent < 25.0 then GoodStart
    else if progressPercent < 50.0 then OnTrack
    else if progressPercent < 75.0 then PastHalf
    else if progressPercent < 100.0 then AlmostThere
    else WeekDone
  }

  function MotivationalMessage(progressPercent: real): string {
    MotivationBand(progressPercent).Message()
  }

  /** The band of a percent is fixed by how many of the thresholds 25, 50,
      75 and 100 it reaches; 0 alone is its own band, and a negative percent
      shares the band below 25. */
  lemma MotivationThresholds(p: real)
    ensures MotivationBand(p).Rank() ==
      if p == 0.0 then 0
      else 1 + (if p >= 25.0 then 1 else 0) + (if p >= 50.0 then 1 else 0)
             + (if p >= 75.0 then 1 else 0) + (if p >= 100.0 then 1 else 0)
  {
  }

  /** More progress never gives an earlier band. */
  lemma MotivationMonotone(p: real, q: real)
    requires 0.0 <= p <= q
    ensures MotivationBand(p).Rank() <= MotivationBand(q).Rank()
  {
    MotivationThresholds(p);
    MotivationThresholds(q);
  }
}
