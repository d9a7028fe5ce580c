/** src/lib/notifications.ts: which reminders and summaries are scheduled
    and what the summaries add up. Permission, clock and storage readings
    are parameters; a scheduled notification is its delay in milliseconds. */
module Notifications {
  import opened Wrappers
  import opened Text
  import opened Records
  import opened Calendar

  /** `defaultNotificationSettings`: everything on. */
  const Defaults: NotificationSettings := NotificationSettings(true, true, true, true)

  const MinuteMs: int := 60 * 1000
  const HourMs: int := 60 * MinuteMs

  /** The settings in force for a stored `notification_settings_<id>` value:
      a stored settings object replaces the defaults as a whole; a missing
      or empty value leaves the defaults. */
  function EffectiveSettings(stored: Option<Stored>): (s: NotificationSettings)
    ensures !Truthy(stored) ==> s == Defaults
    ensures stored.Some? && stored.value.Flags? ==> s == stored.value.settings
  {
    if Truthy(stored) && stored.value.Flags? then stored.value.settings else Defaults
  }

  /** `scheduleStudyReminder`: the delay of the reminder, if one is
      scheduled. Nothing is scheduled when the reminder is off or when the
      stored last study date is today's date text. */
  function StudyReminderDelay(settings: NotificationSettings, lastStudyDate: Option<Stored>, today: string): Option<int> {
    if !settings.studyReminder then None
    else if lastStudyDate == Some(Text(today)) then None
    else Some(HourMs)
  }

  /** The reminder's callback sends only if the date is still not today's. */
  predicate StudyReminderSends(lastStudyDateAtFire: Option<Stored>, today: string) {
    lastStudyDateAtFire != Some(Text(today))
  }

  /** Studying today suppresses the study reminder, both when scheduling
      and when it fires; otherwise it is due one hour later. */
  lemma StudyReminderRule(settings: NotificationSettings, lastStudyDate: Option<Stored>, today: string)
    ensures StudyReminderDelay(settings, lastStudyDate, today).Some? <==>
      settings.studyReminder && lastStudyDate != Some(Text(today))
    ensures StudyReminderDelay(settings, lastStudyDate, today).Some? ==>
      StudyReminderDelay(settings, lastStudyDate, today).value == 60 * 60 * 1000
    ensures !StudyReminderSends(Some(Text(today)), today)
  {
  }

  /** `scheduleBreakReminder`: five minutes before the end of a session of
      `durationMinutes`. */
  function BreakReminderDelay(durationMinutes: int, settings: NotificationSettings): Option<int> {
    if !settings.breakReminder then None
    else
      var notifyTime := (durationMinutes - 5) * MinuteMs;
      if notifyTime > 0 then Some(notifyTime) else None
  }

  /** The break reminder is scheduled exactly when it is on and the session
      is longer than five minutes, and then fires five minutes before the
      session ends. */
  lemma BreakReminderRule(durationMinutes: int, settings: NotificationSettings)
    ensures BreakReminderDelay(durationMinutes, settings).Some? <==> settings.breakReminder && durationMinutes > 5
    ensures BreakReminderDelay(durationMinutes, settings).Some? ==>
      BreakReminderDelay(durationMinutes, settings).value + 5 * MinuteMs == durationMinutes * MinuteMs
  {
  }

  // Summaries.

  /** Completed sessions dated today (the daily summary's filter). */
  function TodaySessions(sessions: seq<LocalSession>, today: int): (r: seq<LocalSession>)
    ensures |r| <= |sessions|
    ensures forall s :: s in r <==> s in sessions && s.date == today && s.status == Completed
    ensures forall s :: multiset(r)[s] == if s.date == today && s.status == Completed then multiset(sessions)[s] else 0
    decreases |sessions|
  {
    if sessions == [] then []
    else
      var s := sessions[0];
      assert sessions == [s] + sessions[1..];
      (if s.date == today && s.status == Completed then [s] else []) + TodaySessions(sessions[1..], today)
  }

  /** Completed sessions dated on or after Monday (the weekly filter). */
  function WeekSessions(sessions: seq<LocalSession>, monday: int): (r: seq<LocalSession>)
    ensures |r| <= |sessions|
    ensures forall s :: s in r <==> s in sessions && s.date >= monday && s.status == Completed
    ensures forall s :: multiset(r)[s] == if s.date >= monday && s.status == Completed then multiset(sessions)[s] else 0
    decreases |sessions|
  {
    if sessions == [] then []
    else
      var s := sessions[0];
      assert sessions == [s] + sessions[1..];
      (if s.date >= monday && s.status == Completed then [s] else []) + WeekSessions(sessions[1..], monday)
  }

  /** Σ (actualDuration || duration) */
  function TotalMinutes(sessions: seq<LocalSession>): int
    decreases |sessions|
  {
    if sessions == [] then 0 else MinutesOf(sessions[0]) + TotalMinutes(sessions[1..])
  }

  lemma {:induction false} TotalAppend(a: seq<LocalSession>, b: seq<LocalSession>)
    ensures TotalMinutes(a + b) == TotalMinutes(a) + TotalMinutes(b)
    decreases |a|
  {
    if a != [] {
      assert (a + b)[1..] == a[1..] + b;
      TotalAppend(a[1..], b);
    } else {
      assert a + b == b;
    }
  }

  predicate NonNegativeMinutes(sessions: seq<LocalSession>) {
    forall k :: 0 <= k < |sessions| ==> MinutesOf(sessions[k]) >= 0
  }

  /** When today falls in the week, the daily summary counts no more
      sessions and (with non-negative durations) no more minutes than the
      weekly one. */
  lemma {:induction false} DayWithinWeek(sessions: seq<LocalSession>, today: int, monday: int)
    requires monday <= today
    requires NonNegativeMinutes(sessions)
    ensures |TodaySessions(sessions, today)| <= |WeekSessions(sessions, monday)|
    ensures TotalMinutes(TodaySessions(sessions, today)) <= TotalMinutes(WeekSessions(sessions, monday))
    decreases |sessions|
  {
    if sessions != [] {
      var s := sessions[0];
      var t := if s.date == today && s.status == Completed then [s] else [];
      var w := if s.date >= monday && s.status == Completed then [s] else [];
      assert NonNegativeMinutes(sessions[1..]) by {
        forall k | 0 <= k < |sessions[1..]| ensures MinutesOf(sessions[1..][k]) >= 0 {
          assert sessions[1..][k] == sessions[k + 1];
        }
      }
      DayWithinWeek(sessions[1..], today, monday);
      TotalAppend(t, TodaySessions(sessions[1..], today));
      TotalAppend(w, WeekSessions(sessions[1..], monday));
      assert TotalMinutes(t) <= TotalMinutes(w) by {
        assert MinutesOf(s) >= 0;
        if t != [] {
          assert t == w == [s];
        }
      }
    }
  }

  /** The "<h>h <m>min" part of a summary: hours by `Math.floor`, minutes
      by JavaScript's `%`. */
  function HoursMinutes(total: int): string {
    IntToString(total / 60) + "h " + IntToString(TruncRem(total, 60)) + "min"
  }

  /** For a non-negative total the text shows exactly the total. */
  lemma HoursMinutesRoundTrip(total: int)
    requires total >= 0
    ensures ReadDuration(HoursMinutes(total)) == Some(total)
  {
    ReadHoursMinutes(total / 60, TruncRem(total, 60));
  }

  datatype Summary = Summary(title: string, body: string, total: int, count: nat)

  /** `sendDailySummary`: None when the summary is off or nothing was
      completed today. */
  function DailySummary(settings: NotificationSettings, sessions: seq<LocalSession>, today: int): Option<Summary> {
    var done := TodaySessions(sessions, today);
    if !settings.dailySummary || |done| == 0 then None
    else
      var total := TotalMinutes(done);
      Some(Summary("\U{1F4CA} Resumo do seu dia",
        "Você estudou " + HoursMinutes(total) + " hoje em " + IntToString(|done|) + " sessões. Parabéns! \U{1F389}",
        total, |done|))
  }

  /** `sendWeeklySummary`, for the week that starts on `StartOfWeek(today)`. */
  function WeeklySummary(settings: NotificationSettings, sessions: seq<LocalSession>, today: int): Option<Summary> {
    var done := WeekSessions(sessions, StartOfWeek(today));
    if !settings.weeklySummary || |done| == 0 then None
    else
      var total := TotalMinutes(done);
      Some(Summary("\U{1F4C8} Resumo da semana",
        "Esta semana você estudou " + HoursMinutes(total) + " em " + IntToString(|done|) + " sessões. Continue assim! \U{1F4AA}",
        total, |done|))
  }

  /** A summary is sent exactly when it is on and some session counts; it
      counts the completed sessions of the day (or week) and adds their
      actual minutes, falling back to planned minutes; on any day the daily
      figures stay within the weekly ones. */
  lemma SummariesAgree(settings: NotificationSettings, sessions: seq<LocalSession>, today: int)
    requires NonNegativeMinutes(sessions)
    ensures DailySummary(settings, sessions, today).Some? <==>
      settings.dailySummary && exists s :: s in sessions && s.date == today && s.status == Completed
    ensures WeeklySummary(settings, sessions, today).Some? <==>
      settings.weeklySummary && exists s :: s in sessions && s.date >= StartOfWeek(today) && s.status == Completed
    ensures DailySummary(settings, sessions, today).Some? && WeeklySummary(settings, sessions, today).Some? ==>
      DailySummary(settings, sessions, today).value.total <= WeeklySummary(settings, sessions, today).value.total &&
      DailySummary(settings, sessions, today).value.count <= WeeklySummary(settings, sessions, today).value.count
  {
    var d := TodaySessions(sessions, today);
    var w := WeekSessions(sessions, StartOfWeek(today));
    if exists s :: s in sessions && s.date == today && s.status == Completed {
      var s :| s in sessions && s.date == today && s.status == Completed;
      assert s in d;
    }
    if exists s :: s in sessions && s.date >= StartOfWeek(today) && s.status == Completed {
      var s :| s in sessions && s.date >= StartOfWeek(today) && s.status == Completed;
      assert s in w;
    }
    if |d| > 0 {
      assert d[0] in d;
    }
    if |w| > 0 {
      assert w[0] in w;
    }
    DayWithinWeek(sessions, today, StartOfWeek(today));
  }

  // Scheduling at start-up.

  const DailySummaryAt: int := 20 * HourMs
  const WeeklySummaryAt: int := 18 * HourMs

  /** What `initNotifications` schedules: the settings the callbacks use and
      the delays of the study reminder and the two summaries. */
  datatype Schedule = Schedule(
    settings: NotificationSettings,
    studyReminder: Option<int>,
    dailySummary: Option<int>,
    weeklySummary: Option<int>)

  /** `initNotifications`. `msOfDay` is the local time of day in ms and
      `weekday` today's `getDay`. Without permission nothing is scheduled
      (None, and the function returns false). */
  function InitNotifications(hasPermission: bool, storedSettings: Option<Stored>, lastStudyDate: Option<Stored>,
                             todayText: string, weekday: int, msOfDay: int): Option<Schedule>
  {
    if !hasPermission then None
    else
      var settings := EffectiveSettings(storedSettings);
      Some(Schedule(
        settings,
        StudyReminderDelay(settings, lastStudyDate, todayText),
        if DailySummaryAt > msOfDay then Some(DailySummaryAt - msOfDay) else None,
        if weekday == Sunday && WeeklySummaryAt > msOfDay then Some(WeeklySummaryAt - msOfDay) else None))
  }

  /** The daily summary is scheduled only before 20:00 and then fires at
      20:00; the weekly one only on Sunday before 18:00 and then fires at
      18:00. Both are scheduled whatever the settings say, which the
      summaries check when they fire. */
  lemma ScheduleTimes(hasPermission: bool, storedSettings: Option<Stored>, lastStudyDate: Option<Stored>,
                      todayText: string, weekday: int, msOfDay: int)
    requires hasPermission
    ensures var r := InitNotifications(hasPermission, storedSettings, lastStudyDate, todayText, weekday, msOfDay);
      r.Some? && r.value.settings == EffectiveSettings(storedSettings) &&
      (r.value.dailySummary.Some? <==> msOfDay < 20 * 60 * 60 * 1000) &&
      (r.value.dailySummary.Some? ==> msOfDay + r.value.dailySummary.value == 20 * 60 * 60 * 1000) &&
      (r.value.weeklySummary.Some? <==> weekday == 0 && msOfDay < 18 * 60 * 60 * 1000) &&
      (r.value.weeklySummary.Some? ==> msOfDay + r.value.weeklySummary.value == 18 * 60 * 60 * 1000)
  {
  }
}
