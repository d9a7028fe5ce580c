/** Record types shared by several components: session status, the four
    notification switches, and the values that browser local storage holds. */
module Records {
  import opened Wrappers

  /** The `status` column of a study session. */
  datatype Status = Pending | Completed | Skipped | Abandoned

  /** `NotificationSettings` of src/lib/notifications.ts. */
  datatype NotificationSettings = NotificationSettings(
    studyReminder: bool,
    breakReminder: bool,
    dailySummary: bool,
    weeklySummary: bool)

  /** The name of one of the four switches (`keyof NotificationSettings`). */
  datatype NotificationKey = StudyReminderKey | BreakReminderKey | DailySummaryKey | WeeklySummaryKey

  function Flag(s: NotificationSettings, k: NotificationKey): bool {
    match k
    case StudyReminderKey => s.studyReminder
    case BreakReminderKey => s.breakReminder
    case DailySummaryKey => s.dailySummary
    case WeeklySummaryKey => s.weeklySummary
  }

  /** What local storage holds under a key. `Text` is a string stored as it
      is; `TextList` and `Flags` stand for the `JSON.stringify` text of a
      string array and of a settings object. Those texts start with `[` or
      `{`, so they are never empty and never equal a plain word. */
  datatype Stored = Text(text: string) | TextList(items: seq<string>) | Flags(settings: NotificationSettings)

  type LocalStorage = map<string, Stored>

  /** `localStorage.getItem(key)`, with `null` as None. */
  function GetItem(store: LocalStorage, key: string): Option<Stored> {
    if key in store then Some(store[key]) else None
  }

  /** JavaScript truthiness of a `getItem` result: present and not "". */
  predicate Truthy(v: Option<Stored>) {
    v.Some? && v.value != Text("")
  }

  /** A study session as kept in local storage under `study_sessions_<id>`
      (the view of the notification summaries and the CSV export). The
      optional fields are None when absent. `date` is the day number of
      the stored ISO date text `dateText`. */
  datatype LocalSession = LocalSession(
    date: int,
    dateText: string,
    time: string,
    subject: Option<string>,
    duration: int,
    actualDuration: Option<int>,
    status: Status)

  /** `s.actualDuration || s.duration`: the actual minutes unless absent or 0. */
  function MinutesOf(s: LocalSession): int {
    if s.actualDuration.Some? && s.actualDuration.value != 0 then s.actualDuration.value else s.duration
  }

  /** The per-user keys are a fixed prefix followed by the user id. */
  function UserKey(prefix: string, userId: string): string {
    prefix + userId
  }

  /** The keys of the logged-in user's id and display name. */
  const LoggedUserKey: string := "ritmo_logged_user"
  const LoggedUserNameKey: string := "ritmo_logged_user_name"

  /** `onboarding_completed_<id>`, 'true' once the user finished onboarding. */
  function OnboardingKey(userId: string): string {
    UserKey("onboarding_completed_", userId)
  }
}
