/** src/app/components/SettingsModal.tsx: the account, preference and
    notification settings of a signed-in user. This component reads
    'ritmo_users' as an array of entries with an `id`; the parsed array is a
    parameter and the array to store back a result. Other local-storage keys
    live in the `LocalStorage` map. */
module SettingsModal {
  import opened Wrappers
  import opened Text
  import opened Records

  /** An entry of the 'ritmo_users' array as this component sees it: the
      fields it reads. Any other fields are copied back unchanged. */
  datatype UserEntry = UserEntry(id: string, password: string)

  function ThemeKey(userId: string): string { UserKey("theme_", userId) }
  function FontSizeKey(userId: string): string { UserKey("font_size_", userId) }
  function AnimationsKey(userId: string): string { UserKey("reduced_animations_", userId) }
  function NotificationsKey(userId: string): string { UserKey("notification_settings_", userId) }

  // ---------------------------------------------------------------------------
  // password change

  datatype PasswordError = MissingFields | Mismatch | WrongCurrent {
    function Message(): string {
      match this
      case MissingFields => "Preencha todos os campos"
      case Mismatch => "As senhas não coincidem"
      case WrongCurrent => "Senha atual incorreta"
    }
  }

  /** `users.find(u => u.id === userId)`, as a position. */
  function FindUser(users: seq<UserEntry>, userId: string): (r: Option<nat>)
    ensures r.Some? ==> (r.value < |users| && users[r.value].id == userId &&
                          forall k :: 0 <= k < r.value ==> users[k].id != userId)
    ensures r.None? ==> forall k :: 0 <= k < |users| ==> users[k].id != userId
    decreases |users|
  {
    if users == [] then None
    else if users[0].id == userId then Some(0)
    else
      match FindUser(users[1..], userId)
      case None => None
      case Some(i) => Some(i + 1)
  }

  /** `handleChangePassword`: the checks in their order, then the users
      array with the found entry's password replaced. */
  function ChangePassword(users: seq<UserEntry>, userId: string, current: string, newPassword: string, confirm: string)
    : Result<seq<UserEntry>, PasswordError>
  {
    if current == "" || newPassword == "" || confirm == "" then Err(MissingFields)
    else if newPassword != confirm then Err(Mismatch)
    else
      match FindUser(users, userId)
      case None => Err(WrongCurrent)
      case Some(i) =>
        if users[i].password != current then Err(WrongCurrent)
        else Ok(users[i := users[i].(password := newPassword)])
  }

  /** The checks run in order: empty fields, then mismatch, then an unknown
      user or a wrong current password. Only when all pass does exactly one
      entry change: the first with the user's id gets the new password. */
  lemma PasswordChain(users: seq<UserEntry>, userId: string, current: string, newPassword: string, confirm: string)
    ensures var r := ChangePassword(users, userId, current, newPassword, confirm);
      (current == "" || newPassword == "" || confirm == "" ==> r == Err(MissingFields)) &&
      (current != "" && newPassword != "" && confirm != "" && newPassword != confirm ==> r == Err(Mismatch)) &&
      (r.Ok? <==> current != "" && newPassword == confirm && confirm != "" &&
                  exists i :: 0 <= i < |users| && users[i].id == userId && users[i].password == current &&
                              forall k :: 0 <= k < i ==> users[k].id != userId) &&
      (r.Ok? ==> (|r.value| == |users| &&
                  exists i :: 0 <= i < |users| && users[i].id == userId && r.value[i] == UserEntry(userId, newPassword) &&
                              forall k :: 0 <= k < |users| && k != i ==> r.value[k] == users[k]))
  {
    var r := ChangePassword(users, userId, current, newPassword, confirm);
    var f := FindUser(users, userId);
    if exists i :: 0 <= i < |users| && users[i].id == userId && users[i].password == current &&
                   forall k :: 0 <= k < i ==> users[k].id != userId {
      var i :| 0 <= i < |users| && users[i].id == userId && users[i].password == current &&
               forall k :: 0 <= k < i ==> users[k].id != userId;
      assert f == Some(i);
    }
    if r.Ok? {
      assert r.value[f.value] == UserEntry(userId, newPassword);
    }
  }

  /** After a successful change the new password is the current one: the
      same change made again with it passes every check. */
  lemma NewPasswordIsCurrent(users: seq<UserEntry>, userId: string, current: string, newPassword: string, again: string)
    requires ChangePassword(users, userId, current, newPassword, newPassword).Ok?
    requires again != ""
    ensures var after := ChangePassword(users, userId, current, newPassword, newPassword).value;
      ChangePassword(after, userId, newPassword, again, again).Ok?
  {
    var i := FindUser(users, userId).value;
    var after := ChangePassword(users, userId, current, newPassword, newPassword).value;
    var j := FindUser(after, userId);
    assert after[i].id == userId;
    assert j == Some(i);
  }

  // ---------------------------------------------------------------------------
  // account deletion

  /** `users.filter(u => u.id !== userId)` */
  function WithoutUser(users: seq<UserEntry>, userId: string): (r: seq<UserEntry>)
    ensures |r| <= |users|
    ensures forall u :: u in r <==> u in users && u.id != userId
    ensures forall u :: multiset(r)[u] == if u.id != userId then multiset(users)[u] else 0
    decreases |users|
  {
    if users == [] then []
    else
      assert users == [users[0]] + users[1..];
      (if users[0].id != userId then [users[0]] else []) + WithoutUser(users[1..], userId)
  }

  /** The ten per-user keys that deletion clears. */
  function UserDataKeys(userId: string): set<string> {
    {UserKey("user_subjects_", userId), UserKey("daily_minutes_", userId),
     UserKey("study_sessions_", userId), UserKey("study_streak_", userId),
     UserKey("last_study_date_", userId), OnboardingKey(userId),
     ThemeKey(userId), FontSizeKey(userId), AnimationsKey(userId), NotificationsKey(userId)}
  }

  /** Local storage after the ten `removeItem` calls: those keys are gone
      and every other key keeps its value. */
  function ClearUserData(store: LocalStorage, userId: string): (r: LocalStorage)
    ensures forall k :: k in UserDataKeys(userId) ==> GetItem(r, k) == None
    ensures forall k :: k !in UserDataKeys(userId) ==> GetItem(r, k) == GetItem(store, k)
  {
    store - UserDataKeys(userId)
  }

  // ---------------------------------------------------------------------------
  // notification switches

  /** `{ ...settings, [key]: !settings[key] }` */
  function Toggle(s: NotificationSettings, key: NotificationKey): (r: NotificationSettings)
    ensures Flag(r, key) == !Flag(s, key)
    ensures forall k :: k != key ==> Flag(r, k) == Flag(s, k)
  {
    match key
    case StudyReminderKey => s.(studyReminder := !s.studyReminder)
    case BreakReminderKey => s.(breakReminder := !s.breakReminder)
    case DailySummaryKey => s.(dailySummary := !s.dailySummary)
    case WeeklySummaryKey => s.(weeklySummary := !s.weeklySummary)
  }

  /** Settings are determined by their four flags, so toggling a switch
      twice restores them. */
  lemma ToggleTwice(s: NotificationSettings, key: NotificationKey)
    ensures Toggle(Toggle(s, key), key) == s
  {
    var r := Toggle(Toggle(s, key), key);
    assert Flag(r, StudyReminderKey) == Flag(s, StudyReminderKey);
    assert Flag(r, BreakReminderKey) == Flag(s, BreakReminderKey);
    assert Flag(r, DailySummaryKey) == Flag(s, DailySummaryKey);
    assert Flag(r, WeeklySummaryKey) == Flag(s, WeeklySummaryKey);
  }

  // ---------------------------------------------------------------------------
  // preferences

  /** `getItem(key) || fallback` for a key that holds plain text. */
  function TextOr(v: Option<Stored>, fallback: string): (t: string)
    ensures Truthy(v) && v.value.Text? ==> t == v.value.text
    ensures !Truthy(v) ==> t == fallback
  {
    if Truthy(v) && v.value.Text? then v.value.text else fallback
  }

  datatype Preferences = Preferences(theme: string, fontSize: string, reducedAnimations: bool)

  /** What the modal loads on opening. */
  function LoadPreferences(store: LocalStorage, userId: string): Preferences {
    Preferences(
      TextOr(GetItem(store, ThemeKey(userId)), "light"),
      TextOr(GetItem(store, FontSizeKey(userId)), "normal"),
      GetItem(store, AnimationsKey(userId)) == Some(Text("true")))
  }

  /** `reduced.toString()` */
  function BoolText(b: bool): string {
    if b then "true" else "false"
  }

  /** The three preference keys differ from each other and from the
      notification key, whatever the user id. */
  lemma PreferenceKeysDistinct(userId: string)
    ensures ThemeKey(userId) != FontSizeKey(userId) && ThemeKey(userId) != AnimationsKey(userId)
    ensures FontSizeKey(userId) != AnimationsKey(userId)
    ensures NotificationsKey(userId) !in {ThemeKey(userId), FontSizeKey(userId), AnimationsKey(userId)}
  {
    assert ThemeKey(userId)[0] == 't' && FontSizeKey(userId)[0] == 'f';
    assert AnimationsKey(userId)[0] == 'r' && NotificationsKey(userId)[0] == 'n';
  }

  /** Each setter's value is what the modal loads next time, and it leaves
      the other two preferences as they were. */
  lemma PreferencesRoundTrip(store: LocalStorage, userId: string, theme: string, fontSize: string, reduced: bool)
    requires theme == "light" || theme == "dark"
    requires fontSize == "normal" || fontSize == "large"
    ensures var p := LoadPreferences(store, userId);
      LoadPreferences(store[ThemeKey(userId) := Text(theme)], userId) == p.(theme := theme) &&
      LoadPreferences(store[FontSizeKey(userId) := Text(fontSize)], userId) == p.(fontSize := fontSize) &&
      LoadPreferences(store[AnimationsKey(userId) := Text(BoolText(reduced))], userId) == p.(reducedAnimations := reduced)
  {
    PreferenceKeysDistinct(userId);
  }

  // ---------------------------------------------------------------------------
  // CSV export

  /** The column titles of the export. */
  const HeaderFields: seq<string> :=
    ["Data", "Horário", "Matéria", "Duração Planejada (min)", "Duração Real (min)", "Status"]

  /** "Data,Horário,Matéria,Duração Planejada (min),Duração Real (min),Status" */
  const CsvHeader: string := Join(HeaderFields, ',')

  function StatusText(s: Status): string {
    match s
    case Pending => "pending"
    case Completed => "completed"
    case Skipped => "skipped"
    case Abandoned => "abandoned"
  }

  /** `session.subject || 'N/A'` */
  function SubjectText(subject: Option<string>): string {
    if subject.Some? && subject.value != "" then subject.value else "N/A"
  }

  /** The six fields of a session's row. */
  function CsvFields(s: LocalSession): (f: seq<string>)
    ensures |f| == 6
    ensures f[2] == (if s.subject.None? || s.subject.value == "" then "N/A" else s.subject.value)
    ensures f[4] == IntToString(if s.actualDuration.None? || s.actualDuration.value == 0 then s.duration
                                else s.actualDuration.value)
  {
    [s.dateText, s.time, SubjectText(s.subject), IntToString(s.duration), IntToString(MinutesOf(s)), StatusText(s.status)]
  }

  function CsvRow(s: LocalSession): string {
    Join(CsvFields(s), ',')
  }

  /** `sessions.filter(s => s.status === 'completed')` */
  function CompletedOf(sessions: seq<LocalSession>): (r: seq<LocalSession>)
    ensures |r| <= |sessions|
    ensures forall s :: s in r <==> s in sessions && s.status == Completed
    ensures forall s :: multiset(r)[s] == if s.status == Completed then multiset(sessions)[s] else 0
    decreases |sessions|
  {
    if sessions == [] then []
    else
      var last := sessions[|sessions| - 1];
      assert sessions == sessions[..|sessions| - 1] + [last];
      CompletedOf(sessions[..|sessions| - 1]) + (if last.status == Completed then [last] else [])
  }

  /** The lines of the export: the header, then one row per completed
      session in order. */
  function CsvLines(sessions: seq<LocalSession>): (lines: seq<string>)
    ensures |lines| == 1 + |CompletedOf(sessions)| && lines[0] == CsvHeader
    ensures forall k :: 0 <= k < |CompletedOf(sessions)| ==> lines[k + 1] == CsvRow(CompletedOf(sessions)[k])
    decreases |sessions|
  {
    if sessions == [] then [CsvHeader]
    else
      var last := sessions[|sessions| - 1];
      CsvLines(sessions[..|sessions| - 1]) + (if last.status == Completed then [CsvRow(last)] else [])
  }

  /** One more session adds its row when it is completed. */
  lemma CsvLinesStep(sessions: seq<LocalSession>, i: int)
    requires 0 <= i < |sessions|
    ensures CsvLines(sessions[..i + 1]) ==
      CsvLines(sessions[..i]) + (if sessions[i].status == Completed then [CsvRow(sessions[i])] else [])
  {
    assert sessions[..i + 1][..i] == sessions[..i];
  }

  lemma HeaderFieldsPlain()
    ensures forall k :: 0 <= k < |HeaderFields| ==> PlainField(HeaderFields[k])
  {
    ShortTitlesPlain();
    DurationTitlesPlain();
  }

  lemma ShortTitlesPlain()
    ensures PlainField("Data") && PlainField("Horário") && PlainField("Matéria") && PlainField("Status")
  {
  }

  lemma DurationTitlesPlain()
    ensures PlainField("Duração Planejada (min)") && PlainField("Duração Real (min)")
  {
  }

  /** The header is one line of six comma-separated titles. */
  lemma HeaderIsOneLine()
    ensures '\n' !in CsvHeader
    ensures Split(CsvHeader, ',') == HeaderFields
  {
    HeaderFieldsPlain();
    SplitJoin(HeaderFields, ',');
    JoinKeeps(HeaderFields, ',', '\n');
  }

  /** Lines each followed by a newline. */
  function Terminated(lines: seq<string>): string
    decreases |lines|
  {
    if lines == [] then "" else Terminated(lines[..|lines| - 1]) + lines[|lines| - 1] + "\n"
  }

  lemma TerminatedOne(line: string)
    ensures Terminated([line]) == line + "\n"
  {
    assert [line][..0] == [];
  }

  lemma TerminatedSnoc(lines: seq<string>, line: string)
    ensures Terminated(lines + [line]) == Terminated(lines) + line + "\n"
  {
    assert (lines + [line])[..|lines|] == lines;
  }

  /** Text the row writes as it is: no comma and no line break. */
  predicate PlainField(t: string) {
    ',' !in t && '\n' !in t
  }

  predicate PlainSession(s: LocalSession) {
    PlainField(s.dateText) && PlainField(s.time) && (s.subject.Some? ==> PlainField(s.subject.value))
  }

  /** A row of plain fields splits on commas back into its six fields. */
  lemma RowSplits(s: LocalSession)
    requires PlainSession(s)
    ensures Split(CsvRow(s), ',') == CsvFields(s)
    ensures '\n' !in CsvRow(s)
  {
    var f := CsvFields(s);
    IntToStringChars(s.duration, ',');
    IntToStringChars(MinutesOf(s), ',');
    IntToStringChars(s.duration, '\n');
    IntToStringChars(MinutesOf(s), '\n');
    assert forall k :: 0 <= k < 6 ==> PlainField(f[k]);
    SplitJoin(f, ',');
    JoinKeeps(f, ',', '\n');
  }

  /** Joining with another separator adds no `c`. */
  lemma {:induction false} JoinKeeps(parts: seq<string>, sep: char, c: char)
    requires c != sep
    requires forall k :: 0 <= k < |parts| ==> c !in parts[k]
    ensures c !in Join(parts, sep)
    decreases |parts|
  {
    if |parts| > 1 {
      JoinKeeps(parts[1..], sep, c);
    }
  }

  /** Newline-terminated lines are the pieces of a newline join with an
      empty last piece. */
  lemma {:induction false} TerminatedIsJoin(lines: seq<string>)
    ensures Terminated(lines) == Join(lines + [""], '\n')
    decreases |lines|
  {
    if lines != [] {
      var front := lines[..|lines| - 1];
      var last := lines[|lines| - 1];
      TerminatedIsJoin(front);
      JoinSnoc(front + [""], last, '\n');
      JoinSnoc(front + [last], "", '\n');
      if front == [] {
        assert lines + [""] == [last, ""];
      } else {
        JoinSnoc(front, "", '\n');
        JoinSnoc(front, last, '\n');
        assert front + [last] + [""] == lines + [""];
      }
    }
  }

  /** The export of sessions with plain fields splits on line breaks into
      exactly one header line and one line per completed session, followed
      by the empty text after the last break. */
  lemma CsvLinesSplit(sessions: seq<LocalSession>)
    requires forall s :: s in sessions ==> PlainSession(s)
    ensures Split(Terminated(CsvLines(sessions)), '\n') == CsvLines(sessions) + [""]
  {
    var lines := CsvLines(sessions);
    var done := CompletedOf(sessions);
    HeaderIsOneLine();
    forall k | 0 <= k < |lines + [""]| ensures '\n' !in (lines + [""])[k] {
      if 1 <= k < |lines| {
        assert done[k - 1] in sessions;
        RowSplits(done[k - 1]);
      }
    }
    TerminatedIsJoin(lines);
    SplitJoin(lines + [""], '\n');
  }

  /** The modal's state. */
  class SettingsForm {
    const userId: string
    var newName: string
    var currentPassword: string
    var newPassword: string
    var confirmPassword: string
    var theme: string
    var fontSize: string
    var reducedAnimations: bool
    var notificationSettings: NotificationSettings
    var showDeleteConfirm: bool

    constructor (userId: string, userName: string)
      ensures this.userId == userId && newName == userName
      ensures currentPassword == "" && newPassword == "" && confirmPassword == ""
      ensures theme == "light" && fontSize == "normal" && !reducedAnimations
      ensures notificationSettings == NotificationSettings(true, true, true, true) && !showDeleteConfirm
    {
      this.userId := userId;
      newName := userName;
      currentPassword := "";
      newPassword := "";
      confirmPassword := "";
      theme := "light";
      fontSize := "normal";
      reducedAnimations := false;
      notificationSettings := NotificationSettings(true, true, true, true);
      showDeleteConfirm := false;
    }

    /** The loading effect: the three preferences from storage, and the
      stored notification settings when there are some. */
    method Load(store: LocalStorage)
      modifies this
      ensures Preferences(theme, fontSize, reducedAnimations) == LoadPreferences(store, userId)
      ensures var v := GetItem(store, NotificationsKey(userId));
        notificationSettings == if Truthy(v) && v.value.Flags? then v.value.settings else old(notificationSettings)
      ensures newName == old(newName) && showDeleteConfirm == old(showDeleteConfirm)
      ensures currentPassword == old(currentPassword) && newPassword == old(newPassword) && confirmPassword == old(confirmPassword)
    {
      var p := LoadPreferences(store, userId);
      theme := p.theme;
      fontSize := p.fontSize;
      reducedAnimations := p.reducedAnimations;
      var v := GetItem(store, NotificationsKey(userId));
      if Truthy(v) && v.value.Flags? {
        notificationSettings := v.value.settings;
      }
    }

    /** `handleChangeName`: a blank name (after trimming) changes nothing;
      any other is stored as typed, untrimmed. */
    method HandleChangeName(store: LocalStorage) returns (after: LocalStorage)
      ensures Trim(newName) == "" ==> after == store
      ensures Trim(newName) != "" ==> (GetItem(after, LoggedUserNameKey) == Some(Text(newName)) &&
                                       forall k :: k != LoggedUserNameKey ==> GetItem(after, k) == GetItem(store, k))
    {
      if Trim(newName) == "" {
        return store;
      }
      after := store[LoggedUserNameKey := Text(newName)];
    }

    /** `handleChangePassword`: the alert shown and the users array to store
      (unchanged on failure); the three fields are cleared on success only. */
    method HandleChangePassword(users: seq<UserEntry>) returns (after: seq<UserEntry>, alert: string)
      modifies this
      ensures var r := ChangePassword(users, userId, old(currentPassword), old(newPassword), old(confirmPassword));
        (r.Err? ==> (after == users && alert == r.error.Message() &&
                     currentPassword == old(currentPassword) && newPassword == old(newPassword) &&
                     confirmPassword == old(confirmPassword))) &&
        (r.Ok? ==> (after == r.value && alert == "Senha alterada com sucesso!" &&
                    currentPassword == "" && newPassword == "" && confirmPassword == ""))
      ensures newName == old(newName) && notificationSettings == old(notificationSettings)
      ensures showDeleteConfirm == old(showDeleteConfirm)
      ensures theme == old(theme) && fontSize == old(fontSize) && reducedAnimations == old(reducedAnimations)
    {
      var r := ChangePassword(users, userId, currentPassword, newPassword, confirmPassword);
      if r.Err? {
        return users, r.error.Message();
      }
      after := r.value;
      currentPassword := "";
      newPassword := "";
      confirmPassword := "";
      alert := "Senha alterada com sucesso!";
    }

    /** `handleDeleteAccount`: the first call only asks for confirmation;
      the second removes the user's entries and data and logs out. */
    method HandleDeleteAccount(users: seq<UserEntry>, store: LocalStorage)
      returns (usersAfter: seq<UserEntry>, storeAfter: LocalStorage, loggedOut: bool)
      modifies this
      ensures !old(showDeleteConfirm) ==> showDeleteConfirm && usersAfter == users && storeAfter == store && !loggedOut
      ensures old(showDeleteConfirm) ==> (showDeleteConfirm && loggedOut &&
                                          usersAfter == WithoutUser(users, userId) &&
                                          storeAfter == ClearUserData(store, userId))
      ensures newName == old(newName) && notificationSettings == old(notificationSettings)
      ensures theme == old(theme) && fontSize == old(fontSize) && reducedAnimations == old(reducedAnimations)
      ensures currentPassword == old(currentPassword) && newPassword == old(newPassword) && confirmPassword == old(confirmPassword)
    {
      if !showDeleteConfirm {
        showDeleteConfirm := true;
        return users, store, false;
      }
      usersAfter := WithoutUser(users, userId);
      storeAfter := ClearUserData(store, userId);
      loggedOut := true;
    }

    /** `handleThemeChange` */
    method HandleThemeChange(newTheme: string, store: LocalStorage) returns (after: LocalStorage)
      requires newTheme == "light" || newTheme == "dark"
      modifies this
      ensures theme == newTheme && after == store[ThemeKey(userId) := Text(newTheme)]
      ensures fontSize == old(fontSize) && reducedAnimations == old(reducedAnimations)
      ensures notificationSettings == old(notificationSettings)
      ensures newName == old(newName) && showDeleteConfirm == old(showDeleteConfirm)
      ensures currentPassword == old(currentPassword) && newPassword == old(newPassword) && confirmPassword == old(confirmPassword)
    {
      theme := newTheme;
      after := store[ThemeKey(userId) := Text(newTheme)];
    }

    /** `handleFontSizeChange` */
    method HandleFontSizeChange(newSize: string, store: LocalStorage) returns (after: LocalStorage)
      requires newSize == "normal" || newSize == "large"
      modifies this
      ensures fontSize == newSize && after == store[FontSizeKey(userId) := Text(newSize)]
      ensures theme == old(theme) && reducedAnimations == old(reducedAnimations)
      ensures notificationSettings == old(notificationSettings)
      ensures newName == old(newName) && showDeleteConfirm == old(showDeleteConfirm)
      ensures currentPassword == old(currentPassword) && newPassword == old(newPassword) && confirmPassword == old(confirmPassword)
    {
      fontSize := newSize;
      after := store[FontSizeKey(userId) := Text(newSize)];
    }

    /** `handleAnimationsChange` */
    method HandleAnimationsChange(reduced: bool, store: LocalStorage) returns (after: LocalStorage)
      modifies this
      ensures reducedAnimations == reduced && after == store[AnimationsKey(userId) := Text(BoolText(reduced))]
      ensures theme == old(theme) && fontSize == old(fontSize)
      ensures notificationSettings == old(notificationSettings)
      ensures newName == old(newName) && showDeleteConfirm == old(showDeleteConfirm)
      ensures currentPassword == old(currentPassword) && newPassword == old(newPassword) && confirmPassword == old(confirmPassword)
    {
      reducedAnimations := reduced;
      after := store[AnimationsKey(userId) := Text(BoolText(reduced))];
    }

    /** `handleNotificationToggle`: flips one switch and stores all four. */
    method HandleNotificationToggle(key: NotificationKey, store: LocalStorage) returns (after: LocalStorage)
      modifies this
      ensures notificationSettings == Toggle(old(notificationSettings), key)
      ensures after == store[NotificationsKey(userId) := Flags(notificationSettings)]
      ensures theme == old(theme) && fontSize == old(fontSize) && reducedAnimations == old(reducedAnimations)
      ensures newName == old(newName) && showDeleteConfirm == old(showDeleteConfirm)
      ensures currentPassword == old(currentPassword) && newPassword == old(newPassword) && confirmPassword == old(confirmPassword)
    {
      notificationSettings := Toggle(notificationSettings, key);
      after := store[NotificationsKey(userId) := Flags(notificationSettings)];
    }

    /** `handleExportCSV`: builds the file text row by row. */
    method ExportCsv(sessions: seq<LocalSession>) returns (csv: string)
      ensures csv == Terminated(CsvLines(sessions))
    {
      csv := CsvHeader + "\n";
      TerminatedOne(CsvHeader);
      assert CsvLines(sessions[..0]) == [CsvHeader];
      var i := 0;
      while i < |sessions|
        invariant 0 <= i <= |sessions|
        invariant csv == Terminated(CsvLines(sessions[..i]))
      {
        var s := sessions[i];
        CsvLinesStep(sessions, i);
        if s.status == Completed {
          TerminatedSnoc(CsvLines(sessions[..i]), CsvRow(s));
          csv := csv + CsvRow(s) + "\n";
        } else {
          assert CsvLines(sessions[..i]) + [] == CsvLines(sessions[..i]);
        }
        i := i + 1;
      }
      assert sessions[..i] == sessions;
    }
  }
}
