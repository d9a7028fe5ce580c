/** src/app/page.tsx: the root page. It restores the logged-in user from
    local storage, records a sign-in, records the end of onboarding, and
    picks the screen: loading, sign-in, onboarding or dashboard. */
module AppPage {
  import opened Wrappers
  import opened Records

  /** The page's state; `userId` None is `null`. */
  datatype AppState = AppState(userId: Option<string>, userName: string, onboardingCompleted: bool, loading: bool)

  /** The state before the restore effect has run. */
  const Initial: AppState := AppState(None, "", false, true)

  /** The screen rendered; the onboarding and dashboard screens receive the
      user id (and the dashboard the name). */
  datatype Screen = Loading | Auth | Onboarding(userId: string) | Dashboard(userId: string, userName: string)

  /** A stored plain text that JavaScript counts as truthy: present and
      not empty. */
  predicate HoldsText(v: Option<Stored>) {
    v.Some? && v.value.Text? && v.value.text != ""
  }

  /** `getItem('onboarding_completed_<id>') === 'true'` */
  predicate OnboardedIn(store: LocalStorage, userId: string) {
    GetItem(store, OnboardingKey(userId)) == Some(Text("true"))
  }

  /** The mount effect: when both login keys hold text, the user, the name
      and the onboarding flag are read back; either way loading ends. */
  function Restore(st: AppState, store: LocalStorage): AppState {
    var user := GetItem(store, LoggedUserKey);
    var name := GetItem(store, LoggedUserNameKey);
    if HoldsText(user) && HoldsText(name) then
      AppState(Some(user.value.text), name.value.text, OnboardedIn(store, user.value.text), false)
    else st.(loading := false)
  }

  /** `handleAuth(id, name)`: the new state and the storage after it. */
  function SignedIn(st: AppState, store: LocalStorage, id: string, name: string): (AppState, LocalStorage) {
    var after := store[LoggedUserKey := Text(id)][LoggedUserNameKey := Text(name)];
    (AppState(Some(id), name, OnboardedIn(after, id), st.loading), after)
  }

  /** The onboarding screen's `onComplete`; that screen only shows for a
      user. */
  function OnboardingDone(st: AppState, store: LocalStorage): (AppState, LocalStorage)
    requires st.userId.Some?
  {
    (st.(onboardingCompleted := true), store[OnboardingKey(st.userId.value) := Text("true")])
  }

  /** The render: loading first, then sign-in without a (truthy) user id,
      then onboarding until it is completed, then the dashboard. */
  function ScreenOf(st: AppState): Screen {
    if st.loading then Loading
    else if st.userId.None? || st.userId.value == "" then Auth
    else if !st.onboardingCompleted then Onboarding(st.userId.value)
    else Dashboard(st.userId.value, st.userName)
  }

  /** The three keys the page uses never coincide. */
  lemma KeysDistinct(userId: string)
    ensures LoggedUserKey != LoggedUserNameKey
    ensures OnboardingKey(userId) != LoggedUserKey && OnboardingKey(userId) != LoggedUserNameKey
  {
    assert |LoggedUserKey| != |LoggedUserNameKey|;
    assert OnboardingKey(userId)[0] == 'o';
    assert LoggedUserKey[0] == 'r' && LoggedUserNameKey[0] == 'r';
  }

  /** After the mount effect the page never stays on the loading screen: it
      shows the dashboard or onboarding for a stored login (as the stored
      onboarding flag says) and the sign-in screen otherwise. */
  lemma RestoreScreen(store: LocalStorage)
    ensures var user := GetItem(store, LoggedUserKey);
      var name := GetItem(store, LoggedUserNameKey);
      var screen := ScreenOf(Restore(Initial, store));
      screen != Loading &&
      (screen == Auth <==> !(HoldsText(user) && HoldsText(name))) &&
      (screen.Dashboard? <==> HoldsText(user) && HoldsText(name) && OnboardedIn(store, user.value.text)) &&
      (screen.Dashboard? ==> screen == Dashboard(user.value.text, name.value.text)) &&
      (screen.Onboarding? ==> screen == Onboarding(user.value.text))
  {
  }

  /** Signing in stores both login keys without touching the onboarding
      flag, so the flag the page reads is the one stored before; and with
      a non-empty id and name a reload restores exactly the signed-in
      session. */
  lemma SignInPersists(st: AppState, store: LocalStorage, id: string, name: string)
    ensures var (s1, after) := SignedIn(st, store, id, name);
      GetItem(after, LoggedUserKey) == Some(Text(id)) &&
      GetItem(after, LoggedUserNameKey) == Some(Text(name)) &&
      s1.onboardingCompleted == OnboardedIn(store, id) &&
      (forall k :: k != LoggedUserKey && k != LoggedUserNameKey ==> GetItem(after, k) == GetItem(store, k)) &&
      (id != "" && name != "" ==> Restore(Initial, after) == s1.(loading := false))
  {
    KeysDistinct(id);
  }

  /** A sign-in with the empty id (a name made only of spaces yields it, see
      `AuthPage.BlankNameGetsEmptyKey`) leaves the page on the sign-in
      screen, and a reload does not restore it either. */
  lemma BlankIdStaysOnAuth(st: AppState, store: LocalStorage, name: string)
    requires !st.loading
    ensures var (s1, after) := SignedIn(st, store, "", name);
      ScreenOf(s1) == Auth && Restore(Initial, after) == Initial.(loading := false)
  {
  }

  /** Completing onboarding makes the page show the dashboard, and a reload
      of the stored login then restores the user as onboarded. */
  lemma OnboardingPersists(st: AppState, store: LocalStorage)
    requires st.userId.Some? && st.userId.value != "" && !st.loading
    requires GetItem(store, LoggedUserKey) == Some(Text(st.userId.value))
    requires HoldsText(GetItem(store, LoggedUserNameKey))
    ensures var (s1, after) := OnboardingDone(st, store);
      ScreenOf(s1) == Dashboard(st.userId.value, st.userName) &&
      Restore(Initial, after) == AppState(st.userId, GetItem(store, LoggedUserNameKey).value.text, true, false)
  {
    KeysDistinct(st.userId.value);
  }

  /** The page component, whose handlers are proved against the functions
      above. */
  class App {
    var userId: Option<string>
    var userName: string
    var onboardingCompleted: bool
    var loading: bool

    function State(): AppState
      reads this
    {
      AppState(userId, userName, onboardingCompleted, loading)
    }

    constructor ()
      ensures State() == Initial
    {
      userId := None;
      userName := "";
      onboardingCompleted := false;
      loading := true;
    }

    /** The mount effect. */
    method LoadFromStorage(store: LocalStorage)
      modifies this
      ensures State() == Restore(old(State()), store)
    {
      var loggedUser := GetItem(store, LoggedUserKey);
      var loggedUserName := GetItem(store, LoggedUserNameKey);
      if HoldsText(loggedUser) && HoldsText(loggedUserName) {
        userId := Some(loggedUser.value.text);
        userName := loggedUserName.value.text;
        var completed := GetItem(store, OnboardingKey(loggedUser.value.text));
        onboardingCompleted := completed == Some(Text("true"));
      }
      loading := false;
    }

    /** `handleAuth`, returning the storage after its two writes. */
    method HandleAuth(store: LocalStorage, id: string, name: string) returns (after: LocalStorage)
      modifies this
      ensures (State(), after) == SignedIn(old(State()), store, id, name)
    {
      userId := Some(id);
      userName := name;
      after := store[LoggedUserKey := Text(id)];
      after := after[LoggedUserNameKey := Text(name)];
      var completed := GetItem(after, OnboardingKey(id));
      onboardingCompleted := completed == Some(Text("true"));
    }

    /** The `onComplete` passed to the onboarding screen. */
    method CompleteOnboarding(store: LocalStorage) returns (after: LocalStorage)
      requires userId.Some?
      modifies this
      ensures (State(), after) == OnboardingDone(old(State()), store)
    {
      after := store[OnboardingKey(userId.value) := Text("true")];
      onboardingCompleted := true;
    }
  }
}
