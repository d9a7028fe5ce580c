/** src/app/components/OnboardingPage.tsx: the first-run form. The user
    lists up to ten subjects and picks a daily study time; completing the
    form stores both under keys that end in the user id. */
module Onboarding {
  import opened Wrappers
  import opened Text
  import opened Records
  import opened SubjectLists

  const MaxSubjects: nat := 10
  const DefaultDailyMinutes: int := 120

  /** The values the range input produces: 30 to 480 in steps of 30. */
  predicate SliderValue(m: int) {
    30 <= m <= 480 && m % 30 == 0
  }

  /** The label under the slider: whole hours, then the remaining minutes. */
  function DailyLabel(m: int): string {
    IntToString(m / 60) + "h " + IntToString(m % 60) + "min"
  }

  /** The label shows exactly the chosen minutes. */
  lemma DailyLabelRoundTrip(m: int)
    requires m >= 0
    ensures ReadDuration(DailyLabel(m)) == Some(m)
  {
    ReadHoursMinutes(m / 60, m % 60);
  }

  function SubjectsKey(userId: string): string {
    UserKey("user_subjects_", userId)
  }

  function MinutesKey(userId: string): string {
    UserKey("daily_minutes_", userId)
  }

  /** Local storage after both writes of the completion handler. */
  function Saved(store: LocalStorage, userId: string, subjects: seq<string>, minutes: int): LocalStorage {
    store[SubjectsKey(userId) := TextList(subjects)][MinutesKey(userId) := Text(IntToString(minutes))]
  }

  /** After saving, the subjects and the minutes are read back from their
      keys, and no other key changed. */
  lemma SavedReadsBack(store: LocalStorage, userId: string, subjects: seq<string>, minutes: int)
    ensures GetItem(Saved(store, userId, subjects, minutes), SubjectsKey(userId)) == Some(TextList(subjects))
    ensures GetItem(Saved(store, userId, subjects, minutes), MinutesKey(userId)) == Some(Text(IntToString(minutes)))
    ensures forall k :: k != SubjectsKey(userId) && k != MinutesKey(userId) ==>
      GetItem(Saved(store, userId, subjects, minutes), k) == GetItem(store, k)
  {
    assert SubjectsKey(userId)[0] != MinutesKey(userId)[0];
  }

  /** The form's state. */
  class OnboardingForm {
    const userId: string
    var subjects: seq<string>
    var newSubject: string
    var dailyMinutes: int

    /** At most ten subjects, each trimmed and non-empty, and a slider value. */
    predicate Valid()
      reads this
    {
      |subjects| <= MaxSubjects && Clean(subjects) && SliderValue(dailyMinutes)
    }

    constructor (userId: string)
      ensures this.userId == userId && subjects == [] && newSubject == "" && dailyMinutes == DefaultDailyMinutes
      ensures Valid()
    {
      this.userId := userId;
      subjects := [];
      newSubject := "";
      dailyMinutes := DefaultDailyMinutes;
    }

    /** Typing in the subject field. */
    method SetNewSubject(text: string)
      requires Valid()
      modifies this
      ensures newSubject == text && subjects == old(subjects) && dailyMinutes == old(dailyMinutes)
      ensures Valid()
    {
      newSubject := text;
    }

    /** Moving the slider. */
    method SetDailyMinutes(m: int)
      requires Valid() && SliderValue(m)
      modifies this
      ensures dailyMinutes == m && subjects == old(subjects) && newSubject == old(newSubject)
      ensures Valid()
    {
      dailyMinutes := m;
    }

    /** `handleAddSubject`: appends the trimmed text and clears the field
      when the text is not blank and fewer than ten subjects are listed;
      duplicates are accepted. Otherwise nothing changes. */
    method HandleAddSubject()
      requires Valid()
      modifies this
      ensures subjects == AddSubject(old(subjects), old(newSubject), MaxSubjects, false)
      ensures newSubject == if Accepts(old(subjects), old(newSubject), MaxSubjects, false) then "" else old(newSubject)
      ensures dailyMinutes == old(dailyMinutes)
      ensures Valid()
    {
      AddKeeps(subjects, newSubject, MaxSubjects, false);
      var name := Trim(newSubject);
      if name != "" && |subjects| < MaxSubjects {
        subjects := subjects + [name];
        newSubject := "";
      }
    }

    /** `handleRemoveSubject` */
    method HandleRemoveSubject(index: int)
      requires Valid()
      modifies this
      ensures subjects == RemoveAt(old(subjects), index)
      ensures newSubject == old(newSubject) && dailyMinutes == old(dailyMinutes)
      ensures Valid()
    {
      RemoveKeeps(subjects, index, MaxSubjects);
      subjects := RemoveAt(subjects, index);
    }

    /** `canComplete`: the finish button is enabled once a subject is listed. */
    predicate CanComplete()
      reads this
    {
      |subjects| > 0
    }

    /** `handleComplete`: stores the subjects (as JSON) and the minutes under
      the user's keys, then reports completion. When storage refuses the
      first write, nothing is stored and an alert replaces the report. */
    method HandleComplete(store: LocalStorage, writeFails: bool) returns (after: LocalStorage, completed: bool)
      requires CanComplete()
      ensures completed == !writeFails
      ensures !writeFails ==> after == Saved(store, userId, subjects, dailyMinutes)
      ensures writeFails ==> after == store
      ensures !writeFails ==> GetItem(after, SubjectsKey(userId)) == Some(TextList(subjects))
    {
      if writeFails {
        return store, false;
      }
      after := store[SubjectsKey(userId) := TextList(subjects)];
      after := after[MinutesKey(userId) := Text(IntToString(dailyMinutes))];
      SavedReadsBack(store, userId, subjects, dailyMinutes);
      completed := true;
    }
  }
}
