/** src/app/components/SubjectsManager.tsx: editing the subject list from
    the dashboard. Edits act on a local copy of the list it is given, which
    is handed back only on save. */
module SubjectsManager {
  import opened Wrappers
  import opened Text
  import opened SubjectLists

  const MaxSubjects: nat := 15

  class SubjectsEditor {
    /** The `subjects` prop, which the editor never changes. */
    const subjects: seq<string>
    var localSubjects: seq<string>
    var newSubject: string

    constructor (subjects: seq<string>)
      ensures this.subjects == subjects && localSubjects == subjects && newSubject == ""
    {
      this.subjects := subjects;
      localSubjects := subjects;
      newSubject := "";
    }

    /** Typing in the subject field. */
    method SetNewSubject(text: string)
      modifies this
      ensures newSubject == text && localSubjects == old(localSubjects)
    {
      newSubject := text;
    }

    /** `handleAddSubject`: appends the trimmed text and clears the field when
      the text is not blank, fewer than 15 subjects are listed and the
      trimmed text is not listed yet. A list within the cap stays within it
      and a list without duplicates stays without them. */
    method HandleAddSubject()
      modifies this
      ensures localSubjects == AddSubject(old(localSubjects), old(newSubject), MaxSubjects, true)
      ensures newSubject == if Accepts(old(localSubjects), old(newSubject), MaxSubjects, true) then "" else old(newSubject)
      ensures |old(localSubjects)| <= MaxSubjects ==> |localSubjects| <= MaxSubjects
      ensures Distinct(old(localSubjects)) ==> Distinct(localSubjects)
    {
      AddKeeps(localSubjects, newSubject, MaxSubjects, true);
      var name := Trim(newSubject);
      if name != "" && |localSubjects| < MaxSubjects && name !in localSubjects {
        localSubjects := localSubjects + [name];
        newSubject := "";
      }
    }

    /** `handleRemoveSubject` */
    method HandleRemoveSubject(index: int)
      modifies this
      ensures localSubjects == RemoveAt(old(localSubjects), index)
      ensures newSubject == old(newSubject)
      ensures Distinct(old(localSubjects)) ==> Distinct(localSubjects)
    {
      RemoveKeeps(localSubjects, index, MaxSubjects);
      localSubjects := RemoveAt(localSubjects, index);
    }

    /** `handleSave`: the list handed to `onUpdate`, or None when the list
      is empty and an alert is shown instead. */
    method HandleSave() returns (update: Option<seq<string>>)
      ensures update.None? <==> localSubjects == []
      ensures update.Some? ==> update.value == localSubjects
    {
      if |localSubjects| == 0 {
        return None;
      }
      return Some(localSubjects);
    }
  }
}
