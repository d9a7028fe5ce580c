/** The subject-list edits shared by the onboarding form and the subjects
    manager: append a trimmed entry under a length cap (the manager also
    refuses an entry already present) and remove by index, which is
    `filter((_, i) => i !== index)`. */
module SubjectLists {
  import opened Text
  import opened Sequences

  /** Whether the add handler accepts `input`: its trimmed text is not
      empty, the list is below the cap, and (when duplicates are refused)
      the trimmed text is not already listed, compared exactly. */
  predicate Accepts(list: seq<string>, input: string, cap: nat, refuseDuplicates: bool) {
    Trim(input) != "" && |list| < cap && (refuseDuplicates ==> Trim(input) !in list)
  }

  /** The list after the add handler. */
  function AddSubject(list: seq<string>, input: string, cap: nat, refuseDuplicates: bool): (r: seq<string>)
    ensures Accepts(list, input, cap, refuseDuplicates) ==> r == list + [Trim(input)]
    ensures !Accepts(list, input, cap, refuseDuplicates) ==> r == list
  {
    if Accepts(list, input, cap, refuseDuplicates) then list + [Trim(input)] else list
  }

  /** The list after the remove handler: every entry whose position is not
      `index`, in order. */
  function RemoveAt(list: seq<string>, index: int): seq<string>
    decreases |list|
  {
    if list == [] then []
    else RemoveAt(list[..|list| - 1], index) + (if |list| - 1 == index then [] else [list[|list| - 1]])
  }

  /** Removing deletes exactly the entry at an index in range and keeps the
      others in order; an index out of range changes nothing. */
  lemma {:induction false} RemoveAtSplice(list: seq<string>, index: int)
    ensures 0 <= index < |list| ==> RemoveAt(list, index) == list[..index] + list[index + 1..]
    ensures !(0 <= index < |list|) ==> RemoveAt(list, index) == list
    decreases |list|
  {
    if list != [] {
      var front := list[..|list| - 1];
      var last := list[|list| - 1];
      RemoveAtSplice(front, index);
      if 0 <= index < |list| - 1 {
        assert front[..index] == list[..index];
        assert front[index + 1..] + [last] == list[index + 1..];
      } else if index == |list| - 1 {
        assert list[index + 1..] == [];
      } else {
        assert front + [last] == list;
      }
    }
  }

  /** An entry the forms keep: not empty and already trimmed. */
  predicate CleanEntry(x: string) {
    x != "" && Trim(x) == x
  }

  /** Every entry is one the forms keep. */
  predicate Clean(list: seq<string>) {
    forall k :: 0 <= k < |list| ==> CleanEntry(list[k])
  }

  predicate Distinct(list: seq<string>) {
    forall i, j :: 0 <= i < j < |list| ==> list[i] != list[j]
  }

  /** Trimming twice changes nothing. */
  lemma TrimTwice(s: string)
    ensures Trim(Trim(s)) == Trim(s)
  {
    TrimShape(s);
    TrimKeepsCore(Trim(s));
  }

  /** Adding keeps the cap, keeps entries clean, and with duplicates refused
      keeps the list free of duplicates. */
  lemma AddKeeps(list: seq<string>, input: string, cap: nat, refuseDuplicates: bool)
    ensures |list| <= cap ==> |AddSubject(list, input, cap, refuseDuplicates)| <= cap
    ensures Clean(list) ==> Clean(AddSubject(list, input, cap, refuseDuplicates))
    ensures refuseDuplicates && Distinct(list) ==> Distinct(AddSubject(list, input, cap, refuseDuplicates))
  {
    if Accepts(list, input, cap, refuseDuplicates) {
      TrimTwice(input);
      AppendClean(list, Trim(input));
      if refuseDuplicates {
        AppendDistinct(list, Trim(input));
      }
    }
  }

  lemma AppendClean(list: seq<string>, t: string)
    requires CleanEntry(t)
    ensures Clean(list) ==> Clean(list + [t])
  {
    if Clean(list) {
      AppendAll(list, t, CleanEntry);
    }
  }

  lemma AppendDistinct(list: seq<string>, t: string)
    requires t !in list
    ensures Distinct(list) ==> Distinct(list + [t])
  {
    if Distinct(list) {
      var r := list + [t];
      forall i, j | 0 <= i < j < |r| ensures r[i] != r[j] {
        assert r[i] == list[i];
        if j == |list| {
          assert list[i] in list;
        } else {
          assert r[j] == list[j];
        }
      }
    }
  }

  /** Removing keeps the cap, clean entries and distinct entries. */
  lemma RemoveKeeps(list: seq<string>, index: int, cap: nat)
    ensures |list| <= cap ==> |RemoveAt(list, index)| <= cap
    ensures Clean(list) ==> Clean(RemoveAt(list, index))
    ensures Distinct(list) ==> Distinct(RemoveAt(list, index))
  {
    RemoveAtSplice(list, index);
    if 0 <= index < |list| {
      var r := RemoveAt(list, index);
      SkipMap(list, index, r);
      if Clean(list) {
        SkipClean(list, r, index);
      }
      if Distinct(list) {
        SkipDistinct(list, r, index);
      }
    }
  }

  lemma SkipMap(list: seq<string>, index: int, r: seq<string>)
    requires 0 <= index < |list| && r == list[..index] + list[index + 1..]
    ensures |r| == |list| - 1
    ensures forall k :: 0 <= k < |r| ==> 0 <= Skip(k, index) < |list| && r[k] == list[Skip(k, index)]
  {
  }

  lemma SkipClean(list: seq<string>, r: seq<string>, index: int)
    requires Clean(list)
    requires forall k :: 0 <= k < |r| ==> 0 <= Skip(k, index) < |list| && r[k] == list[Skip(k, index)]
    ensures Clean(r)
  {
    forall k | 0 <= k < |r| ensures CleanEntry(r[k]) {
      assert r[k] == list[Skip(k, index)];
    }
  }

  lemma SkipDistinct(list: seq<string>, r: seq<string>, index: int)
    requires Distinct(list) && |r| == |list| - 1
    requires forall k :: 0 <= k < |r| ==> 0 <= Skip(k, index) < |list| && r[k] == list[Skip(k, index)]
    ensures Distinct(r)
  {
    forall i, j | 0 <= i < j < |r| ensures r[i] != r[j] {
      assert Skip(i, index) < Skip(j, index);
    }
  }

  /** Position in the original list of position k after removing `index`. */
  function Skip(k: int, index: int): int {
    if k < index then k else k + 1
  }
}
