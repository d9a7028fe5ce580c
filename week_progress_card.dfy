/** src/app/components/dashboard/WeekProgressCard.tsx: the weekly progress
    card. It shows the completed/total count and its percentage, the
    streak when there is one, and the minutes per subject when there are
    any. The card is a view of its three inputs. */
module WeekProgressCard {
  import opened Wrappers
  import opened Text
  import opened DashboardPage

  /** One entry of the `subjectProgress` input. */
  datatype SubjectProgress = SubjectProgress(name: string, minutes: int, color: string)

  /** One row of the "Tempo por matéria" list: its React key, the colour
      of its dot, the subject name and the formatted minutes. */
  datatype SubjectRow = SubjectRow(key: string, color: string, name: string, time: string)

  /** What the card shows. `streak` and `subjects` are None when their
      section is not rendered. */
  datatype Card = Card(count: string, percent: real, streak: Option<string>, subjects: Option<seq<SubjectRow>>)

  /** `progress-${subject.name}-${index}` */
  function RowKey(name: string, index: nat): string {
    "progress-" + name + "-" + NatToString(index)
  }

  /** `subjectProgress.map(...)`: one row per entry, in order. */
  function SubjectRows(subjects: seq<SubjectProgress>): seq<SubjectRow> {
    seq(|subjects|, k requires 0 <= k < |subjects| =>
      SubjectRow(RowKey(subjects[k].name, k), subjects[k].color, subjects[k].name, CompactDuration(subjects[k].minutes)))
  }

  /** The rendered card. The percentage is the same expression as the
      dashboard's (`DashboardPage.ProgressPercent`) and `formatMinutes` is
      `Text.CompactDuration`. */
  function View(progress: WeekProgress, streak: int, subjects: seq<SubjectProgress>): Card {
    Card(
      IntToString(progress.completed) + "/" + IntToString(progress.total),
      ProgressPercent(progress.completed, progress.total),
      if streak > 0 then Some(IntToString(streak) + " dias") else None,
      if |subjects| > 0 then Some(SubjectRows(subjects)) else None)
  }

  /** The digits after the last dash are the same when two texts that end
      in a dash and a number are equal. */
  lemma SameDigitsAfterDash(a: string, d1: string, b: string, d2: string)
    requires AllDigits(d1) && AllDigits(d2)
    requires a + "-" + d1 == b + "-" + d2
    ensures d1 == d2
  {
    var s := a + "-" + d1;
    var t := b + "-" + d2;
    assert s[|s| - |d1| - 1] == '-' && t[|t| - |d2| - 1] == '-';
    assert |d1| == |d2|;
    assert d1 == s[|s| - |d1|..];
    assert d2 == t[|t| - |d2|..];
  }

  /** Rows at different positions get different keys, whatever the names. */
  lemma RowKeysDistinct(name1: string, i: nat, name2: string, j: nat)
    requires i != j
    ensures RowKey(name1, i) != RowKey(name2, j)
  {
    if RowKey(name1, i) == RowKey(name2, j) {
      assert RowKey(name1, i) == ("progress-" + name1) + "-" + NatToString(i);
      assert RowKey(name2, j) == ("progress-" + name2) + "-" + NatToString(j);
      SameDigitsAfterDash("progress-" + name1, NatToString(i), "progress-" + name2, NatToString(j));
      NatToStringValue(i);
      NatToStringValue(j);
    }
  }

  /** The streak section shows exactly when the streak is positive, and the
      subject section exactly when there are subjects: one row per entry,
      in order, with its name and colour, distinct keys, and a time text
      that reads back as the entry's minutes. With no more completed than
      scheduled sessions the percentage lies in [0, 100]. */
  lemma CardShape(progress: WeekProgress, streak: int, subjects: seq<SubjectProgress>)
    ensures var c := View(progress, streak, subjects);
      (c.streak.Some? <==> streak > 0) &&
      (c.streak.Some? ==> c.streak.value == IntToString(streak) + " dias") &&
      (c.subjects.Some? <==> |subjects| > 0) &&
      (c.subjects.Some? ==> |c.subjects.value| == |subjects|) &&
      (c.subjects.Some? ==> forall k :: 0 <= k < |subjects| ==>
        c.subjects.value[k].name == subjects[k].name && c.subjects.value[k].color == subjects[k].color &&
        (subjects[k].minutes >= 0 ==> ReadDuration(c.subjects.value[k].time) == Some(subjects[k].minutes))) &&
      (c.subjects.Some? ==> forall i, j :: 0 <= i < j < |subjects| ==> c.subjects.value[i].key != c.subjects.value[j].key) &&
      (progress.completed <= progress.total ==> 0.0 <= c.percent <= 100.0)
  {
    var rows := SubjectRows(subjects);
    forall k | 0 <= k < |subjects| && subjects[k].minutes >= 0
      ensures ReadDuration(rows[k].time) == Some(subjects[k].minutes)
    {
      CompactDurationRoundTrip(subjects[k].minutes);
    }
    forall i, j | 0 <= i < j < |subjects| ensures rows[i].key != rows[j].key {
      RowKeysDistinct(subjects[i].name, i, subjects[j].name, j);
    }
    if progress.completed <= progress.total {
      PercentBounds(progress.completed, progress.total);
    }
  }
}
