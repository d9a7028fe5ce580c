/** The subject selector shared by src/app/components/dashboard/
    NextSessionCard.tsx and MainActionCard.tsx: subjects sorted by priority
    (a stable sort on a copy), their labels, the options of the select
    element and the name shown for the selected subject. */
module SubjectPicker {
  import opened Wrappers
  import opened Sequences

  datatype Priority = High | Medium | Low {
    /** `{ high: 0, medium: 1, low: 2 }` */
    function Rank(): nat {
      match this
      case High => 0
      case Medium => 1
      case Low => 2
    }

    /** `getPriorityLabel` */
    function Label(): string {
      match this
      case High => "Alta"
      case Medium => "Média"
      case Low => "Baixa"
    }
  }

  datatype Subject = Subject(id: string, name: string, color: string, priority: Priority)

  /** Inserts `x` after every entry of rank at most its own: the step of a
      stable insertion sort. */
  function Insert(sorted: seq<Subject>, x: Subject): (r: seq<Subject>)
    ensures |r| == |sorted| + 1
    decreases |sorted|
  {
    if sorted == [] || sorted[|sorted| - 1].priority.Rank() <= x.priority.Rank() then sorted + [x]
    else Insert(sorted[..|sorted| - 1], x) + [sorted[|sorted| - 1]]
  }

  /** `[...subjects].sort((a, b) => rank(a) - rank(b))`, a stable sort. */
  function SortByPriority(subjects: seq<Subject>): (r: seq<Subject>)
    ensures |r| == |subjects|
    decreases |subjects|
  {
    if subjects == [] then []
    else Insert(SortByPriority(subjects[..|subjects| - 1]), subjects[|subjects| - 1])
  }

  /** The subjects of one priority, in input order. */
  function OfPriority(subjects: seq<Subject>, p: Priority): (r: seq<Subject>)
    ensures forall k :: 0 <= k < |r| ==> r[k].priority == p
    decreases |subjects|
  {
    if subjects == [] then []
    else
      var last := subjects[|subjects| - 1];
      OfPriority(subjects[..|subjects| - 1], p) + (if last.priority == p then [last] else [])
  }

  /** The reference order: all high, then all medium, then all low, each
      group in input order. */
  function ByGroups(subjects: seq<Subject>): seq<Subject> {
    OfPriority(subjects, High) + OfPriority(subjects, Medium) + OfPriority(subjects, Low)
  }

  /** Inserting after a prefix whose last rank is at most x's, in front of
      entries all ranked above x. */
  lemma {:induction false} InsertBetween(a: seq<Subject>, b: seq<Subject>, x: Subject)
    requires a == [] || a[|a| - 1].priority.Rank() <= x.priority.Rank()
    requires forall k :: 0 <= k < |b| ==> b[k].priority.Rank() > x.priority.Rank()
    ensures Insert(a + b, x) == a + [x] + b
    decreases |b|
  {
    if b == [] {
      assert a + b == a;
    } else {
      var front := b[..|b| - 1];
      assert (a + b)[..|a + b| - 1] == a + front;
      InsertBetween(a, front, x);
      assert a + [x] + front + [b[|b| - 1]] == a + [x] + b;
    }
  }

  /** The sort produces the groups: high before medium before low, and
      within a priority the input order (stability). */
  lemma {:induction false} SortIsGrouping(subjects: seq<Subject>)
    ensures SortByPriority(subjects) == ByGroups(subjects)
    decreases |subjects|
  {
    if subjects != [] {
      var front := subjects[..|subjects| - 1];
      var x := subjects[|subjects| - 1];
      SortIsGrouping(front);
      var h, m, l := OfPriority(front, High), OfPriority(front, Medium), OfPriority(front, Low);
      assert SortByPriority(subjects) == Insert(h + m + l, x);
      GroupsSnoc(front, x);
      InsertIntoGroups(h, m, l, x);
    }
  }

  predicate AllOf(g: seq<Subject>, p: Priority) {
    forall k :: 0 <= k < |g| ==> g[k].priority == p
  }

  function Join(x: Subject, p: Priority): seq<Subject> {
    if x.priority == p then [x] else []
  }

  /** Inserting into grouped subjects appends to the subject's own group. */
  lemma InsertIntoGroups(h: seq<Subject>, m: seq<Subject>, l: seq<Subject>, x: Subject)
    requires AllOf(h, High) && AllOf(m, Medium) && AllOf(l, Low)
    ensures Insert(h + m + l, x) == (h + Join(x, High)) + (m + Join(x, Medium)) + (l + Join(x, Low))
  {
    match x.priority
    case High => InsertHigh(h, m, l, x);
    case Medium => InsertMedium(h, m, l, x);
    case Low => InsertLow(h, m, l, x);
  }

  lemma InsertHigh(h: seq<Subject>, m: seq<Subject>, l: seq<Subject>, x: Subject)
    requires AllOf(h, High) && AllOf(m, Medium) && AllOf(l, Low) && x.priority == High
    ensures Insert(h + m + l, x) == (h + [x]) + m + l
  {
    var b := m + l;
    assert forall k :: 0 <= k < |b| ==> b[k].priority.Rank() > 0 by {
      forall k | 0 <= k < |b| ensures b[k].priority.Rank() > 0 {
        if k < |m| { assert b[k] == m[k]; } else { assert b[k] == l[k - |m|]; }
      }
    }
    assert h == [] || h[|h| - 1].priority == High;
    assert h + m + l == h + b;
    InsertBetween(h, b, x);
    assert h + [x] + b == (h + [x]) + m + l;
  }

  lemma InsertMedium(h: seq<Subject>, m: seq<Subject>, l: seq<Subject>, x: Subject)
    requires AllOf(h, High) && AllOf(m, Medium) && AllOf(l, Low) && x.priority == Medium
    ensures Insert(h + m + l, x) == h + (m + [x]) + l
  {
    var a := h + m;
    assert a == [] || a[|a| - 1].priority.Rank() <= 1 by {
      if m != [] { assert a[|a| - 1] == m[|m| - 1]; }
      else if h != [] { assert a[|a| - 1] == h[|h| - 1]; }
    }
    InsertBetween(a, l, x);
    assert a + [x] + l == h + (m + [x]) + l;
  }

  lemma InsertLow(h: seq<Subject>, m: seq<Subject>, l: seq<Subject>, x: Subject)
    requires AllOf(h, High) && AllOf(m, Medium) && AllOf(l, Low) && x.priority == Low
    ensures Insert(h + m + l, x) == h + m + (l + [x])
  {
    var a := h + m + l;
    assert a == [] || a[|a| - 1].priority.Rank() <= 2;
    InsertBetween(a, [], x);
    assert a + [] == a;
  }

  /** Adding one subject at the end adds it at the end of its group. */
  lemma GroupsSnoc(front: seq<Subject>, x: Subject)
    ensures var s := front + [x];
      OfPriority(s, High) == OfPriority(front, High) + Join(x, High) &&
      OfPriority(s, Medium) == OfPriority(front, Medium) + Join(x, Medium) &&
      OfPriority(s, Low) == OfPriority(front, Low) + Join(x, Low)
  {
    assert (front + [x])[..|front|] == front;
  }

  lemma {:induction false} GroupsPartition(subjects: seq<Subject>)
    ensures multiset(OfPriority(subjects, High)) + multiset(OfPriority(subjects, Medium)) +
            multiset(OfPriority(subjects, Low)) == multiset(subjects)
    decreases |subjects|
  {
    if subjects != [] {
      var front := subjects[..|subjects| - 1];
      var x := subjects[|subjects| - 1];
      GroupsPartition(front);
      FrontLast(subjects);
      GroupsSnoc(front, x);
      PartitionStep(OfPriority(front, High), OfPriority(front, Medium), OfPriority(front, Low), front, x);
    }
  }

  /** Appending x to its own group keeps three groups a partition. */
  lemma PartitionStep(h: seq<Subject>, m: seq<Subject>, l: seq<Subject>, front: seq<Subject>, x: Subject)
    requires multiset(h) + multiset(m) + multiset(l) == multiset(front)
    ensures multiset(h + Join(x, High)) + multiset(m + Join(x, Medium)) + multiset(l + Join(x, Low)) ==
            multiset(front + [x])
  {
    assert multiset(front + [x]) == multiset(front) + multiset{x};
    match x.priority
    case High => assert multiset(h + [x]) == multiset(h) + multiset{x};
    case Medium => assert multiset(m + [x]) == multiset(m) + multiset{x};
    case Low => assert multiset(l + [x]) == multiset(l) + multiset{x};
  }

  /** The sorted copy holds the same subjects, ranks never decrease along
      it, and subjects of equal priority keep their input order. */
  lemma SortMeaning(subjects: seq<Subject>)
    ensures multiset(SortByPriority(subjects)) == multiset(subjects)
    ensures forall i, j :: 0 <= i < j < |subjects| ==>
      SortByPriority(subjects)[i].priority.Rank() <= SortByPriority(subjects)[j].priority.Rank()
    ensures forall p :: OfPriority(SortByPriority(subjects), p) == OfPriority(subjects, p)
  {
    SortIsGrouping(subjects);
    GroupsPartition(subjects);
    GroupsOrdered(OfPriority(subjects, High), OfPriority(subjects, Medium), OfPriority(subjects, Low));
    forall p ensures OfPriority(ByGroups(subjects), p) == OfPriority(subjects, p) {
      GroupsStable(subjects, p);
    }
  }

  /** Ranks never decrease along high, then medium, then low groups. */
  lemma GroupsOrdered(h: seq<Subject>, m: seq<Subject>, l: seq<Subject>)
    requires AllOf(h, High) && AllOf(m, Medium) && AllOf(l, Low)
    ensures forall i, j :: 0 <= i < j < |h + m + l| ==> (h + m + l)[i].priority.Rank() <= (h + m + l)[j].priority.Rank()
  {
    var r := h + m + l;
    forall i, j | 0 <= i < j < |r| ensures r[i].priority.Rank() <= r[j].priority.Rank() {
      if i < |h| {
        assert r[i] == h[i];
      } else if i < |h| + |m| {
        assert r[i] == m[i - |h|];
        if j < |h| + |m| {
          assert r[j] == m[j - |h|];
        } else {
          assert r[j] == l[j - |h| - |m|];
        }
      } else {
        assert r[i] == l[i - |h| - |m|] && r[j] == l[j - |h| - |m|];
      }
    }
  }

  /** Picking one priority out of the grouped order gives that priority's
      subjects in input order. */
  lemma GroupsStable(subjects: seq<Subject>, p: Priority)
    ensures OfPriority(ByGroups(subjects), p) == OfPriority(subjects, p)
  {
    var h, m, l := OfPriority(subjects, High), OfPriority(subjects, Medium), OfPriority(subjects, Low);
    OnlyGroup(h, High, p);
    OnlyGroup(m, Medium, p);
    OnlyGroup(l, Low, p);
    OfPriorityAppend(h + m, l, p);
    OfPriorityAppend(h, m, p);
    var a, b, c := OfPriority(h, p), OfPriority(m, p), OfPriority(l, p);
    assert OfPriority(ByGroups(subjects), p) == a + b + c;
    match p
    case High => assert b == [] && c == [] && a + b + c == a;
    case Medium => assert a == [] && c == [] && a + b + c == b;
    case Low => assert a == [] && b == [] && a + b + c == c;
  }

  lemma {:induction false} OfPriorityAppend(a: seq<Subject>, b: seq<Subject>, p: Priority)
    ensures OfPriority(a + b, p) == OfPriority(a, p) + OfPriority(b, p)
    decreases |b|
  {
    if b == [] {
      assert a + b == a;
    } else {
      assert (a + b)[..|a + b| - 1] == a + b[..|b| - 1];
      OfPriorityAppend(a, b[..|b| - 1], p);
    }
  }

  /** A group of one priority keeps itself and drops every other priority. */
  lemma {:induction false} OnlyGroup(g: seq<Subject>, q: Priority, p: Priority)
    requires forall k :: 0 <= k < |g| ==> g[k].priority == q
    ensures OfPriority(g, p) == if p == q then g else []
    decreases |g|
  {
    if g != [] {
      OnlyGroup(g[..|g| - 1], q, p);
    }
  }

  /** One option of the select element: its value and its text. */
  datatype SelectOption = SelectOption(value: string, text: string)

  /** The select element: absent when there are no subjects; otherwise the
      empty option followed by one option per subject in sorted order. */
  function Options(subjects: seq<Subject>): Option<seq<SelectOption>> {
    if subjects == [] then None
    else
      var sorted := SortByPriority(subjects);
      Some([SelectOption("", "Escolha uma matéria...")] +
           seq(|sorted|, k requires 0 <= k < |sorted| =>
             SelectOption(sorted[k].id, sorted[k].name + " - " + sorted[k].priority.Label())))
  }

  /** The selector shows exactly when there are subjects; its first option
      has the empty value, then come the subjects in sorted order, so every
      subject has an option with its id and "<name> - <label>". */
  lemma OptionsShape(subjects: seq<Subject>)
    ensures Options(subjects).None? <==> subjects == []
    ensures Options(subjects).Some? ==>
      var o := Options(subjects).value;
      |o| == |subjects| + 1 && o[0] == SelectOption("", "Escolha uma matéria...") &&
      (forall k :: 0 <= k < |subjects| ==> o[k + 1].value == SortByPriority(subjects)[k].id) &&
      forall s :: s in subjects ==> SelectOption(s.id, s.name + " - " + s.priority.Label()) in o[1..]
  {
    if subjects != [] {
      var sorted := SortByPriority(subjects);
      var o := Options(subjects).value;
      SortMeaning(subjects);
      forall s | s in subjects ensures SelectOption(s.id, s.name + " - " + s.priority.Label()) in o[1..] {
        assert s in multiset(sorted);
        var k :| 0 <= k < |sorted| && sorted[k] == s;
        assert o[1..][k] == SelectOption(s.id, s.name + " - " + s.priority.Label());
      }
    }
  }

  /** `subjects.find(s => s.id === selected)` */
  function FindSubject(subjects: seq<Subject>, selected: string): (r: Option<Subject>)
    ensures r.Some? ==> exists k :: 0 <= k < |subjects| && subjects[k] == r.value && r.value.id == selected &&
                                    forall j :: 0 <= j < k ==> subjects[j].id != selected
    ensures r.None? ==> forall k :: 0 <= k < |subjects| ==> subjects[k].id != selected
    decreases |subjects|
  {
    if subjects == [] then None
    else if subjects[0].id == selected then Some(subjects[0])
    else
      var r := FindSubject(subjects[1..], selected);
      assert forall k :: 1 <= k < |subjects| ==> subjects[k] == subjects[1..][k - 1];
      r
  }

  /** The badge under the next session (MainActionCard): absent when
      nothing is selected; otherwise the first matching subject's name, or
      an empty badge when no subject has the id. */
  datatype Badge = NoBadge | Badge(name: Option<string>)

  function SelectedBadge(subjects: seq<Subject>, selected: string): (b: Badge)
    ensures b.NoBadge? <==> selected == ""
    ensures b.Badge? && b.name.Some? ==>
      exists k :: 0 <= k < |subjects| && subjects[k].id == selected && subjects[k].name == b.name.value &&
                  forall j :: 0 <= j < k ==> subjects[j].id != selected
    ensures b == Badge(None) ==> forall k :: 0 <= k < |subjects| ==> subjects[k].id != selected
  {
    if selected == "" then NoBadge
    else
      match FindSubject(subjects, selected)
      case None => Badge(None)
      case Some(s) => Badge(Some(s.name))
  }
}
