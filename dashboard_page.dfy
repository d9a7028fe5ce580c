/** src/app/components/DashboardPage.tsx: the dashboard's week progress,
    next session and daily count, the session start, and the plan
    adjustment. The study_sessions and study_plans tables and the AI
    endpoint are outside the model: query results, the response and the
    outcome of each write are parameters, and a write is returned as the
    rows it produces. */
module DashboardPage {
  import opened Wrappers
  import opened Records
  import opened Calendar
  import opened Totals
  import opened StudyHelpers

  /** A row of study_sessions as the dashboard reads it. */
  datatype DbSession = DbSession(
    id: string,
    scheduledDate: int,
    scheduledTime: string,
    durationMinutes: int,
    status: Status,
    actualDuration: Option<int>,
    completedAt: Option<string>)

  /** A row of study_plans: the plan and its `updated_at`. */
  datatype PlanRow = PlanRow(plan: Plan, updatedAt: string)

  /** `rows.filter(s => s.status === status)` */
  function WithStatus(rows: seq<DbSession>, status: Status): (r: seq<DbSession>)
    ensures |r| <= |rows|
    ensures forall s :: s in r <==> s in rows && s.status == status
    ensures forall s :: multiset(r)[s] == if s.status == status then multiset(rows)[s] else 0
    decreases |rows|
  {
    if rows == [] then []
    else
      assert rows == [rows[0]] + rows[1..];
      (if rows[0].status == status then [rows[0]] else []) + WithStatus(rows[1..], status)
  }

  /** The status of each row, in order. */
  function Statuses(rows: seq<DbSession>): seq<Status> {
    seq(|rows|, k requires 0 <= k < |rows| => rows[k].status)
  }

  lemma StatusesFront(rows: seq<DbSession>)
    requires rows != []
    ensures Statuses(rows) == [rows[0].status] + Statuses(rows[1..])
  {
  }

  /** The rows with a status number as many as the occurrences of that
      status. */
  lemma {:induction false} StatusCount(rows: seq<DbSession>, status: Status)
    ensures |WithStatus(rows, status)| == multiset(Statuses(rows))[status]
    decreases |rows|
  {
    if rows != [] {
      StatusCount(rows[1..], status);
      StatusesFront(rows);
      Sequences.CountFront(rows[0].status, Statuses(rows[1..]), status);
    }
  }

  /** The week query: rows scheduled on or after Monday. */
  function OnOrAfter(rows: seq<DbSession>, monday: int): (r: seq<DbSession>)
    ensures |r| <= |rows|
    ensures forall s :: s in r <==> s in rows && s.scheduledDate >= monday
    ensures forall s :: multiset(r)[s] == if s.scheduledDate >= monday then multiset(rows)[s] else 0
    decreases |rows|
  {
    if rows == [] then []
    else
      assert rows == [rows[0]] + rows[1..];
      (if rows[0].scheduledDate >= monday then [rows[0]] else []) + OnOrAfter(rows[1..], monday)
  }

  datatype WeekProgress = WeekProgress(completed: nat, total: nat)

  /** Week progress over the rows of the current week: the completed ones
      among all of them, so never more completed than in total. */
  function WeekProgressOf(table: seq<DbSession>, today: int): (p: WeekProgress)
    ensures p.completed <= p.total
    ensures p.total == |OnOrAfter(table, StartOfWeek(today))|
    ensures p.completed == |WithStatus(OnOrAfter(table, StartOfWeek(today)), Completed)|
  {
    var week := OnOrAfter(table, StartOfWeek(today));
    WeekProgress(|WithStatus(week, Completed)|, |week|)
  }

  /** `total > 0 ? (completed / total) * 100 : 0`, without rounding. */
  function ProgressPercent(completed: int, total: int): (p: real)
    ensures total > 0 ==> p * (total as real) == (completed * 100) as real
    ensures total <= 0 ==> p == 0.0
  {
    if total > 0 then (completed as real / total as real) * 100.0 else 0.0
  }

  /** With no more completed than scheduled sessions the percentage lies in
      [0, 100], and it is 100 exactly when every scheduled session is done. */
  lemma PercentBounds(completed: int, total: int)
    requires 0 <= completed <= total
    ensures 0.0 <= ProgressPercent(completed, total) <= 100.0
    ensures ProgressPercent(completed, total) == 100.0 <==> total > 0 && completed == total
  {
    if total > 0 {
      var p := ProgressPercent(completed, total);
      var n := total as real;
      assert p * n == (completed * 100) as real;
      assert (completed * 100) as real <= 100.0 * n;
      assert (100.0 - p) * n == 100.0 * n - p * n;
      NonNegativeFactor(p, n);
      NonNegativeFactor(100.0 - p, n);
      if p == 100.0 {
        assert completed * 100 == total * 100;
      }
    }
  }

  /** `todaySessions.find(s => s.status === 'pending')` */
  function NextSession(today: seq<DbSession>): (r: Option<DbSession>)
    ensures r.None? <==> forall k :: 0 <= k < |today| ==> today[k].status != Pending
    ensures r.Some? ==> exists k :: 0 <= k < |today| && today[k] == r.value && r.value.status == Pending &&
                                    forall j :: 0 <= j < k ==> today[j].status != Pending
    decreases |today|
  {
    if today == [] then None
    else if today[0].status == Pending then Some(today[0])
    else
      var r := NextSession(today[1..]);
      assert forall k :: 1 <= k < |today| ==> today[k] == today[1..][k - 1];
      r
  }

  /** `completedToday` */
  function CompletedToday(today: seq<DbSession>): (n: nat)
    ensures n <= |today|
    ensures n == multiset(Statuses(today))[Completed]
  {
    StatusCount(today, Completed);
    |WithStatus(today, Completed)|
  }

  /** The rows after the update of `handleStartSession`: every row with the
      id becomes completed, with the given actual minutes and completion
      time; other rows are untouched. */
  function CompleteRows(table: seq<DbSession>, id: string, minutes: int, now: string): (r: seq<DbSession>)
    ensures |r| == |table|
    ensures forall k :: 0 <= k < |table| && table[k].id == id ==>
      r[k] == table[k].(status := Completed, actualDuration := Some(minutes), completedAt := Some(now))
    ensures forall k :: 0 <= k < |table| && table[k].id != id ==> r[k] == table[k]
  {
    seq(|table|, k requires 0 <= k < |table| =>
      if table[k].id == id
      then table[k].(status := Completed, actualDuration := Some(minutes), completedAt := Some(now))
      else table[k])
  }

  /** `todaySessions.find(s => s.id === sessionId)` */
  function FindById(rows: seq<DbSession>, id: string): (r: Option<DbSession>)
    ensures r.Some? ==> exists k :: 0 <= k < |rows| && rows[k] == r.value && r.value.id == id &&
                                    forall j :: 0 <= j < k ==> rows[j].id != id
    ensures r.None? ==> forall k :: 0 <= k < |rows| ==> rows[k].id != id
    decreases |rows|
  {
    if rows == [] then None
    else if rows[0].id == id then Some(rows[0])
    else
      var r := FindById(rows[1..], id);
      assert forall k :: 1 <= k < |rows| ==> rows[k] == rows[1..][k - 1];
      r
  }

  /** What `handleAdjustPlan` sends to the AI endpoint (the profile answers
      are left out). */
  datatype AiStats = AiStats(totalSessions: nat, completedSessions: nat, abandonedSessions: nat, averageDuration: real)

  /** `s.actual_duration || 0` */
  function ActualOrZero(s: DbSession): int {
    if s.actualDuration.Some? then s.actualDuration.value else 0
  }

  function ActualMinutes(rows: seq<DbSession>): (xs: seq<int>)
    ensures |xs| == |rows| && forall k :: 0 <= k < |rows| ==> xs[k] == ActualOrZero(rows[k])
  {
    seq(|rows|, k requires 0 <= k < |rows| => ActualOrZero(rows[k]))
  }

  function Aggregates(all: seq<DbSession>): AiStats {
    var completed := WithStatus(all, Completed);
    AiStats(|all|, |completed|, |WithStatus(all, Abandoned)|, Average(ActualMinutes(completed)))
  }

  /** The counts never exceed the number of sessions, completed and
      abandoned sessions are disjoint, and the average duration is 0
      without completed sessions and otherwise lies between the smallest
      and the largest recorded duration (missing ones counting as 0). */
  lemma AggregatesMeaning(all: seq<DbSession>, lo: int, hi: int)
    ensures var a := Aggregates(all);
      a.totalSessions == |all| && a.completedSessions + a.abandonedSessions <= a.totalSessions
    ensures var a := Aggregates(all);
      a.completedSessions == 0 ==> a.averageDuration == 0.0
    ensures var a := Aggregates(all);
      (a.completedSessions > 0 && forall s :: s in all && s.status == Completed ==> lo <= ActualOrZero(s) <= hi) ==>
      lo as real <= a.averageDuration <= hi as real
  {
    StatusesPartition(all);
    var completed := WithStatus(all, Completed);
    if |completed| > 0 && forall s :: s in all && s.status == Completed ==> lo <= ActualOrZero(s) <= hi {
      var xs := ActualMinutes(completed);
      assert Within(xs, lo, hi) by {
        forall k | 0 <= k < |xs| ensures lo <= xs[k] <= hi {
          assert completed[k] in completed;
        }
      }
      AverageBounds(xs, lo, hi);
    }
  }

  lemma {:induction false} StatusesPartition(rows: seq<DbSession>)
    ensures |WithStatus(rows, Completed)| + |WithStatus(rows, Abandoned)| <= |rows|
    decreases |rows|
  {
    if rows != [] {
      StatusesPartition(rows[1..]);
    }
  }

  /** The AI response fields the dashboard uses. */
  datatype Adjustments = Adjustments(sessionDuration: int, sessionsPerDay: int, message: string)

  /** The plan row after the update: duration, sessions per day and
      `updated_at` change, nothing else. */
  function AdjustedPlan(row: PlanRow, adj: Adjustments, now: string): (r: PlanRow)
    ensures r.plan.sessionDuration == adj.sessionDuration && r.plan.sessionsPerDay == adj.sessionsPerDay
    ensures r.updatedAt == now
    ensures r.plan.id == row.plan.id && r.plan.studyDays == row.plan.studyDays
    ensures r.plan.preferredTimes == row.plan.preferredTimes
  {
    PlanRow(row.plan.(sessionDuration := adj.sessionDuration, sessionsPerDay := adj.sessionsPerDay), now)
  }

  /** The dashboard's state. */
  class Dashboard {
    var plan: Option<PlanRow>
    var todaySessions: seq<DbSession>
    var weekProgress: WeekProgress
    var streak: nat
    var loading: bool
    var adjusting: bool
    var aiMessage: string

    /** The week progress never counts more completed than total sessions. */
    predicate Valid()
      reads this
    {
      weekProgress.completed <= weekProgress.total
    }

    constructor ()
      ensures plan == None && todaySessions == [] && weekProgress == WeekProgress(0, 0)
      ensures streak == 0 && loading && !adjusting && aiMessage == ""
      ensures Valid()
    {
      plan := None;
      todaySessions := [];
      weekProgress := WeekProgress(0, 0);
      streak := 0;
      loading := true;
      adjusting := false;
      aiMessage := "";
    }

    /** `loadDashboardData` after its queries. Each query result is None
      when the query reports an error, which throws: the fields the later
      steps would set keep their values, and only `loading` is cleared.
      The plan query uses `.single()`, so a missing active plan is such an
      error. `generated` is what `generateWeeklySessions` returned for the
      plan; its errors (an invalid date, a failed insert) throw as well,
      after the plan is set. Otherwise: the plan, today's rows in the
      query's order by time, the week progress over the week's rows and
      the streak (whose own errors give 0 inside `calculateStreak`). */
    method Load(planRow: Option<PlanRow>, generated: Result<Generated, GenError>,
                todayRows: Option<seq<DbSession>>, weekRows: Option<seq<DbSession>>,
                today: int, currentStreak: nat)
      requires Valid()
      modifies this
      ensures !loading && adjusting == old(adjusting) && aiMessage == old(aiMessage)
      ensures planRow.None? ==> plan == old(plan) && todaySessions == old(todaySessions) &&
                                weekProgress == old(weekProgress) && streak == old(streak)
      ensures planRow.Some? ==> plan == planRow
      ensures planRow.Some? && generated.Err? ==>
        todaySessions == old(todaySessions) && weekProgress == old(weekProgress) && streak == old(streak)
      ensures planRow.Some? && generated.Ok? && todayRows.None? ==>
        todaySessions == old(todaySessions) && weekProgress == old(weekProgress) && streak == old(streak)
      ensures planRow.Some? && generated.Ok? && todayRows.Some? ==> todaySessions == todayRows.value
      ensures planRow.Some? && generated.Ok? && todayRows.Some? && weekRows.None? ==>
        weekProgress == old(weekProgress) && streak == old(streak)
      ensures planRow.Some? && generated.Ok? && todayRows.Some? && weekRows.Some? ==>
        weekProgress == WeekProgressOf(weekRows.value, today) && streak == currentStreak
      ensures Valid()
    {
      if planRow.Some? {
        plan := planRow;
        if generated.Ok? && todayRows.Some? {
          todaySessions := todayRows.value;
          if weekRows.Some? {
            weekProgress := WeekProgressOf(weekRows.value, today);
            streak := currentStreak;
          }
        }
      }
      loading := false;
    }

    /** `handleStartSession`: an id not among today's sessions changes
      nothing; otherwise every row with that id is completed with its
      planned minutes as the actual duration. A failed update changes
      nothing either. `reload` says that the page then runs
      `loadDashboardData` again (`Load`), which it does after a successful
      update only. */
    method HandleStartSession(sessionId: string, table: seq<DbSession>, now: string, updateFails: bool)
      returns (after: seq<DbSession>, reload: bool)
      ensures reload <==> FindById(todaySessions, sessionId).Some? && !updateFails
      ensures (forall k :: 0 <= k < |todaySessions| ==> todaySessions[k].id != sessionId) ==> after == table
      ensures updateFails ==> after == table
      ensures !updateFails && FindById(todaySessions, sessionId).Some? ==>
        after == CompleteRows(table, sessionId, FindById(todaySessions, sessionId).value.durationMinutes, now)
    {
      var session := FindById(todaySessions, sessionId);
      if session.None? || updateFails {
        return table, false;
      }
      after := CompleteRows(table, sessionId, session.value.durationMinutes, now);
      reload := true;
    }

    /** `handleAdjustPlan`: the statistics sent, the plan row written (None
      when nothing is written) and whether the error alert shows. The plan
      is written only when the response is ok and a plan is loaded; only
      then does the page run `loadDashboardData` again (`Load`), which
      `reload` reports. Until that reload the loaded fields stay. */
    method HandleAdjustPlan(all: seq<DbSession>, responseOk: bool, adj: Adjustments, updateFails: bool, now: string)
      returns (request: AiStats, written: Option<PlanRow>, alert: bool, reload: bool)
      modifies this
      ensures request == Aggregates(all)
      ensures reload <==> responseOk && old(plan).Some? && !updateFails
      ensures !responseOk ==> written == None && alert && aiMessage == old(aiMessage)
      ensures responseOk && plan.None? ==> written == None && !alert && aiMessage == old(aiMessage)
      ensures responseOk && plan.Some? && updateFails ==> written == None && alert && aiMessage == old(aiMessage)
      ensures responseOk && plan.Some? && !updateFails ==>
        written == Some(AdjustedPlan(plan.value, adj, now)) && !alert && aiMessage == adj.message
      ensures !adjusting && plan == old(plan) && todaySessions == old(todaySessions)
      ensures weekProgress == old(weekProgress) && streak == old(streak) && loading == old(loading)
    {
      adjusting := true;
      request := Aggregates(all);
      written, alert, reload := None, false, false;
      if !responseOk {
        alert := true;
      } else if plan.Some? {
        if updateFails {
          alert := true;
        } else {
          written := Some(AdjustedPlan(plan.value, adj, now));
          aiMessage := adj.message;
          reload := true;
        }
      }
      adjusting := false;
    }

    /** The values the dashboard renders from its state. */
    function Next(): Option<DbSession>
      reads this
    {
      NextSession(todaySessions)
    }

    function Percent(): (p: real)
      requires Valid()
      reads this
      ensures 0.0 <= p <= 100.0
    {
      PercentBounds(weekProgress.completed, weekProgress.total);
      ProgressPercent(weekProgress.completed, weekProgress.total)
    }
  }
}
