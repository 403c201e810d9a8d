/** Task analytics of the storage layer (server/storage.ts): the reporting window of a time
    range, the task counts of `getTaskStats`, the per-department tallies of
    `getDepartmentStats`, the per-user tallies of `getUserPerformance`, and the completion stamp
    of `updateTask`. The store's rows are inputs; the current time is a parameter in
    milliseconds. */
module TaskAnalytics {
  import opened Basics

  // ================================================================ rows

  /** The task columns the analytics read; a missing due date or assignee is `None`. */
  datatype Task = Task(id: string, status: string, dueDate: Option<int>, assignedToId: Option<string>,
                       createdAt: int, completedAt: Option<int>, updatedAt: int)

  /** The user columns the analytics read. */
  datatype User = User(id: string, firstName: Option<string>, lastName: Option<string>, email: Option<string>,
                       department: Option<string>)

  predicate IsCompleted(t: Task) { t.status == "completed" }

  /** Pending or in progress. */
  predicate IsOpen(t: Task) { t.status == "pending" || t.status == "in_progress" }

  /** Due before `now` and not completed. */
  predicate IsOverdue(t: Task, now: int) { t.dueDate.Some? && t.dueDate.value < now && !IsCompleted(t) }

  /** Has an assignee (a non-empty id). */
  predicate IsAssigned(t: Task) { Truthy(t.assignedToId) }

  // ================================================================ the reporting window

  const DayMs: int := 86_400_000

  /** The days of a time range: 7, 30, 90 or 365 for "7d", "30d", "90d" and "1y", 7 for
      anything else. */
  function RangeDays(timeRange: string): (days: nat)
    ensures days in {7, 30, 90, 365}
    ensures timeRange == "30d" ==> days == 30
    ensures timeRange == "90d" ==> days == 90
    ensures timeRange == "1y" ==> days == 365
    ensures timeRange !in {"30d", "90d", "1y"} ==> days == 7
  {
    var daysMap := map["7d" := 7, "30d" := 30, "90d" := 90, "1y" := 365];
    if timeRange in daysMap then daysMap[timeRange] else 7
  }

  /** The tasks created at or after `days` days before `now`. */
  function InWindow(tasks: seq<Task>, now: int, timeRange: string): (r: seq<Task>)
    ensures forall t :: t in r <==> t in tasks && t.createdAt >= now - RangeDays(timeRange) * DayMs
  {
    var cutoff := now - RangeDays(timeRange) * DayMs;
    Filter(tasks, (t: Task) => t.createdAt >= cutoff)
  }

  /** A longer range reports every task a shorter one reports. */
  lemma LongerRangeCoversShorter(tasks: seq<Task>, now: int, shorter: string, longer: string)
    requires RangeDays(shorter) <= RangeDays(longer)
    ensures forall t :: t in InWindow(tasks, now, shorter) ==> t in InWindow(tasks, now, longer)
  {
    forall t | t in InWindow(tasks, now, shorter) ensures t in InWindow(tasks, now, longer) {
      assert RangeDays(shorter) * DayMs <= RangeDays(longer) * DayMs;
    }
  }

  // ================================================================ getTaskStats

  datatype TaskStats = TaskStats(total: nat, completed: nat, pending: nat, overdue: nat, completionRate: real)

  /** At most as many elements satisfy one of two exclusive tests as there are elements. */
  lemma {:induction false} CountExclusive<T>(s: seq<T>, p: T -> bool, q: T -> bool)
    requires forall x :: x in s ==> !(p(x) && q(x))
    ensures Count(s, p) + Count(s, q) <= |s|
  {
    if s != [] {
      assert forall x :: x in s[1..] ==> x in s;
      CountExclusive(s[1..], p, q);
    }
  }

  /** `completed / total * 100`, and 0 for no tasks. */
  function Percent(part: nat, whole: nat): (r: real)
    requires part <= whole
    ensures 0.0 <= r <= 100.0
    ensures whole == 0 ==> r == 0.0
    ensures whole > 0 && part == whole ==> r == 100.0
  {
    if whole > 0 then (part as real / whole as real) * 100.0 else 0.0
  }

  /** `getTaskStats` over the tasks of the window: completed and open tasks are disjoint, and an
      overdue task is never completed. */
  function GetTaskStats(tasks: seq<Task>, now: int): (st: TaskStats)
    ensures st.total == |tasks|
    ensures st.completed == Count(tasks, IsCompleted)
    ensures st.pending == Count(tasks, IsOpen)
    ensures st.overdue == Count(tasks, (t: Task) => IsOverdue(t, now))
    ensures st.completionRate == Percent(st.completed, st.total)
    ensures st.completed + st.pending <= st.total
    ensures st.completed + st.overdue <= st.total
    ensures st.total == 0 ==> st.completionRate == 0.0
    ensures 0.0 <= st.completionRate <= 100.0
  {
    var completed := Count(tasks, IsCompleted);
    var pending := Count(tasks, IsOpen);
    var overdue := Count(tasks, (t: Task) => IsOverdue(t, now));
    CountExclusive(tasks, IsCompleted, IsOpen);
    CountExclusive(tasks, IsCompleted, (t: Task) => IsOverdue(t, now));
    TaskStats(|tasks|, completed, pending, overdue, Percent(completed, |tasks|))
  }

  /** One more task adds one to the total and one to each of the counts whose test it
      passes: completed, pending or in progress, and overdue. */
  lemma StatsStep(tasks: seq<Task>, t: Task, now: int)
    ensures var before, after := GetTaskStats(tasks, now), GetTaskStats(tasks + [t], now);
      && after.total == before.total + 1
      && after.completed == before.completed + (if IsCompleted(t) then 1 else 0)
      && after.pending == before.pending + (if IsOpen(t) then 1 else 0)
      && after.overdue == before.overdue + (if IsOverdue(t, now) then 1 else 0)
  {
    CountAppend(tasks, [t], IsCompleted);
    CountAppend(tasks, [t], IsOpen);
    CountAppend(tasks, [t], (x: Task) => IsOverdue(x, now));
  }

  /** A task whose status is neither completed nor open (cancelled, say) adds to the total and
      to nothing else but, possibly, the overdue count. */
  lemma OtherStatusCountsOnlyInTotal(tasks: seq<Task>, t: Task, now: int)
    requires !IsCompleted(t) && !IsOpen(t)
    ensures var before, after := GetTaskStats(tasks, now), GetTaskStats(tasks + [t], now);
      && after.total == before.total + 1
      && after.completed == before.completed
      && after.pending == before.pending
  {
    CountAppend(tasks, [t], IsCompleted);
    CountAppend(tasks, [t], IsOpen);
  }

  // ================================================================ tallies keyed by string

  /** A string-keyed record of counters in insertion order: the keys of `counts` in the order
      `Object.entries` returns them. */
  datatype Tally<V> = Tally(order: seq<string>, counts: map<string, V>)

  ghost predicate TallyValid<V>(t: Tally<V>) {
    && (forall i, j :: 0 <= i < j < |t.order| ==> t.order[i] != t.order[j])
    && (forall k :: k in t.counts <==> k in t.order)
  }

  /** Set the counters of `key`, appending it to the order when it is new. */
  function Put<V>(t: Tally<V>, key: string, v: V): (r: Tally<V>)
    ensures TallyValid(t) ==> TallyValid(r)
    ensures r.counts == t.counts[key := v]
    ensures key in t.counts ==> r.order == t.order
    ensures key !in t.counts ==> r.order == t.order + [key]
  {
    Tally(if key in t.counts then t.order else t.order + [key], t.counts[key := v])
  }

  /** The sum of one counter over the keys, in order. */
  function SumOver<V>(keys: seq<string>, m: map<string, V>, val: V -> nat): nat {
    if keys == [] then 0
    else SumOver(keys[..|keys| - 1], m, val) + (if keys[|keys| - 1] in m then val(m[keys[|keys| - 1]]) else 0)
  }

  /** Changing the counters of a key that appears at most once changes the sum by the
      difference. */
  lemma {:induction false} SumOverUpdate<V>(keys: seq<string>, m: map<string, V>, val: V -> nat, key: string, v: V)
    requires forall i, j :: 0 <= i < j < |keys| ==> keys[i] != keys[j]
    requires key in m
    ensures key in keys ==> SumOver(keys, m[key := v], val) + val(m[key]) == SumOver(keys, m, val) + val(v)
    ensures key !in keys ==> SumOver(keys, m[key := v], val) == SumOver(keys, m, val)
  {
    if keys != [] {
      var init := keys[..|keys| - 1];
      SumOverUpdate(init, m, val, key, v);
      if keys[|keys| - 1] == key {
        assert key !in init;
      }
      assert key in keys <==> key in init || keys[|keys| - 1] == key;
    }
  }

  /** A new key adds its counter to the sum. */
  lemma {:induction false} SumOverNewKey<V>(keys: seq<string>, m: map<string, V>, val: V -> nat, key: string, v: V)
    requires key !in m
    requires forall k :: k in keys ==> k in m
    ensures SumOver(keys + [key], m[key := v], val) == SumOver(keys, m, val) + val(v)
  {
    assert (keys + [key])[..|keys|] == keys;
    SumOverUpdateAbsent(keys, m, val, key, v);
  }

  lemma {:induction false} SumOverUpdateAbsent<V>(keys: seq<string>, m: map<string, V>, val: V -> nat, key: string, v: V)
    requires key !in keys
    ensures SumOver(keys, m[key := v], val) == SumOver(keys, m, val)
  {
    if keys != [] {
      SumOverUpdateAbsent(keys[..|keys| - 1], m, val, key, v);
    }
  }

  // ================================================================ getDepartmentStats

  /** `allUsers.find(u => u.id === id)`: the first user with the id. */
  function FindUser(users: seq<User>, id: string): (u: Option<User>)
    ensures u.Some? ==> u.value in users && u.value.id == id
    ensures u.None? ==> forall x :: x in users ==> x.id != id
  {
    if users == [] then None else if users[0].id == id then Some(users[0]) else FindUser(users[1..], id)
  }

  /** The department bucket of an assigned task: its assignee's department, or "Unassigned"
      for an assignee with none or an unknown assignee. */
  function DeptOf(t: Task, users: seq<User>): (dept: string)
    requires IsAssigned(t)
    ensures dept != ""
    ensures FindUser(users, t.assignedToId.value).None? ==> dept == "Unassigned"
    ensures FindUser(users, t.assignedToId.value).Some? ==>
      dept == StrOr(FindUser(users, t.assignedToId.value).value.department, "Unassigned")
  {
    var user := FindUser(users, t.assignedToId.value);
    if user.Some? then StrOr(user.value.department, "Unassigned") else "Unassigned"
  }

  datatype DeptCounts = DeptCounts(totalTasks: nat, completedTasks: nat)

  function DeptTotal(c: DeptCounts): nat { c.totalTasks }

  function DeptCountsOr(m: map<string, DeptCounts>, k: string): DeptCounts {
    if k in m then m[k] else DeptCounts(0, 0)
  }

  /** The counters of a department after one more task. */
  function DeptBump(c: DeptCounts, t: Task): (c': DeptCounts)
    ensures c'.totalTasks == c.totalTasks + 1
    ensures c.completedTasks <= c.totalTasks ==> c'.completedTasks <= c'.totalTasks
  {
    DeptCounts(c.totalTasks + 1, c.completedTasks + if IsCompleted(t) then 1 else 0)
  }

  /** One task of the department loop: an assigned task counts in its bucket. */
  function DeptStep(tally: Tally<DeptCounts>, t: Task, users: seq<User>): Tally<DeptCounts> {
    if !IsAssigned(t) then tally
    else Put(tally, DeptOf(t, users), DeptBump(DeptCountsOr(tally.counts, DeptOf(t, users)), t))
  }

  /** The department tally after the loop has seen `tasks`. */
  function DeptTallyOf(tasks: seq<Task>, users: seq<User>): Tally<DeptCounts> {
    if tasks == [] then Tally([], map[])
    else DeptStep(DeptTallyOf(tasks[..|tasks| - 1], users), tasks[|tasks| - 1], users)
  }

  /** A valid tally of departments, none with more completed than total tasks, none empty. */
  ghost predicate DeptTallyValid(tally: Tally<DeptCounts>) {
    && TallyValid(tally)
    && (forall k :: k in tally.counts ==> tally.counts[k].completedTasks <= tally.counts[k].totalTasks)
    && (forall k :: k in tally.counts ==> tally.counts[k].totalTasks > 0)
  }

  lemma DeptStepKeepsValid(tally: Tally<DeptCounts>, t: Task, users: seq<User>)
    requires DeptTallyValid(tally)
    ensures DeptTallyValid(DeptStep(tally, t, users))
  {
  }

  lemma {:induction false} DeptTallyOfValid(tasks: seq<Task>, users: seq<User>)
    ensures DeptTallyValid(DeptTallyOf(tasks, users))
  {
    if tasks != [] {
      DeptTallyOfValid(tasks[..|tasks| - 1], users);
      DeptStepKeepsValid(DeptTallyOf(tasks[..|tasks| - 1], users), tasks[|tasks| - 1], users);
    }
  }

  /** The department buckets of the assigned tasks. */
  ghost function Buckets(tasks: seq<Task>, users: seq<User>): set<string> {
    set t | t in tasks && IsAssigned(t) :: DeptOf(t, users)
  }

  /** The departments reported are exactly the buckets of the assigned tasks: a task with no
      assignee is skipped, every other task has a row. */
  lemma {:induction false} DeptTallyKeys(tasks: seq<Task>, users: seq<User>)
    ensures DeptTallyOf(tasks, users).counts.Keys == Buckets(tasks, users)
  {
    if tasks != [] {
      var init, last := tasks[..|tasks| - 1], tasks[|tasks| - 1];
      DeptTallyKeys(init, users);
      assert tasks == init + [last];
      var extra := if IsAssigned(last) then {DeptOf(last, users)} else {};
      forall k | k in Buckets(tasks, users) ensures k in Buckets(init, users) + extra {
        var t :| t in tasks && IsAssigned(t) && DeptOf(t, users) == k;
        if t != last { assert t in init; }
      }
      forall k | k in Buckets(init, users) ensures k in Buckets(tasks, users) {
        var t :| t in init && IsAssigned(t) && DeptOf(t, users) == k;
        assert t in tasks;
      }
      if IsAssigned(last) {
        assert DeptOf(last, users) in Buckets(tasks, users) by { assert last in tasks; }
      }
    }
  }

  /** The department totals add up to the number of assigned tasks: nothing is lost and
      nothing counted twice. */
  lemma {:induction false} DeptTotalsCountAssigned(tasks: seq<Task>, users: seq<User>)
    ensures var tally := DeptTallyOf(tasks, users);
      SumOver(tally.order, tally.counts, DeptTotal) == Count(tasks, IsAssigned)
  {
    if tasks != [] {
      var init, last := tasks[..|tasks| - 1], tasks[|tasks| - 1];
      DeptTotalsCountAssigned(init, users);
      DeptTallyOfValid(init, users);
      assert tasks == init + [last];
      CountAppend(init, [last], IsAssigned);
      var tally := DeptTallyOf(init, users);
      if IsAssigned(last) {
        var dept := DeptOf(last, users);
        var v := DeptBump(DeptCountsOr(tally.counts, dept), last);
        if dept in tally.counts {
          SumOverUpdate(tally.order, tally.counts, DeptTotal, dept, v);
        } else {
          SumOverNewKey(tally.order, tally.counts, DeptTotal, dept, v);
        }
      }
    }
  }

  datatype DeptRow = DeptRow(department: string, totalTasks: nat, completedTasks: nat, completionRate: real)

  /** `Object.entries(deptStats).map(...)`: one row per department, in insertion order, with
      its completion percentage. */
  function DeptRows(tally: Tally<DeptCounts>): (rows: seq<DeptRow>)
    requires DeptTallyValid(tally)
    ensures |rows| == |tally.order|
    ensures forall i :: 0 <= i < |rows| ==>
      && rows[i].department == tally.order[i]
      && rows[i].totalTasks == tally.counts[tally.order[i]].totalTasks
      && rows[i].completedTasks == tally.counts[tally.order[i]].completedTasks
      && rows[i].completedTasks <= rows[i].totalTasks
      && 0.0 <= rows[i].completionRate <= 100.0
  {
    seq(|tally.order|, i requires 0 <= i < |tally.order| =>
      var c := tally.counts[tally.order[i]];
      DeptRow(tally.order[i], c.totalTasks, c.completedTasks, Percent(c.completedTasks, c.totalTasks)))
  }

  /** `getDepartmentStats` over the tasks of the window and all users: one row per department
      bucket, in the order the buckets first occur (see `DeptTallyKeys` and
      `DeptTotalsCountAssigned` for what the rows add up to). */
  method GetDepartmentStats(tasks: seq<Task>, users: seq<User>) returns (rows: seq<DeptRow>)
    ensures DeptTallyValid(DeptTallyOf(tasks, users))
    ensures rows == DeptRows(DeptTallyOf(tasks, users))
  {
    var order: seq<string> := [];
    var deptStats: map<string, DeptCounts> := map[];
    var n := 0;
    while n < |tasks|
      invariant n <= |tasks|
      invariant Tally(order, deptStats) == DeptTallyOf(tasks[..n], users)
    {
      var task := tasks[n];
      assert tasks[..n + 1][..n] == tasks[..n];
      if IsAssigned(task) {
        var dept := DeptOf(task, users);
        if dept !in deptStats {
          deptStats := deptStats[dept := DeptCounts(0, 0)];
          order := order + [dept];
        }
        deptStats := deptStats[dept := DeptBump(deptStats[dept], task)];
      }
      n := n + 1;
    }
    assert tasks[..n] == tasks;
    DeptTallyOfValid(tasks, users);
    rows := DeptRows(Tally(order, deptStats));
  }

  // ================================================================ getUserPerformance

  /** "first last" when both names are present, else the email, else "Unknown". */
  function UserName(u: User): (name: string)
    ensures Truthy(u.firstName) && Truthy(u.lastName) ==> name == u.firstName.value + " " + u.lastName.value
    ensures !(Truthy(u.firstName) && Truthy(u.lastName)) && Truthy(u.email) ==> name == u.email.value
    ensures !(Truthy(u.firstName) && Truthy(u.lastName)) && !Truthy(u.email) ==> name == "Unknown"
  {
    if Truthy(u.firstName) && Truthy(u.lastName) then u.firstName.value + " " + u.lastName.value
    else StrOr(u.email, "Unknown")
  }

  datatype UserCounts = UserCounts(userName: string, completedTasks: nat, pendingTasks: nat, overdueTasks: nat)

  /** The known assignee of a task, if any. */
  function AssigneeOf(t: Task, users: seq<User>): (u: Option<User>)
    ensures u.Some? ==> IsAssigned(t) && u.value in users && u.value.id == t.assignedToId.value
    ensures IsAssigned(t) && u.None? ==> forall x :: x in users ==> x.id != t.assignedToId.value
  {
    if IsAssigned(t) then FindUser(users, t.assignedToId.value) else None
  }

  /** The counters of a user after one more task: a completed task counts as completed, an
      open one as pending and, when due before `now`, overdue; any other status counts
      nowhere. */
  function UserBump(c: UserCounts, t: Task, now: int): (c': UserCounts)
    ensures c'.userName == c.userName
    ensures c'.completedTasks + c'.pendingTasks <= c.completedTasks + c.pendingTasks + 1
    ensures c'.completedTasks == c.completedTasks + if IsCompleted(t) then 1 else 0
    ensures c'.pendingTasks == c.pendingTasks + if IsOpen(t) && !IsCompleted(t) then 1 else 0
    ensures c.overdueTasks <= c.pendingTasks ==> c'.overdueTasks <= c'.pendingTasks
  {
    if IsCompleted(t) then c.(completedTasks := c.completedTasks + 1)
    else if IsOpen(t) then
      c.(pendingTasks := c.pendingTasks + 1,
         overdueTasks := c.overdueTasks + if t.dueDate.Some? && t.dueDate.value < now then 1 else 0)
    else c
  }

  /** The counters a user starts from. */
  function UserCountsOr(m: map<string, UserCounts>, u: User): UserCounts {
    if u.id in m then m[u.id] else UserCounts(UserName(u), 0, 0, 0)
  }

  /** One task of the user loop: a task with a known assignee counts for that user. */
  function UserStep(tally: Tally<UserCounts>, t: Task, users: seq<User>, now: int): Tally<UserCounts> {
    var user := AssigneeOf(t, users);
    if user.None? then tally
    else Put(tally, user.value.id, UserBump(UserCountsOr(tally.counts, user.value), t, now))
  }

  function UserTallyOf(tasks: seq<Task>, users: seq<User>, now: int): Tally<UserCounts> {
    if tasks == [] then Tally([], map[])
    else UserStep(UserTallyOf(tasks[..|tasks| - 1], users, now), tasks[|tasks| - 1], users, now)
  }

  /** A valid tally of users, each named after a user with that id, none with more overdue than
      pending tasks. */
  ghost predicate UserTallyValid(tally: Tally<UserCounts>, users: seq<User>) {
    && TallyValid(tally)
    && (forall k :: k in tally.counts ==> tally.counts[k].overdueTasks <= tally.counts[k].pendingTasks)
    && (forall k :: k in tally.counts ==> exists u :: u in users && u.id == k && tally.counts[k].userName == UserName(u))
  }

  lemma UserStepKeepsValid(tally: Tally<UserCounts>, t: Task, users: seq<User>, now: int)
    requires UserTallyValid(tally, users)
    ensures UserTallyValid(UserStep(tally, t, users, now), users)
  {
    var user := AssigneeOf(t, users);
    if user.Some? {
      var next := UserStep(tally, t, users, now);
      forall k | k in next.counts
        ensures exists u :: u in users && u.id == k && next.counts[k].userName == UserName(u)
      {
        if k == user.value.id {
          assert next.counts[k].userName == UserCountsOr(tally.counts, user.value).userName;
          if k !in tally.counts {
            assert next.counts[k].userName == UserName(user.value);
          }
        } else {
          assert next.counts[k] == tally.counts[k];
        }
      }
    }
  }

  lemma {:induction false} UserTallyOfValid(tasks: seq<Task>, users: seq<User>, now: int)
    ensures UserTallyValid(UserTallyOf(tasks, users, now), users)
  {
    if tasks != [] {
      UserTallyOfValid(tasks[..|tasks| - 1], users, now);
      UserStepKeepsValid(UserTallyOf(tasks[..|tasks| - 1], users, now), tasks[|tasks| - 1], users, now);
    }
  }

  /** The ids of the known assignees. */
  ghost function Assignees(tasks: seq<Task>, users: seq<User>): set<string> {
    set t | t in tasks && AssigneeOf(t, users).Some? :: AssigneeOf(t, users).value.id
  }

  /** The users reported are exactly the known assignees: unassigned tasks and unknown users are
      skipped. */
  lemma {:induction false} UserTallyKeys(tasks: seq<Task>, users: seq<User>, now: int)
    ensures UserTallyOf(tasks, users, now).counts.Keys == Assignees(tasks, users)
  {
    if tasks != [] {
      var init, last := tasks[..|tasks| - 1], tasks[|tasks| - 1];
      UserTallyKeys(init, users, now);
      assert tasks == init + [last];
      var user := AssigneeOf(last, users);
      var extra := if user.Some? then {user.value.id} else {};
      forall k | k in Assignees(tasks, users) ensures k in Assignees(init, users) + extra {
        var t :| t in tasks && AssigneeOf(t, users).Some? && AssigneeOf(t, users).value.id == k;
        if t != last { assert t in init; }
      }
      forall k | k in Assignees(init, users) ensures k in Assignees(tasks, users) {
        var t :| t in init && AssigneeOf(t, users).Some? && AssigneeOf(t, users).value.id == k;
        assert t in tasks;
      }
      if user.Some? {
        assert user.value.id in Assignees(tasks, users) by { assert last in tasks; }
      }
    }
  }

  function CompletedOf(c: UserCounts): nat { c.completedTasks }

  predicate CompletedByKnownUser(users: seq<User>, t: Task) { AssigneeOf(t, users).Some? && IsCompleted(t) }

  /** One task adds one to the completed sum exactly when it is completed by a known user. */
  lemma UserCompletedStep(tally: Tally<UserCounts>, t: Task, users: seq<User>, now: int)
    requires TallyValid(tally)
    ensures var next := UserStep(tally, t, users, now);
      SumOver(next.order, next.counts, CompletedOf)
        == SumOver(tally.order, tally.counts, CompletedOf) + (if CompletedByKnownUser(users, t) then 1 else 0)
  {
    var user := AssigneeOf(t, users);
    if user.Some? {
      var v := UserBump(UserCountsOr(tally.counts, user.value), t, now);
      if user.value.id in tally.counts {
        SumOverUpdate(tally.order, tally.counts, CompletedOf, user.value.id, v);
      } else {
        SumOverNewKey(tally.order, tally.counts, CompletedOf, user.value.id, v);
      }
    }
  }

  /** The completed counts add up to the completed tasks with a known assignee. */
  lemma {:induction false} UserCompletedSum(tasks: seq<Task>, users: seq<User>, now: int)
    ensures var tally := UserTallyOf(tasks, users, now);
      SumOver(tally.order, tally.counts, CompletedOf) == Count(tasks, (t: Task) => CompletedByKnownUser(users, t))
  {
    var known := (t: Task) => CompletedByKnownUser(users, t);
    if tasks != [] {
      var init, last := tasks[..|tasks| - 1], tasks[|tasks| - 1];
      UserCompletedSum(init, users, now);
      var tally := UserTallyOf(init, users, now);
      assert TallyValid(tally) by { UserTallyOfValid(init, users, now); }
      UserCompletedStep(tally, last, users, now);
      assert tasks == init + [last];
      CountAppend(init, [last], known);
    }
  }

  datatype UserRow = UserRow(userId: string, userName: string, completedTasks: nat, pendingTasks: nat, overdueTasks: nat)

  /** `Object.entries(userStats).map(...)`: one row per user, in insertion order. */
  function UserRows(tally: Tally<UserCounts>, users: seq<User>): (rows: seq<UserRow>)
    requires UserTallyValid(tally, users)
    ensures |rows| == |tally.order|
    ensures forall i :: 0 <= i < |rows| ==>
      && rows[i].userId == tally.order[i]
      && tally.counts[rows[i].userId] ==
           UserCounts(rows[i].userName, rows[i].completedTasks, rows[i].pendingTasks, rows[i].overdueTasks)
      && rows[i].overdueTasks <= rows[i].pendingTasks
  {
    seq(|tally.order|, i requires 0 <= i < |tally.order| =>
      var c := tally.counts[tally.order[i]];
      UserRow(tally.order[i], c.userName, c.completedTasks, c.pendingTasks, c.overdueTasks))
  }

  /** `getUserPerformance` over the tasks of the window and all users: one row per known
      assignee, in the order they first occur (see `UserTallyKeys` and `UserCompletedSum`). */
  method GetUserPerformance(tasks: seq<Task>, users: seq<User>, now: int) returns (rows: seq<UserRow>)
    ensures UserTallyValid(UserTallyOf(tasks, users, now), users)
    ensures rows == UserRows(UserTallyOf(tasks, users, now), users)
  {
    var order: seq<string> := [];
    var userStats: map<string, UserCounts> := map[];
    var n := 0;
    while n < |tasks|
      invariant n <= |tasks|
      invariant Tally(order, userStats) == UserTallyOf(tasks[..n], users, now)
    {
      var task := tasks[n];
      assert tasks[..n + 1][..n] == tasks[..n];
      if IsAssigned(task) {
        var user := FindUser(users, task.assignedToId.value);
        if user.Some? {
          var id := user.value.id;
          if id !in userStats {
            userStats := userStats[id := UserCounts(UserName(user.value), 0, 0, 0)];
            order := order + [id];
          }
          userStats := userStats[id := UserBump(userStats[id], task, now)];
        }
      }
      n := n + 1;
    }
    assert tasks[..n] == tasks;
    UserTallyOfValid(tasks, users, now);
    rows := UserRows(Tally(order, userStats), users);
  }

  // ================================================================ updateTask

  /** One column of a partial update: absent (the stored value stays), `null` (the column is
      cleared) or a value. */
  datatype Column<T> = Absent | Null | Given(value: T)

  /** A column after the store sets it. */
  function Updated<T>(stored: Option<T>, c: Column<T>): (r: Option<T>)
    ensures c.Absent? ==> r == stored
    ensures c.Null? ==> r.None?
    ensures c.Given? ==> r == Some(c.value)
  {
    match c
    case Absent => stored
    case Null => None
    case Given(v) => Some(v)
  }

  /** The columns an update may set. The status column is never null, and `updatedAt` is
      always replaced. */
  datatype TaskPatch = TaskPatch(status: Option<string>, dueDate: Column<int>, assignedToId: Column<string>,
                                 completedAt: Column<int>, updatedAt: Option<int>)

  /** The update `updateTask` sends: the caller's columns, `updatedAt` set to `now`, and
      `completedAt` set to `now` exactly when the new status is "completed" and the caller gave
      no completion time (an absent or `null` one: both are falsy). */
  method BuildUpdate(data: TaskPatch, now: int) returns (u: TaskPatch)
    ensures u.status == data.status && u.dueDate == data.dueDate && u.assignedToId == data.assignedToId
    ensures u.updatedAt == Some(now)
    ensures data.completedAt.Given? ==> u.completedAt == data.completedAt
    ensures !data.completedAt.Given? ==> (u.completedAt == Given(now) <==> data.status == Some("completed"))
    ensures !data.completedAt.Given? && data.status != Some("completed") ==> u.completedAt == data.completedAt
  {
    u := data.(updatedAt := Some(now));
    if data.status == Some("completed") && !data.completedAt.Given? {
      u := u.(completedAt := Given(now));
    }
  }

  /** The stored task after the store sets the update's columns. */
  function Apply(t: Task, u: TaskPatch): Task {
    Task(t.id, u.status.GetOr(t.status), Updated(t.dueDate, u.dueDate), Updated(t.assignedToId, u.assignedToId),
         t.createdAt, Updated(t.completedAt, u.completedAt), u.updatedAt.GetOr(t.updatedAt))
  }

  /** A task updated to "completed" always has a completion time afterwards, `now` unless the
      caller gave one; otherwise an absent completion time keeps the stored one and a `null`
      one clears it. The other columns are set, cleared or kept as given, and the update time
      is `now`. */
  method UpdateTask(t: Task, data: TaskPatch, now: int) returns (r: Task)
    ensures data.status == Some("completed") ==> r.status == "completed" && r.completedAt.Some?
    ensures data.status == Some("completed") && !data.completedAt.Given? ==> r.completedAt == Some(now)
    ensures data.completedAt.Given? ==> r.completedAt == Some(data.completedAt.value)
    ensures data.completedAt.Absent? && data.status != Some("completed") ==> r.completedAt == t.completedAt
    ensures data.completedAt.Null? && data.status != Some("completed") ==> r.completedAt.None?
    ensures data.status.None? ==> r.status == t.status
    ensures r.dueDate == Updated(t.dueDate, data.dueDate) && r.assignedToId == Updated(t.assignedToId, data.assignedToId)
    ensures r.updatedAt == now && r.id == t.id && r.createdAt == t.createdAt
  {
    var u := BuildUpdate(data, now);
    r := Apply(t, u);
  }
}
