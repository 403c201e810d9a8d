/** The in-memory sync job queue (server/services/syncScheduler.ts): a priority queue of sync
    jobs kept sorted by (priority, scheduledAt), at most one job per user and resource, per-user
    locks so that one user's jobs never run side by side, a dispatch step that starts at most
    two workers, and bounded retries with a table of backoff delays. Clocks and job ids are
    parameters; the sync work itself is its outcome. */
module SyncScheduler {
  import opened Basics

  // ================================================================ jobs and keys

  /** The seven resource types a job can sync. */
  datatype ResourceType = Presence | Calendar | Contacts | Drive | Todo | Chat | Email

  function ResourceName(r: ResourceType): (s: string)
    ensures ':' !in s && s != []
  {
    match r
    case Presence => "presence"
    case Calendar => "calendar"
    case Contacts => "contacts"
    case Drive => "drive"
    case Todo => "todo"
    case Chat => "chat"
    case Email => "email"
  }

  /** The `validTypes.includes(resourceType)` test, as the resource type it names. */
  function ParseResource(s: string): (r: Option<ResourceType>)
    ensures r.Some? ==> ResourceName(r.value) == s
    ensures r.None? ==> forall t: ResourceType :: ResourceName(t) != s
  {
    if s == "presence" then Some(Presence)
    else if s == "calendar" then Some(Calendar)
    else if s == "contacts" then Some(Contacts)
    else if s == "drive" then Some(Drive)
    else if s == "todo" then Some(Todo)
    else if s == "chat" then Some(Chat)
    else if s == "email" then Some(Email)
    else None
  }

  datatype SyncJob = SyncJob(
    id: string,
    userId: string,
    resourceType: ResourceType,
    priority: int,
    retryCount: nat,
    scheduledAt: int,
    lastError: Option<string>)

  /** The key of a running job: `${userId}:${resourceType}`. */
  function ProcessingKey(userId: string, r: ResourceType): string {
    userId + ":" + ResourceName(r)
  }

  function KeyOf(j: SyncJob): string { ProcessingKey(j.userId, j.resourceType) }

  /** Two jobs for the same user and resource. */
  predicate SameTarget(a: SyncJob, b: SyncJob) {
    a.userId == b.userId && a.resourceType == b.resourceType
  }

  /** The key names the user and the resource: resource names have no colon, so the key splits
      at its last colon. */
  lemma ProcessingKeyInjective(u1: string, r1: ResourceType, u2: string, r2: ResourceType)
    requires ProcessingKey(u1, r1) == ProcessingKey(u2, r2)
    ensures u1 == u2 && r1 == r2
  {
    var s := ProcessingKey(u1, r1);
    var n1, n2 := ResourceName(r1), ResourceName(r2);
    if |n1| < |n2| {
      KeyColon(u1, n1, u2, n2);
    } else if |n2| < |n1| {
      KeyColon(u2, n2, u1, n1);
    } else {
      assert n1 == s[|s| - |n1|..];
      assert n2 == s[|s| - |n2|..];
      assert u1 == s[..|u1|] && u2 == s[..|u2|];
      ResourceNameInjective(r1, r2);
    }
  }

  /** A shorter suffix after a colon would put that colon inside the longer name. */
  lemma KeyColon(u1: string, n1: string, u2: string, n2: string)
    requires u1 + ":" + n1 == u2 + ":" + n2 && |n1| < |n2|
    ensures ':' in n2
  {
    var s := u1 + ":" + n1;
    var p := |s| - |n1| - 1;
    assert s[p] == ':';
    assert n2[p - (|s| - |n2|)] == s[p];
  }

  /** Jobs for different targets run under different keys. */
  lemma DistinctTargetsDistinctKeys(a: SyncJob, b: SyncJob)
    requires !SameTarget(a, b)
    ensures KeyOf(a) != KeyOf(b)
  {
    if KeyOf(a) == KeyOf(b) {
      ProcessingKeyInjective(a.userId, a.resourceType, b.userId, b.resourceType);
    }
  }

  lemma ResourceNameInjective(r1: ResourceType, r2: ResourceType)
    requires ResourceName(r1) == ResourceName(r2)
    ensures r1 == r2
  {
  }

  // ================================================================ sortQueue

  /** The comparator of `sortQueue`: `a` may precede `b` when its priority is lower, or equal
      with an earlier or equal `scheduledAt`. */
  predicate InOrder(a: SyncJob, b: SyncJob) {
    a.priority < b.priority || (a.priority == b.priority && a.scheduledAt <= b.scheduledAt)
  }

  predicate Sorted(q: seq<SyncJob>) {
    forall i, j :: 0 <= i < j < |q| ==> InOrder(q[i], q[j])
  }

  /** Insert `x` after every job that may precede it, keeping equal jobs in their order. */
  function Insert(q: seq<SyncJob>, x: SyncJob): (r: seq<SyncJob>)
    ensures multiset(r) == multiset(q) + multiset{x}
    ensures |r| == |q| + 1
  {
    if q == [] then [x]
    else if !InOrder(q[0], x) then [x] + q
    else
      assert q == [q[0]] + q[1..];
      [q[0]] + Insert(q[1..], x)
  }

  lemma {:induction false} InsertSorted(q: seq<SyncJob>, x: SyncJob)
    requires Sorted(q)
    ensures Sorted(Insert(q, x))
  {
    if q != [] && InOrder(q[0], x) {
      var rest := q[1..];
      assert Sorted(rest) by {
        forall i, j | 0 <= i < j < |rest| ensures InOrder(rest[i], rest[j]) {
          assert rest[i] == q[i + 1] && rest[j] == q[j + 1];
        }
      }
      InsertSorted(rest, x);
      var r := Insert(q, x);
      forall j | 0 < j < |r| ensures InOrder(q[0], r[j]) {
        assert r[j] in multiset(Insert(rest, x));
        assert r[j] in multiset(rest) || r[j] == x;
        if r[j] != x {
          var k :| 0 <= k < |rest| && rest[k] == r[j];
          assert q[k + 1] == r[j];
        }
      }
    }
  }

  /** The queue after `syncQueue.sort(...)`: the jobs inserted one by one. */
  function SortJobs(q: seq<SyncJob>): (r: seq<SyncJob>)
    ensures multiset(r) == multiset(q) && |r| == |q|
  {
    if q == [] then []
    else
      assert q == q[..|q| - 1] + [q[|q| - 1]];
      Insert(SortJobs(q[..|q| - 1]), q[|q| - 1])
  }

  /** Sorting orders the queue by priority and then by `scheduledAt`. */
  lemma {:induction false} SortJobsSorted(q: seq<SyncJob>)
    ensures Sorted(SortJobs(q))
  {
    if q != [] {
      SortJobsSorted(q[..|q| - 1]);
      InsertSorted(SortJobs(q[..|q| - 1]), q[|q| - 1]);
    }
  }

  // ================================================================ one job per target

  /** At most one queued job per user and resource. */
  predicate UniqueTargets(q: seq<SyncJob>) {
    forall i, j :: 0 <= i < j < |q| ==> !SameTarget(q[i], q[j])
  }

  /** Reordering the queue keeps one job per target. */
  lemma UniqueTargetsPermutation(a: seq<SyncJob>, b: seq<SyncJob>)
    requires multiset(a) == multiset(b) && UniqueTargets(a)
    ensures UniqueTargets(b)
  {
    forall i, j | 0 <= i < j < |b| ensures !SameTarget(b[i], b[j]) {
      var i', j' := DistinctPositions(a, b, i, j);
      if i' < j' {
        assert !SameTarget(a[i'], a[j']);
      } else {
        assert !SameTarget(a[j'], a[i']);
      }
    }
  }

  // ================================================================ enqueueSync

  /** `syncQueue.find(...)`: the first queued job for the user and resource. */
  function FindTarget(q: seq<SyncJob>, userId: string, r: ResourceType): (k: Option<nat>)
    ensures k.Some? ==> k.value < |q| && q[k.value].userId == userId && q[k.value].resourceType == r
    ensures k.Some? ==> forall i :: 0 <= i < k.value ==> !(q[i].userId == userId && q[i].resourceType == r)
    ensures k.None? ==> forall i :: 0 <= i < |q| ==> !(q[i].userId == userId && q[i].resourceType == r)
  {
    if q == [] then None
    else if q[0].userId == userId && q[0].resourceType == r then Some(0)
    else
      var k := FindTarget(q[1..], userId, r);
      if k.Some? then Some(k.value + 1) else None
  }

  /** The queue after `enqueueSync(userId, resourceType, priority)` at time `now` with the
      fresh id `jobId`: unchanged for an unknown resource type; for a queued target only its
      priority may drop (and the queue is re-sorted); unchanged while the target runs; and
      otherwise a new job with no retries, re-sorted into place. */
  function Enqueued(q: seq<SyncJob>, processing: map<string, SyncJob>, userId: string, resourceType: string,
                    priority: int, now: int, jobId: string): seq<SyncJob>
  {
    var r := ParseResource(resourceType);
    if r.None? then q
    else
      var k := FindTarget(q, userId, r.value);
      if k.Some? then
        if priority < q[k.value].priority then SortJobs(q[k.value := q[k.value].(priority := priority)])
        else q
      else if ProcessingKey(userId, r.value) in processing then q
      else SortJobs(q + [SyncJob(jobId, userId, r.value, priority, 0, now, None)])
  }

  /** An unknown resource type leaves the queue as it was. */
  lemma EnqueueInvalidType(q: seq<SyncJob>, processing: map<string, SyncJob>, userId: string, resourceType: string,
                           priority: int, now: int, jobId: string)
    requires forall t: ResourceType :: ResourceName(t) != resourceType
    ensures Enqueued(q, processing, userId, resourceType, priority, now, jobId) == q
  {
  }

  /** The queue is sorted, holds one job per target and none of its jobs is running. */
  ghost predicate QueueValid(q: seq<SyncJob>, processing: map<string, SyncJob>) {
    && Sorted(q)
    && UniqueTargets(q)
    && (forall j :: j in q ==> KeyOf(j) !in processing)
  }

  /** Sorting a queue with one job per target and none running gives a valid queue. */
  lemma SortKeepsQueueValid(u: seq<SyncJob>, processing: map<string, SyncJob>)
    requires UniqueTargets(u) && forall j :: j in u ==> KeyOf(j) !in processing
    ensures QueueValid(SortJobs(u), processing)
  {
    SortJobsSorted(u);
    UniqueTargetsPermutation(u, SortJobs(u));
    assert forall j :: j in SortJobs(u) ==> j in multiset(u);
  }

  /** Lowering the priority of a queued job and re-sorting keeps the queue valid. */
  lemma LowerPriorityKeepsValid(q: seq<SyncJob>, processing: map<string, SyncJob>, k: nat, priority: int)
    requires QueueValid(q, processing) && k < |q|
    ensures QueueValid(SortJobs(q[k := q[k].(priority := priority)]), processing)
  {
    var u := q[k := q[k].(priority := priority)];
    assert UniqueTargets(u) by {
      forall i, j | 0 <= i < j < |u| ensures !SameTarget(u[i], u[j]) {
        assert SameTarget(u[i], q[i]) && SameTarget(u[j], q[j]);
      }
    }
    forall j | j in u ensures KeyOf(j) !in processing {
      var i :| 0 <= i < |u| && u[i] == j;
      assert KeyOf(j) == KeyOf(q[i]);
    }
    SortKeepsQueueValid(u, processing);
  }

  /** Adding a job whose target is neither queued nor running and re-sorting keeps the queue
      valid. */
  lemma AppendKeepsValid(q: seq<SyncJob>, processing: map<string, SyncJob>, job: SyncJob)
    requires QueueValid(q, processing) && KeyOf(job) !in processing
    requires forall i :: 0 <= i < |q| ==> !SameTarget(q[i], job)
    ensures QueueValid(SortJobs(q + [job]), processing)
  {
    var u := q + [job];
    AppendUnique(q, job);
    forall x | x in u ensures KeyOf(x) !in processing {
      assert x in q || x == job;
    }
    SortKeepsQueueValid(u, processing);
  }

  /** A job whose target is not queued keeps the targets unique. */
  lemma AppendUnique(q: seq<SyncJob>, job: SyncJob)
    requires UniqueTargets(q) && forall i :: 0 <= i < |q| ==> !SameTarget(q[i], job)
    ensures UniqueTargets(q + [job])
  {
    var u := q + [job];
    forall a, b | 0 <= a < b < |u| ensures !SameTarget(u[a], u[b]) {
      if b < |q| {
        assert u[a] == q[a] && u[b] == q[b];
      } else {
        assert u[a] == q[a] && u[b] == job;
      }
    }
  }

  /** Enqueueing keeps the queue valid. */
  lemma EnqueueKeepsQueueValid(q: seq<SyncJob>, processing: map<string, SyncJob>, userId: string, resourceType: string,
                               priority: int, now: int, jobId: string)
    requires QueueValid(q, processing)
    ensures QueueValid(Enqueued(q, processing, userId, resourceType, priority, now, jobId), processing)
  {
    var r := ParseResource(resourceType);
    if r.Some? {
      var k := FindTarget(q, userId, r.value);
      if k.Some? {
        if priority < q[k.value].priority {
          LowerPriorityKeepsValid(q, processing, k.value, priority);
        }
      } else if ProcessingKey(userId, r.value) !in processing {
        AppendKeepsValid(q, processing, SyncJob(jobId, userId, r.value, priority, 0, now, None));
      }
    }
  }

  /** Re-enqueueing a queued target adds no job and only lowers that job's priority, to the
      smaller of the two priorities; the other jobs are untouched. */
  lemma ReEnqueueOnlyLowersPriority(q: seq<SyncJob>, processing: map<string, SyncJob>, userId: string, r: ResourceType,
                                    priority: int, now: int, jobId: string, k: nat)
    requires k < |q| && q[k].userId == userId && q[k].resourceType == r && UniqueTargets(q)
    ensures var q' := Enqueued(q, processing, userId, ResourceName(r), priority, now, jobId);
      var old_ := q[k];
      var new_ := old_.(priority := if priority < old_.priority then priority else old_.priority);
      multiset(q') == multiset(q) - multiset{old_} + multiset{new_}
  {
    var f := FindTarget(q, userId, r);
    assert ParseResource(ResourceName(r)) == Some(r) by { ResourceParses(r); }
    assert f == Some(k) by {
      if f.Some? && f.value < k {
        assert SameTarget(q[f.value], q[k]);
      }
    }
    if priority < q[k].priority {
      UpdateMultiset(q, k, q[k].(priority := priority));
    }
  }

  /** Replacing one element swaps it for the new one in the multiset of elements. */
  lemma UpdateMultiset(q: seq<SyncJob>, k: nat, v: SyncJob)
    requires k < |q|
    ensures multiset(q[k := v]) == multiset(q) - multiset{q[k]} + multiset{v}
  {
    var u := q[k := v];
    assert q == q[..k] + [q[k]] + q[k + 1..];
    assert u == q[..k] + [v] + q[k + 1..];
  }

  lemma ResourceParses(r: ResourceType)
    ensures ParseResource(ResourceName(r)) == Some(r)
  {
  }

  /** While a job for the target runs, and none is queued, nothing is enqueued. */
  lemma NoEnqueueWhileProcessing(q: seq<SyncJob>, processing: map<string, SyncJob>, userId: string, r: ResourceType,
                                 priority: int, now: int, jobId: string)
    requires ProcessingKey(userId, r) in processing
    ensures Enqueued(q, processing, userId, ResourceName(r), priority, now, jobId) == q
      || exists k :: 0 <= k < |q| && q[k].userId == userId && q[k].resourceType == r
  {
    ResourceParses(r);
  }

  /** Otherwise the queue gains exactly the new job: priority as asked, no retries, scheduled
      now. */
  lemma EnqueueAddsNewJob(q: seq<SyncJob>, processing: map<string, SyncJob>, userId: string, r: ResourceType,
                          priority: int, now: int, jobId: string)
    requires ProcessingKey(userId, r) !in processing
    requires forall k :: 0 <= k < |q| ==> !(q[k].userId == userId && q[k].resourceType == r)
    ensures multiset(Enqueued(q, processing, userId, ResourceName(r), priority, now, jobId))
      == multiset(q) + multiset{SyncJob(jobId, userId, r, priority, 0, now, None)}
  {
    ResourceParses(r);
  }

  // ================================================================ retries

  const MaxRetries: nat := 5

  /** `BACKOFF_DELAYS`, in milliseconds. */
  const BackoffDelays: seq<nat> := [1000, 2000, 4000, 8000, 16000]

  /** `BACKOFF_DELAYS[retryCount - 1] || BACKOFF_DELAYS[BACKOFF_DELAYS.length - 1]`. */
  function BackoffDelay(retryCount: nat): (d: nat)
    ensures d in BackoffDelays
  {
    var i := retryCount - 1;
    if 0 <= i < |BackoffDelays| && BackoffDelays[i] != 0 then BackoffDelays[i] else BackoffDelays[|BackoffDelays| - 1]
  }

  /** A retried job (1 to 4 failures so far) waits one second doubled per earlier failure: the
      table entry for its count, never the fallback. */
  lemma BackoffDoubles(retryCount: nat)
    requires 1 <= retryCount < MaxRetries
    ensures BackoffDelay(retryCount) == BackoffDelays[retryCount - 1]
    ensures retryCount > 1 ==> BackoffDelay(retryCount) == 2 * BackoffDelay(retryCount - 1)
  {
  }

  /** How the sync work of a job ended: success, a result with `success` false and its error
      list, or a thrown error with its message. */
  datatype SyncOutcome = Succeeded | Failed(errors: seq<string>) | Threw(message: string)

  /** The error message recorded on the job. */
  function ErrorMessage(o: SyncOutcome): (m: string)
    requires !o.Succeeded?
    ensures o.Failed? && Join(o.errors, "; ") != "" ==> m == Join(o.errors, "; ")
    ensures o.Failed? && Join(o.errors, "; ") == "" ==> m == "Sync failed with unknown error"
  {
    match o
    case Failed(errors) => var joined := Join(errors, "; "); if joined != "" then joined else "Sync failed with unknown error"
    case Threw(message) => message
  }

  /** A retry the failure handler schedules: the job is pushed back after `delay` ms. */
  datatype Retry = Retry(job: SyncJob, delay: nat)

  /** The retry timer's queue update as written: unless the scheduler is shutting down, the job
      is pushed and the queue re-sorted, with no check for a job of the same target queued in
      the meantime. */
  function RequeueAsWritten(q: seq<SyncJob>, job: SyncJob, shuttingDown: bool): (r: seq<SyncJob>)
    ensures shuttingDown ==> r == q
    ensures !shuttingDown ==> multiset(r) == multiset(q) + multiset{job} && Sorted(r)
  {
    if shuttingDown then q
    else
      SortJobsSorted(q + [job]);
      SortJobs(q + [job])
  }

  /** A job of user "u" fails once and waits for its retry; meanwhile `enqueueSync("u",
      "calendar")` queues a new job for the same target (none is queued or running); when the
      timer fires, the queue holds two calendar jobs for "u". */
  lemma RetryDuplicatesTarget()
    ensures var failed := SyncJob("job_1", "u", Calendar, 5, 1, 0, Some("timeout"));
      var q := Enqueued([], map[], "u", "calendar", 5, 10, "job_2");
      UniqueTargets(q) && !UniqueTargets(RequeueAsWritten(q, failed, false))
  {
    var failed := SyncJob("job_1", "u", Calendar, 5, 1, 0, Some("timeout"));
    var newer := SyncJob("job_2", "u", Calendar, 5, 0, 10, None);
    assert ParseResource("calendar") == Some(Calendar);
    var q := Enqueued([], map[], "u", "calendar", 5, 10, "job_2");
    assert [] + [newer] == [newer];
    assert q == SortJobs([newer]) == [newer];
    var r := RequeueAsWritten(q, failed, false);
    assert multiset(r) == multiset{newer, failed};
    assert |r| == |multiset(r)| == 2;
    assert r[0] in multiset(r) && r[1] in multiset(r);
    assert SameTarget(r[0], r[1]);
  }

  // ================================================================ the queue

  /** `getQueueStats()`. */
  datatype QueueStats = QueueStats(pending: nat, processing: nat, completed: nat, failed: nat, activeUsers: set<string>)

  const DefaultConcurrency: nat := 2

  /** The users of the running jobs. */
  function ActiveUsers(processing: map<string, SyncJob>): set<string> {
    set k | k in processing :: processing[k].userId
  }

  /** Every running job is filed under its own key, running jobs belong to different users,
      and exactly their users are locked. */
  ghost predicate RunningValid(processing: map<string, SyncJob>, userLocks: set<string>) {
    && (forall k :: k in processing ==> k == KeyOf(processing[k]))
    && (forall k1, k2 :: k1 in processing && k2 in processing && k1 != k2 ==> processing[k1].userId != processing[k2].userId)
    && userLocks == ActiveUsers(processing)
  }

  /** Taking the job at position `i` out of a valid queue and running it keeps the queue
      valid. */
  lemma RemoveKeepsQueueValid(q: seq<SyncJob>, processing: map<string, SyncJob>, i: nat)
    requires QueueValid(q, processing) && i < |q|
    ensures QueueValid(q[..i] + q[i + 1..], processing[KeyOf(q[i]) := q[i]])
  {
    var j := q[i];
    var r := q[..i] + q[i + 1..];
    forall a, b | 0 <= a < b < |r| ensures InOrder(r[a], r[b]) && !SameTarget(r[a], r[b]) {
      var a', b' := if a < i then a else a + 1, if b < i then b else b + 1;
      assert r[a] == q[a'] && r[b] == q[b'] && a' < b';
    }
    forall x | x in r ensures KeyOf(x) !in processing[KeyOf(j) := j] {
      var a :| 0 <= a < |r| && r[a] == x;
      var a' := if a < i then a else a + 1;
      assert x == q[a'] && a' != i;
      assert !SameTarget(x, j) by {
        if a' < i { assert !SameTarget(q[a'], q[i]); } else { assert !SameTarget(q[i], q[a']); }
      }
      DistinctTargetsDistinctKeys(x, j);
    }
  }

  /** Running a job whose user is not locked, under a key not yet running, keeps the running
      jobs valid. */
  lemma StartKeepsRunningValid(processing: map<string, SyncJob>, userLocks: set<string>, j: SyncJob)
    requires RunningValid(processing, userLocks) && j.userId !in userLocks && KeyOf(j) !in processing
    ensures RunningValid(processing[KeyOf(j) := j], userLocks + {j.userId})
  {
    var p := processing[KeyOf(j) := j];
    forall k1, k2 | k1 in p && k2 in p && k1 != k2 ensures p[k1].userId != p[k2].userId {
      if k1 == KeyOf(j) {
        assert p[k2].userId in ActiveUsers(processing);
      } else if k2 == KeyOf(j) {
        assert p[k1].userId in ActiveUsers(processing);
      }
    }
    forall u | u in ActiveUsers(processing) + {j.userId} ensures u in ActiveUsers(p) {
      if u == j.userId {
        assert p[KeyOf(j)].userId == u;
      } else {
        var k :| k in processing && processing[k].userId == u;
        assert k != KeyOf(j) && p[k].userId == u;
      }
    }
    forall u | u in ActiveUsers(p) ensures u in ActiveUsers(processing) + {j.userId} {
      var k :| k in p && p[k].userId == u;
      if k != KeyOf(j) { assert processing[k].userId == u; }
    }
  }

  /** Releasing a running job's key and its user's lock keeps the running jobs valid. */
  lemma ReleaseKeepsRunningValid(processing: map<string, SyncJob>, userLocks: set<string>, key: string)
    requires RunningValid(processing, userLocks) && key in processing
    ensures RunningValid(processing - {key}, userLocks - {processing[key].userId})
  {
    var p := processing - {key};
    var user := processing[key].userId;
    forall u | u in ActiveUsers(processing) - {user} ensures u in ActiveUsers(p) {
      var k :| k in processing && processing[k].userId == u;
      assert k != key && k in p && p[k].userId == u;
    }
    forall u | u in ActiveUsers(p) ensures u in ActiveUsers(processing) - {user} {
      var k :| k in p && p[k].userId == u;
      assert processing[k].userId == u && k != key;
    }
  }

  /** The scheduler's module state: the queue, the running jobs by key, the locked users and the
      two outcome counters. */
  class Scheduler {
    var queue: seq<SyncJob>
    var processing: map<string, SyncJob>
    var userLocks: set<string>
    var completedCount: nat
    var failedCount: nat

    ghost predicate Valid()
      reads this
    {
      QueueValid(queue, processing) && RunningValid(processing, userLocks)
    }

    constructor ()
      ensures Valid()
      ensures queue == [] && processing == map[] && userLocks == {} && completedCount == 0 && failedCount == 0
    {
      queue := [];
      processing := map[];
      userLocks := {};
      completedCount := 0;
      failedCount := 0;
    }

    /** `sortQueue()`: the queue re-sorted by priority, then by `scheduledAt`. */
    method SortQueue()
      modifies this
      ensures queue == SortJobs(old(queue))
      ensures processing == old(processing) && userLocks == old(userLocks)
      ensures completedCount == old(completedCount) && failedCount == old(failedCount)
    {
      var sorted: seq<SyncJob> := [];
      var i := 0;
      while i < |queue|
        invariant 0 <= i <= |queue|
        invariant sorted == SortJobs(queue[..i])
      {
        assert queue[..i + 1][..i] == queue[..i];
        sorted := Insert(sorted, queue[i]);
        i := i + 1;
      }
      assert queue[..i] == queue;
      queue := sorted;
    }

    /** `enqueueSync(userId, resourceType, priority)` at time `now`, `jobId` being the id
        `generateJobId()` draws. */
    method EnqueueSync(userId: string, resourceType: string, priority: int, now: int, jobId: string)
      requires Valid()
      modifies this
      ensures Valid()
      ensures queue == Enqueued(old(queue), processing, userId, resourceType, priority, now, jobId)
      ensures processing == old(processing) && userLocks == old(userLocks)
      ensures completedCount == old(completedCount) && failedCount == old(failedCount)
    {
      EnqueueKeepsQueueValid(queue, processing, userId, resourceType, priority, now, jobId);
      var r := ParseResource(resourceType);
      if r.None? {
        return;
      }
      var k := FindTarget(queue, userId, r.value);
      if k.Some? {
        if priority < queue[k.value].priority {
          queue := queue[k.value := queue[k.value].(priority := priority)];
          SortQueue();
        }
        return;
      }
      if ProcessingKey(userId, r.value) in processing {
        return;
      }
      queue := queue + [SyncJob(jobId, userId, r.value, priority, 0, now, None)];
      SortQueue();
    }

    /** `getNextAvailableJob()`: the position of the first queued job whose user is not
        locked, or none when every queued user is locked. */
    method NextAvailableJob() returns (k: Option<nat>)
      ensures k.Some? ==> k.value < |queue| && queue[k.value].userId !in userLocks
      ensures k.Some? ==> forall i :: 0 <= i < k.value ==> queue[i].userId in userLocks
      ensures k.None? ==> forall i :: 0 <= i < |queue| ==> queue[i].userId in userLocks
    {
      var i := 0;
      while i < |queue|
        invariant 0 <= i <= |queue|
        invariant forall j :: 0 <= j < i ==> queue[j].userId in userLocks
      {
        if queue[i].userId !in userLocks {
          return Some(i);
        }
        i := i + 1;
      }
      return None;
    }

    /** One dispatch step of `processQueue()`: the first queued job whose user is not locked
        leaves the queue, its user is locked and `processJob` files it under its key. */
    method Dispatch() returns (job: Option<SyncJob>)
      requires Valid()
      modifies this
      ensures Valid()
      ensures job.None? ==> queue == old(queue) && processing == old(processing) && userLocks == old(userLocks)
      ensures job.None? ==> forall i :: 0 <= i < |queue| ==> queue[i].userId in userLocks
      ensures job.Some? ==> exists k :: (
        && 0 <= k < |old(queue)| && old(queue)[k] == job.value
        && (forall i :: 0 <= i < k ==> old(queue)[i].userId in old(userLocks))
        && queue == old(queue)[..k] + old(queue)[k + 1..])
      ensures job.Some? ==> |queue| + 1 == |old(queue)|
      ensures job.Some? ==> job.value.userId !in old(userLocks) && KeyOf(job.value) !in old(processing)
      ensures job.Some? ==> processing == old(processing)[KeyOf(job.value) := job.value]
      ensures job.Some? ==> userLocks == old(userLocks) + {job.value.userId}
      ensures completedCount == old(completedCount) && failedCount == old(failedCount)
    {
      var k := NextAvailableJob();
      if k.None? {
        return None;
      }
      var i := k.value;
      var j := queue[i];
      assert j in queue;
      RemoveKeepsQueueValid(queue, processing, i);
      StartKeepsRunningValid(processing, userLocks, j);
      queue := queue[..i] + queue[i + 1..];
      userLocks := userLocks + {j.userId};
      processing := processing[KeyOf(j) := j];
      job := Some(j);
    }

    /** The inner loop of `processQueue()`: with `active` workers running, start workers until
        two run, the queue is empty or every queued user is locked. */
    method FillWorkers(active: nat) returns (started: seq<SyncJob>)
      requires Valid()
      modifies this
      ensures Valid()
      ensures active <= DefaultConcurrency ==> active + |started| <= DefaultConcurrency
      ensures active >= DefaultConcurrency ==> started == []
      ensures |queue| + |started| == |old(queue)|
      ensures forall j :: j in started ==> j.userId !in old(userLocks) && j.userId in userLocks
      ensures forall a, b :: 0 <= a < b < |started| ==> started[a].userId != started[b].userId
      ensures active + |started| < DefaultConcurrency ==> forall i :: 0 <= i < |queue| ==> queue[i].userId in userLocks
      ensures completedCount == old(completedCount) && failedCount == old(failedCount)
    {
      started := [];
      while active + |started| < DefaultConcurrency && |queue| > 0
        invariant Valid()
        invariant active <= DefaultConcurrency ==> active + |started| <= DefaultConcurrency
        invariant active >= DefaultConcurrency ==> started == []
        invariant |queue| + |started| == |old(queue)|
        invariant forall j :: j in started ==> j.userId !in old(userLocks) && j.userId in userLocks
        invariant forall a, b :: 0 <= a < b < |started| ==> started[a].userId != started[b].userId
        invariant old(userLocks) <= userLocks
        invariant completedCount == old(completedCount) && failedCount == old(failedCount)
        decreases |queue|
      {
        ghost var locks := userLocks;
        var job := Dispatch();
        if job.None? {
          break;
        }
        var j := job.value;
        assert forall x :: x in started ==> x.userId in locks;
        started := started + [j];
      }
    }

    /** The end of `processJob(job)` for the job running under `key`: a success counts as
        completed; a failure records its message and one more retry, and is either scheduled
        again after the backoff delay (below five retries) or counted as failed; in every case
        the key and the user lock are released. */
    method FinishJob(key: string, outcome: SyncOutcome) returns (retry: Option<Retry>)
      requires Valid() && key in processing
      modifies this
      ensures Valid()
      ensures queue == old(queue)
      ensures processing == old(processing) - {key}
      ensures userLocks == old(userLocks) - {old(processing)[key].userId}
      ensures outcome.Succeeded? ==> completedCount == old(completedCount) + 1 && failedCount == old(failedCount) && retry.None?
      ensures !outcome.Succeeded? ==> completedCount == old(completedCount)
      ensures !outcome.Succeeded? ==> var job := old(processing)[key];
        var failed := job.(retryCount := job.retryCount + 1, lastError := Some(ErrorMessage(outcome)));
        if failed.retryCount < MaxRetries then
          retry == Some(Retry(failed, BackoffDelay(failed.retryCount))) && failedCount == old(failedCount)
        else
          retry.None? && failedCount == old(failedCount) + 1
    {
      var job := processing[key];
      retry := None;
      if outcome.Succeeded? {
        completedCount := completedCount + 1;
      } else {
        job := job.(retryCount := job.retryCount + 1, lastError := Some(ErrorMessage(outcome)));
        if job.retryCount < MaxRetries {
          retry := Some(Retry(job, BackoffDelay(job.retryCount)));
        } else {
          failedCount := failedCount + 1;
        }
      }
      ReleaseKeepsRunningValid(processing, userLocks, key);
      userLocks := userLocks - {processing[key].userId};
      processing := processing - {key};
    }

    /** The retry timer, with the check the queue's other writer makes: the job is pushed back
        and the queue re-sorted unless the scheduler is shutting down, a job for the same target
        is queued, or one is running. */
    method RequeueRetry(job: SyncJob, shuttingDown: bool)
      requires Valid()
      modifies this
      ensures Valid()
      ensures var blocked := shuttingDown || KeyOf(job) in processing
          || exists i :: 0 <= i < |old(queue)| && SameTarget(old(queue)[i], job);
        queue == if blocked then old(queue) else SortJobs(old(queue) + [job])
      ensures processing == old(processing) && userLocks == old(userLocks)
      ensures completedCount == old(completedCount) && failedCount == old(failedCount)
    {
      if shuttingDown || KeyOf(job) in processing {
        return;
      }
      var k := FindTarget(queue, job.userId, job.resourceType);
      if k.Some? {
        assert SameTarget(queue[k.value], job);
        return;
      }
      AppendKeepsValid(queue, processing, job);
      queue := queue + [job];
      SortQueue();
    }

    /** `getQueueStats()`: queued and running counts, the two counters and the users with a
        running job. */
    method GetQueueStats() returns (stats: QueueStats)
      ensures stats.pending == |queue| && stats.processing == |processing|
      ensures stats.completed == completedCount && stats.failed == failedCount
      ensures stats.activeUsers == ActiveUsers(processing)
    {
      var users: set<string> := {};
      var remaining := processing.Keys;
      while remaining != {}
        invariant remaining <= processing.Keys
        invariant users == set k | k in processing.Keys - remaining :: processing[k].userId
        decreases |remaining|
      {
        var k :| k in remaining;
        users := users + {processing[k].userId};
        remaining := remaining - {k};
      }
      stats := QueueStats(|queue|, |processing|, completedCount, failedCount, users);
    }

    /** The active users reported are exactly the locked users. */
    lemma ActiveUsersAreLocked()
      requires Valid()
      ensures ActiveUsers(processing) == userLocks
    {
    }
  }
}
