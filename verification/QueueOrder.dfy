/** The tasks of one plan stand in the queue in the plan's own order: capture, removals, applies. */
module QueueOrder {
  import opened Collections
  import opened BookingRules
  import opened DispatchPlan

  /** How many tasks a plan has. */
  function Size(plan: Plan): nat {
    1 + |plan.removals| + |plan.applies|
  }

  /** What the tasks of a plan are for, in plan order. */
  function SubjectAt(plan: Plan, i: nat): Subject
    requires i < Size(plan)
  {
    if i == 0 then Capture(plan)
    else if i <= |plan.removals| then RemovalSubject(plan, i - 1)
    else ApplySubject(plan, i - 1 - |plan.removals|)
  }

  lemma SubjectIsOwn(plan: Plan, i: nat)
    requires i < Size(plan)
    ensures Own(plan, SubjectAt(plan, i))
  {
    if i == 0 {
    } else if i <= |plan.removals| {
      assert SubjectAt(plan, i) == RemovalSubject(plan, i - 1);
    } else {
      assert SubjectAt(plan, i) == ApplySubject(plan, i - 1 - |plan.removals|);
    }
  }

  lemma OwnIsSubject(plan: Plan, s: Subject) returns (i: nat)
    requires Own(plan, s)
    ensures i < Size(plan) && SubjectAt(plan, i) == s
  {
    if s == Capture(plan) {
      i := 0;
    } else if j :| 0 <= j < |plan.removals| && s == RemovalSubject(plan, j) {
      i := 1 + j;
      SubjectOfRemoval(plan, j);
    } else {
      var k :| 0 <= k < |plan.applies| && s == ApplySubject(plan, k);
      i := 1 + |plan.removals| + k;
      SubjectOfApply(plan, k);
    }
  }

  lemma SubjectsDiffer(plan: Plan, i: nat, m: nat)
    requires PlanOk(plan) && i < m < Size(plan)
    ensures SubjectAt(plan, i) != SubjectAt(plan, m)
  {
    var n := |plan.removals|;
    if m <= n {
      assert SubjectAt(plan, m) == RemovalSubject(plan, m - 1);
    } else {
      assert SubjectAt(plan, m) == ApplySubject(plan, m - 1 - n);
    }
    if 0 < i <= n {
      assert SubjectAt(plan, i) == RemovalSubject(plan, i - 1);
    } else if i > n {
      assert SubjectAt(plan, i) == ApplySubject(plan, i - 1 - n);
    }
  }

  /** The task of subject `i + 1`, if it is there, stands behind that of subject `i`. */
  ghost predicate InOrderAt(plan: Plan, tasks: seq<Task>, i: nat)
    requires i + 1 < Size(plan)
  {
    var a, b := TaskFor(tasks, SubjectAt(plan, i)), TaskFor(tasks, SubjectAt(plan, i + 1));
    b.Some? ==> a.Some? && a.value < b.value
  }

  ghost predicate InPlanOrder(plan: Plan, tasks: seq<Task>) {
    forall i {:trigger InOrderAt(plan, tasks, i)} :: 0 <= i < Size(plan) - 1 ==> InOrderAt(plan, tasks, i)
  }

  lemma SameTasksInOrder(plan: Plan, tasks: seq<Task>, tasks': seq<Task>)
    requires InPlanOrder(plan, tasks)
    requires forall i :: 0 <= i < Size(plan) ==>
                           TaskFor(tasks', SubjectAt(plan, i)) == TaskFor(tasks, SubjectAt(plan, i))
    ensures InPlanOrder(plan, tasks')
  {
    forall i | 0 <= i < Size(plan) - 1 ensures InOrderAt(plan, tasks', i) {
      assert InOrderAt(plan, tasks, i);
    }
  }

  /** The next subject's task goes to the end of the queue. */
  lemma AppendInOrder(plan: Plan, tasks: seq<Task>, x: Task, i: nat)
    requires PlanOk(plan) && InPlanOrder(plan, tasks) && i < Size(plan) && x.subject == SubjectAt(plan, i)
    requires TaskFor(tasks, x.subject).None? && (i > 0 ==> TaskFor(tasks, SubjectAt(plan, i - 1)).Some?)
    ensures InPlanOrder(plan, tasks + [x])
  {
    forall m | 0 <= m < Size(plan) - 1 ensures InOrderAt(plan, tasks + [x], m) {
      assert InOrderAt(plan, tasks, m);
      AppendTaskFor(tasks, x, SubjectAt(plan, m));
      AppendTaskFor(tasks, x, SubjectAt(plan, m + 1));
      if m + 1 < i {
        SubjectsDiffer(plan, m + 1, i);
      } else if m + 1 > i {
        SubjectsDiffer(plan, i, m + 1);
      }
    }
  }

  // ----- the queue of a finished plan -----

  /** The queue as it was, followed by one task for each subject in plan order. */
  ghost predicate ExactQueue(plan: Plan, tasks0: seq<Task>, tasks: seq<Task>) {
    && |tasks| == |tasks0| + Size(plan)
    && tasks[..|tasks0|] == tasks0
    && forall i {:trigger SubjectAt(plan, i)} :: 0 <= i < Size(plan) ==>
                  tasks[|tasks0| + i].subject == SubjectAt(plan, i)
  }

  lemma SubjectHasTask(plan: Plan, rows: seq<Row>, tasks: seq<Task>, i: nat)
    requires Delivered(plan, rows, tasks) && i < Size(plan)
    ensures TaskFor(tasks, SubjectAt(plan, i)).Some?
  {
    var n := |plan.removals|;
    if 0 < i <= n {
      assert RemovalDone(plan, tasks, i - 1);
      SubjectOfRemoval(plan, i - 1);
    } else if i > n {
      assert ApplyDone(plan, tasks, i - 1 - n);
      SubjectOfApply(plan, i - 1 - n);
    }
  }

  lemma SubjectOfRemoval(plan: Plan, j: nat)
    requires j < |plan.removals|
    ensures SubjectAt(plan, 1 + j) == RemovalSubject(plan, j)
  {
  }

  lemma SubjectOfApply(plan: Plan, k: nat)
    requires k < |plan.applies|
    ensures SubjectAt(plan, 1 + |plan.removals| + k) == ApplySubject(plan, k)
  {
  }

  ghost predicate Hit(r: seq<nat>, t: nat) {
    exists k :: 0 <= k < |r| && r[k] == t
  }

  ghost predicate Rising(r: seq<nat>) {
    forall i, k :: 0 <= i < k < |r| ==> r[i] < r[k]
  }

  /** `r` lies between `n` and `m` and hits everything there. */
  ghost predicate Covers(r: seq<nat>, n: nat, m: nat) {
    (forall k :: 0 <= k < |r| ==> n <= r[k] < m) && forall t: nat :: n <= t < m ==> Hit(r, t)
  }

  /** A rising sequence that hits everything from `n` up to `m` is `n, n + 1, ...`, as far as `m`. */
  lemma {:induction false} RisingIsConsecutive(r: seq<nat>, n: nat, m: nat, i: nat)
    requires Rising(r) && Covers(r, n, m)
    requires i < |r|
    ensures r[i] == n + i
    decreases i
  {
    if i > 0 {
      RisingIsConsecutive(r, n, m, i - 1);
    }
    assert n + i <= r[i];
    assert Hit(r, n + i);
    var k :| 0 <= k < |r| && r[k] == n + i;
  }

  lemma RisingEndsAt(r: seq<nat>, n: nat, m: nat)
    requires Rising(r) && Covers(r, n, m)
    requires n <= m
    ensures m == n + |r|
  {
    forall i | 0 <= i < |r| ensures r[i] == n + i {
      RisingIsConsecutive(r, n, m, i);
    }
    if |r| > 0 {
      assert r[|r| - 1] < m;
    }
    assert n + |r| < m ==> Hit(r, n + |r|);
  }

  /** Where the tasks of a finished plan stand. */
  ghost predicate PlacesOf(plan: Plan, tasks: seq<Task>, r: seq<nat>) {
    && |r| == Size(plan)
    && forall i :: 0 <= i < |r| ==> TaskFor(tasks, SubjectAt(plan, i)) == Some(r[i])
  }

  lemma Places(plan: Plan, rows: seq<Row>, tasks: seq<Task>) returns (r: seq<nat>)
    requires Delivered(plan, rows, tasks)
    ensures PlacesOf(plan, tasks, r)
  {
    forall i | 0 <= i < Size(plan) ensures TaskFor(tasks, SubjectAt(plan, i)).Some? {
      SubjectHasTask(plan, rows, tasks, i);
    }
    r := seq(Size(plan), i requires 0 <= i < Size(plan) => TaskFor(tasks, SubjectAt(plan, i)).value);
  }

  lemma {:induction false} PlacesRise(plan: Plan, tasks: seq<Task>, r: seq<nat>, i: nat, k: nat)
    requires PlacesOf(plan, tasks, r) && InPlanOrder(plan, tasks) && i < k < |r|
    ensures r[i] < r[k]
    decreases k
  {
    assert InOrderAt(plan, tasks, k - 1);
    if i < k - 1 {
      PlacesRise(plan, tasks, r, i, k - 1);
    }
  }

  lemma OwnTaskIsHit(plan: Plan, tasks: seq<Task>, r: seq<nat>, t: nat)
    requires PlacesOf(plan, tasks, r) && OwnTasksUnique(plan, tasks) && t < |tasks| && Own(plan, tasks[t].subject)
    ensures Hit(r, t)
  {
    var i := OwnIsSubject(plan, tasks[t].subject);
    OwnTaskIsTheTask(plan, tasks, t);
    assert r[i] == t;
  }

  lemma PlaceIsNew(plan: Plan, tasks0: seq<Task>, tasks: seq<Task>, r: seq<nat>, k: nat)
    requires PlacesOf(plan, tasks, r) && k < |r| && |tasks0| <= |tasks| && tasks[..|tasks0|] == tasks0
    requires forall t :: 0 <= t < |tasks0| ==> !Own(plan, tasks0[t].subject)
    ensures |tasks0| <= r[k] < |tasks| && tasks[r[k]].subject == SubjectAt(plan, k)
  {
    forall t | 0 <= t < |tasks0| ensures tasks[t] == tasks0[t] {
      assert tasks[..|tasks0|][t] == tasks[t];
    }
    SubjectIsOwn(plan, k);
  }

  lemma PlacesCover(plan: Plan, tasks0: seq<Task>, tasks: seq<Task>, r: seq<nat>)
    requires PlacesOf(plan, tasks, r) && OwnTasksUnique(plan, tasks)
    requires |tasks0| <= |tasks| && tasks[..|tasks0|] == tasks0
    requires forall t :: 0 <= t < |tasks0| ==> !Own(plan, tasks0[t].subject)
    requires forall t :: |tasks0| <= t < |tasks| ==> Own(plan, tasks[t].subject)
    ensures Covers(r, |tasks0|, |tasks|)
  {
    forall k | 0 <= k < |r| ensures |tasks0| <= r[k] < |tasks| {
      PlaceIsNew(plan, tasks0, tasks, r, k);
    }
    forall t: nat | |tasks0| <= t < |tasks| ensures Hit(r, t) {
      OwnTaskIsHit(plan, tasks, r, t);
    }
  }

  lemma PlacesAreRising(plan: Plan, tasks: seq<Task>, r: seq<nat>)
    requires PlacesOf(plan, tasks, r) && InPlanOrder(plan, tasks)
    ensures Rising(r)
  {
    forall i, k | 0 <= i < k < |r| ensures r[i] < r[k] {
      PlacesRise(plan, tasks, r, i, k);
    }
  }

  lemma ConsecutiveIsExact(plan: Plan, tasks0: seq<Task>, tasks: seq<Task>, r: seq<nat>)
    requires PlacesOf(plan, tasks, r) && Rising(r) && Covers(r, |tasks0|, |tasks|)
    requires |tasks0| <= |tasks| && tasks[..|tasks0|] == tasks0
    ensures ExactQueue(plan, tasks0, tasks)
  {
    RisingEndsAt(r, |tasks0|, |tasks|);
    forall i | 0 <= i < Size(plan) ensures tasks[|tasks0| + i].subject == SubjectAt(plan, i) {
      RisingIsConsecutive(r, |tasks0|, |tasks|, i);
      assert TaskFor(tasks, SubjectAt(plan, i)) == Some(r[i]);
    }
  }

  /** Own tasks appended to a queue that had none are exactly the plan's, in plan order. */
  lemma NewTasksAreThePlans(plan: Plan, rows: seq<Row>, tasks0: seq<Task>, tasks: seq<Task>)
    requires Delivered(plan, rows, tasks) && InPlanOrder(plan, tasks)
    requires |tasks0| <= |tasks| && tasks[..|tasks0|] == tasks0
    requires forall t :: 0 <= t < |tasks0| ==> !Own(plan, tasks0[t].subject)
    requires forall t :: |tasks0| <= t < |tasks| ==> Own(plan, tasks[t].subject)
    ensures ExactQueue(plan, tasks0, tasks)
  {
    var r := Places(plan, rows, tasks);
    PlacesAreRising(plan, tasks, r);
    PlacesCover(plan, tasks0, tasks, r);
    ConsecutiveIsExact(plan, tasks0, tasks, r);
  }

  // ----- finished queues are alike -----

  lemma ExactPlace(plan: Plan, tasks0: seq<Task>, tasks: seq<Task>, i: nat)
    requires OwnTasksUnique(plan, tasks) && ExactQueue(plan, tasks0, tasks) && i < Size(plan)
    ensures TaskFor(tasks, SubjectAt(plan, i)) == Some(|tasks0| + i)
  {
    SubjectIsOwn(plan, i);
    OwnTaskIsTheTask(plan, tasks, |tasks0| + i);
  }

  lemma SamePlaces(plan: Plan, tasks0: seq<Task>, a: seq<Task>, b: seq<Task>, s: Subject)
    requires OwnTasksUnique(plan, a) && OwnTasksUnique(plan, b) && Own(plan, s)
    requires ExactQueue(plan, tasks0, a) && ExactQueue(plan, tasks0, b)
    ensures TaskFor(a, s) == TaskFor(b, s)
  {
    var i := OwnIsSubject(plan, s);
    ExactPlace(plan, tasks0, a, i);
    ExactPlace(plan, tasks0, b, i);
  }

  lemma SameDependencies(plan: Plan, tasks0: seq<Task>, a: seq<Task>, b: seq<Task>, k: nat)
    requires OwnTasksUnique(plan, a) && OwnTasksUnique(plan, b) && k < |plan.applies|
    requires ExactQueue(plan, tasks0, a) && ExactQueue(plan, tasks0, b)
    ensures ApplyDeps(plan, a, k) == ApplyDeps(plan, b, k)
  {
    SamePlaces(plan, tasks0, a, b, Capture(plan));
    forall j | 0 <= j < |plan.removals|
      ensures TaskFor(a, RemovalSubject(plan, j)) == TaskFor(b, RemovalSubject(plan, j))
    {
      SamePlaces(plan, tasks0, a, b, RemovalSubject(plan, j));
    }
    if k > 0 {
      SamePlaces(plan, tasks0, a, b, ApplySubject(plan, k - 1));
    }
    SameApplyDeps(plan, b, a, k);
  }

  /** The prescribed dependencies of the i-th task of a plan. */
  ghost function DepsAt(plan: Plan, tasks: seq<Task>, i: nat): set<nat>
    requires i < Size(plan)
  {
    if i == 0 then {}
    else if i <= |plan.removals| then CaptureTasks(plan, tasks)
    else ApplyDeps(plan, tasks, i - 1 - |plan.removals|)
  }

  lemma DeliveredDeps(plan: Plan, rows: seq<Row>, tasks: seq<Task>, i: nat)
    requires Delivered(plan, rows, tasks) && i < Size(plan)
    ensures TaskFor(tasks, SubjectAt(plan, i)).Some?
    ensures tasks[TaskFor(tasks, SubjectAt(plan, i)).value].deps == DepsAt(plan, tasks, i)
  {
    if 0 < i <= |plan.removals| {
      assert RemovalDone(plan, tasks, i - 1);
    } else if i > |plan.removals| {
      assert ApplyDone(plan, tasks, i - 1 - |plan.removals|);
    }
  }

  lemma ExactDeps(plan: Plan, rows: seq<Row>, tasks0: seq<Task>, tasks: seq<Task>, i: nat)
    requires Delivered(plan, rows, tasks) && ExactQueue(plan, tasks0, tasks) && i < Size(plan)
    ensures tasks[|tasks0| + i].deps == DepsAt(plan, tasks, i)
  {
    DeliveredDeps(plan, rows, tasks, i);
    ExactPlace(plan, tasks0, tasks, i);
  }

  lemma SameDeps(plan: Plan, tasks0: seq<Task>, a: seq<Task>, b: seq<Task>, i: nat)
    requires OwnTasksUnique(plan, a) && OwnTasksUnique(plan, b) && i < Size(plan)
    requires ExactQueue(plan, tasks0, a) && ExactQueue(plan, tasks0, b)
    ensures DepsAt(plan, a, i) == DepsAt(plan, b, i)
  {
    SamePlaces(plan, tasks0, a, b, Capture(plan));
    if i > |plan.removals| {
      SameDependencies(plan, tasks0, a, b, i - 1 - |plan.removals|);
    }
  }

  /** Two tasks about one instruction carry the id of its one row. */
  lemma SameRowId(plan: Plan, rows: seq<Row>, a: seq<Task>, b: seq<Task>, t: nat)
    requires TablesOk(plan, rows, a) && TablesOk(plan, rows, b) && t < |a| && t < |b|
    requires a[t].subject == b[t].subject && Own(plan, a[t].subject) && a[t].subject.InstructionOf?
    ensures a[t].instructionId == b[t].instructionId
  {
  }

  ghost predicate Alike(x: Task, y: Task) {
    && x.subject == y.subject && x.deps == y.deps
    && (x.subject.InstructionOf? ==> x.instructionId == y.instructionId)
  }

  lemma DeliveredTables(plan: Plan, rows: seq<Row>, tasks: seq<Task>)
    requires Delivered(plan, rows, tasks)
    ensures TablesOk(plan, rows, tasks) && OwnTasksUnique(plan, tasks)
  {
  }

  /** Two finished queues over the same rows, however they came about, are alike task by task. */
  lemma FinishedQueuesAgree(plan: Plan, rows: seq<Row>, tasks0: seq<Task>, a: seq<Task>, b: seq<Task>, i: nat)
    requires Delivered(plan, rows, a) && Delivered(plan, rows, b) && i < Size(plan)
    requires ExactQueue(plan, tasks0, a) && ExactQueue(plan, tasks0, b)
    ensures |a| == |b| && a[..|tasks0|] == b[..|tasks0|] && Alike(a[|tasks0| + i], b[|tasks0| + i])
  {
    var t := |tasks0| + i;
    assert a[t].subject == SubjectAt(plan, i) == b[t].subject;
    assert a[t].deps == b[t].deps by {
      ExactDeps(plan, rows, tasks0, a, i);
      ExactDeps(plan, rows, tasks0, b, i);
      DeliveredTables(plan, rows, a);
      DeliveredTables(plan, rows, b);
      SameDeps(plan, tasks0, a, b, i);
    }
    assert a[t].subject.InstructionOf? ==> a[t].instructionId == b[t].instructionId by {
      if a[t].subject.InstructionOf? {
        SubjectIsOwn(plan, i);
        SameRowId(plan, rows, a, b, t);
      }
    }
  }
}
