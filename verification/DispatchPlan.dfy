/**
 The external tasks of one generation: what a prepared plan asks for, and what a task queue that has
 received all of it looks like, however often the handler crashed on the way.
 */
module DispatchPlan {
  import opened Collections
  import opened BookingRules

  /** What an external task is about: the base-rate capture of a handler run, or one instruction. */
  datatype Subject = CaptureOf(booking: int, parent: nat) | InstructionOf(uuid: Uuid)

  /** Tasks are numbered by their position in the queue; `deps` are the tasks to wait for. */
  datatype Task = Task(subject: Subject, instructionId: nat, deps: set<nat>)

  datatype Apply = Apply(instr: Instruction, position: int, overlaps: seq<nat>)

  /** The `instruction_plan_prepared` checkpoint. */
  datatype Plan = Plan(task: nat, booking: int, removals: seq<Instruction>, applies: seq<Apply>)

  /** The latest of the first `n` tasks about `s`. */
  function TaskBelow(tasks: seq<Task>, s: Subject, n: nat): (r: Option<nat>)
    requires n <= |tasks|
    ensures r.Some? ==> r.value < n && tasks[r.value].subject == s
    ensures r.None? ==> forall t :: 0 <= t < n ==> tasks[t].subject != s
  {
    if n == 0 then None
    else if tasks[n - 1].subject == s then Some(n - 1)
    else TaskBelow(tasks, s, n - 1)
  }

  function TaskFor(tasks: seq<Task>, s: Subject): (r: Option<nat>)
    ensures r.Some? ==> r.value < |tasks| && tasks[r.value].subject == s
    ensures r.None? ==> forall t :: 0 <= t < |tasks| ==> tasks[t].subject != s
  {
    TaskBelow(tasks, s, |tasks|)
  }

  function AddDependencies(tasks: seq<Task>, t: nat, deps: set<nat>): seq<Task>
    requires t < |tasks|
  {
    tasks[t := tasks[t].(deps := tasks[t].deps + deps)]
  }

  function Capture(plan: Plan): Subject {
    CaptureOf(plan.booking, plan.task)
  }

  function RemovalSubject(plan: Plan, j: nat): Subject
    requires j < |plan.removals|
  {
    InstructionOf(plan.removals[j].uuid)
  }

  function ApplySubject(plan: Plan, k: nat): Subject
    requires k < |plan.applies|
  {
    InstructionOf(plan.applies[k].instr.uuid)
  }

  ghost predicate Own(plan: Plan, s: Subject) {
    || s == Capture(plan)
    || (exists j :: 0 <= j < |plan.removals| && s == RemovalSubject(plan, j))
    || (exists k :: 0 <= k < |plan.applies| && s == ApplySubject(plan, k))
  }

  /** One removal per source, one identifier per instruction, applies in chain order, every overlap removed. */
  ghost predicate PlanOk(plan: Plan) {
    && (forall i, j :: 0 <= i < j < |plan.removals| ==>
                         plan.removals[i].uuid != plan.removals[j].uuid
                             && plan.removals[i].source != plan.removals[j].source)
    && (forall j :: 0 <= j < |plan.removals| ==> plan.removals[j].source.Some?)
    && (forall i, k :: 0 <= i < k < |plan.applies| ==>
                         && plan.applies[i].instr.uuid != plan.applies[k].instr.uuid
                         && plan.applies[i].position < plan.applies[k].position)
    && (forall j, k :: 0 <= j < |plan.removals| && 0 <= k < |plan.applies| ==>
                         plan.removals[j].uuid != plan.applies[k].instr.uuid)
    && (forall k, s :: 0 <= k < |plan.applies| && s in plan.applies[k].overlaps ==> HasSource(plan.removals, s))
  }

  /** Some removal has source `s`. */
  ghost predicate HasSource(removals: seq<Instruction>, s: nat) {
    exists j :: 0 <= j < |removals| && removals[j].source == Some(s)
  }

  // ----- the dependency edges -----

  ghost function CaptureTasks(plan: Plan, tasks: seq<Task>): set<nat> {
    if TaskFor(tasks, Capture(plan)).Some? then {TaskFor(tasks, Capture(plan)).value} else {}
  }

  /** The removal tasks of the sources that apply `k` overlaps. */
  ghost function OverlapTasks(plan: Plan, tasks: seq<Task>, k: nat): set<nat>
    requires k < |plan.applies|
  {
    set j | 0 <= j < |plan.removals| && plan.removals[j].source.Some?
            && plan.removals[j].source.value in plan.applies[k].overlaps
            && TaskFor(tasks, RemovalSubject(plan, j)).Some?
         :: TaskFor(tasks, RemovalSubject(plan, j)).value
  }

  ghost function PreviousTask(plan: Plan, tasks: seq<Task>, k: nat): set<nat>
    requires k < |plan.applies|
  {
    if k > 0 && TaskFor(tasks, ApplySubject(plan, k - 1)).Some? then {TaskFor(tasks, ApplySubject(plan, k - 1)).value}
        else {}
  }

  ghost function ApplyDeps(plan: Plan, tasks: seq<Task>, k: nat): set<nat>
    requires k < |plan.applies|
  {
    CaptureTasks(plan, tasks) + OverlapTasks(plan, tasks, k) + PreviousTask(plan, tasks, k)
  }

  // ----- tables that hold each row and each task once -----

  ghost predicate UuidsDistinct(rows: seq<Row>) {
    forall i, j :: 0 <= i < j < |rows| ==> rows[i].instr.uuid != rows[j].instr.uuid
  }

  ghost predicate OwnTasksUnique(plan: Plan, tasks: seq<Task>) {
    forall s, t :: 0 <= s < t < |tasks| && Own(plan, tasks[s].subject) ==> tasks[s].subject != tasks[t].subject
  }

  /** An instruction's task carries the id of the row recorded for it. */
  ghost predicate TasksMatchRows(plan: Plan, rows: seq<Row>, tasks: seq<Task>) {
    forall t :: 0 <= t < |tasks| && Own(plan, tasks[t].subject) && tasks[t].subject.InstructionOf? ==>
                  tasks[t].instructionId < |rows| && rows[tasks[t].instructionId].instr.uuid == tasks[t].subject.uuid
  }

  ghost predicate TablesOk(plan: Plan, rows: seq<Row>, tasks: seq<Task>) {
    UuidsDistinct(rows) && OwnTasksUnique(plan, tasks) && TasksMatchRows(plan, rows, tasks)
  }

  ghost predicate Recorded(rows: seq<Row>, u: Uuid) {
    FindByUuid(rows, u, |rows|).Some?
  }

  ghost predicate RemovalDone(plan: Plan, tasks: seq<Task>, j: nat)
    requires j < |plan.removals|
  {
    var t := TaskFor(tasks, RemovalSubject(plan, j));
    t.Some? && tasks[t.value].deps == CaptureTasks(plan, tasks)
  }

  ghost predicate ApplyDone(plan: Plan, tasks: seq<Task>, k: nat)
    requires k < |plan.applies|
  {
    var t := TaskFor(tasks, ApplySubject(plan, k));
    t.Some? && tasks[t.value].deps == ApplyDeps(plan, tasks, k)
  }

  /**
   Everything the plan asks for is there exactly once: one row and one task per instruction, one
   capture task, and on every task exactly the dependencies the plan prescribes.
   */
  ghost predicate Delivered(plan: Plan, rows: seq<Row>, tasks: seq<Task>) {
    && TablesOk(plan, rows, tasks)
    && TaskFor(tasks, Capture(plan)).Some?
    && tasks[TaskFor(tasks, Capture(plan)).value].deps == {}
    && (forall j :: 0 <= j < |plan.removals| ==> Recorded(rows, plan.removals[j].uuid) && RemovalDone(plan, tasks, j))
    && (forall k :: 0 <= k < |plan.applies| ==> Recorded(rows, plan.applies[k].instr.uuid) && ApplyDone(plan, tasks, k))
  }

  // ----- execution orders -----

  /** `order` runs some of the queue's tasks, each once and after all it depends on. */
  ghost predicate ExecutionOrder(tasks: seq<Task>, order: seq<nat>) {
    && (forall i :: 0 <= i < |order| ==> order[i] < |tasks|)
    && (forall i, j :: 0 <= i < j < |order| ==> order[i] != order[j])
    && (forall i, d :: 0 <= i < |order| && d in tasks[order[i]].deps ==> exists j :: 0 <= j < i && order[j] == d)
  }

  /** `order` runs `a` before `b`. */
  ghost predicate Before(order: seq<nat>, a: nat, b: nat) {
    exists i, j :: 0 <= i < j < |order| && order[i] == a && order[j] == b
  }

  lemma BeforeIsIn(order: seq<nat>, a: nat, b: nat)
    requires Before(order, a, b)
    ensures a in order && b in order
  {
  }

  lemma DependencyRunsFirst(tasks: seq<Task>, order: seq<nat>, t: nat, d: nat)
    requires ExecutionOrder(tasks, order) && t < |tasks| && t in order && d in tasks[t].deps
    ensures Before(order, d, t)
  {
    var i :| 0 <= i < |order| && order[i] == t;
    var j :| 0 <= j < i && order[j] == d;
  }

  lemma BeforeTransitive(tasks: seq<Task>, order: seq<nat>, a: nat, b: nat, c: nat)
    requires ExecutionOrder(tasks, order) && Before(order, a, b) && Before(order, b, c)
    ensures Before(order, a, c)
  {
    var i, j :| 0 <= i < j < |order| && order[i] == a && order[j] == b;
    var j', k :| 0 <= j' < k < |order| && order[j'] == b && order[k] == c;
    assert j == j';
  }

  /** Each of these tasks, if it runs, runs after the one before it. */
  ghost predicate OneByOne(order: seq<nat>, ids: seq<nat>) {
    forall m {:trigger ids[m]} :: 0 < m < |ids| && ids[m] in order ==> Before(order, ids[m - 1], ids[m])
  }

  lemma {:induction false} RunOneByOne(tasks: seq<Task>, order: seq<nat>, ids: seq<nat>, i: nat, k: nat)
    requires ExecutionOrder(tasks, order) && OneByOne(order, ids)
    requires i < k < |ids| && ids[k] in order
    ensures Before(order, ids[i], ids[k])
    decreases k
  {
    if i == k - 1 {
    } else {
      BeforeIsIn(order, ids[k - 1], ids[k]);
      RunOneByOne(tasks, order, ids, i, k - 1);
      BeforeTransitive(tasks, order, ids[i], ids[k - 1], ids[k]);
    }
  }

  /** The base-rate capture precedes every other task of the generation. */
  lemma CaptureRunsFirst(plan: Plan, rows: seq<Row>, tasks: seq<Task>, order: seq<nat>, s: Subject)
    requires Delivered(plan, rows, tasks) && ExecutionOrder(tasks, order)
    requires Own(plan, s) && s != Capture(plan)
    requires TaskFor(tasks, s).Some? && TaskFor(tasks, s).value in order
    ensures Before(order, TaskFor(tasks, Capture(plan)).value, TaskFor(tasks, s).value)
  {
    DependencyRunsFirst(tasks, order, TaskFor(tasks, s).value, TaskFor(tasks, Capture(plan)).value);
  }

  /** A source is trimmed before any apply that overlapped it goes out. */
  lemma RemovalRunsBeforeApply(plan: Plan, rows: seq<Row>, tasks: seq<Task>, order: seq<nat>, s: nat, k: nat)
    requires PlanOk(plan) && Delivered(plan, rows, tasks) && ExecutionOrder(tasks, order)
    requires k < |plan.applies| && s in plan.applies[k].overlaps
    requires TaskFor(tasks, ApplySubject(plan, k)).value in order
    ensures exists j :: 0 <= j < |plan.removals| && plan.removals[j].source == Some(s)
                        && Before(order, TaskFor(tasks, RemovalSubject(plan, j)).value,
                            TaskFor(tasks, ApplySubject(plan, k)).value)
  {
    assert HasSource(plan.removals, s);
    var j :| 0 <= j < |plan.removals| && plan.removals[j].source == Some(s);
    assert RemovalDone(plan, tasks, j) && ApplyDone(plan, tasks, k);
    var removal := TaskFor(tasks, RemovalSubject(plan, j)).value;
    assert removal in OverlapTasks(plan, tasks, k);
    DependencyRunsFirst(tasks, order, TaskFor(tasks, ApplySubject(plan, k)).value, removal);
  }

  /** The tasks of the applies, by position. */
  ghost function ApplyTasks(plan: Plan, tasks: seq<Task>): (ids: seq<nat>)
    requires forall k :: 0 <= k < |plan.applies| ==> TaskFor(tasks, ApplySubject(plan, k)).Some?
    ensures |ids| == |plan.applies|
    ensures forall k :: 0 <= k < |ids| ==> ids[k] == TaskFor(tasks, ApplySubject(plan, k)).value
  {
    seq(|plan.applies|, k requires 0 <= k < |plan.applies| => TaskFor(tasks, ApplySubject(plan, k)).value)
  }

  lemma PreviousApplyRunsFirst(plan: Plan, rows: seq<Row>, tasks: seq<Task>, order: seq<nat>, k: nat)
    requires Delivered(plan, rows, tasks) && ExecutionOrder(tasks, order)
    requires 0 < k < |plan.applies| && TaskFor(tasks, ApplySubject(plan, k)).value in order
    ensures Before(order, TaskFor(tasks, ApplySubject(plan, k - 1)).value, TaskFor(tasks, ApplySubject(plan, k)).value)
  {
    assert ApplyDone(plan, tasks, k) && ApplyDone(plan, tasks, k - 1);
    var previous, last := TaskFor(tasks, ApplySubject(plan, k - 1)).value, TaskFor(tasks, ApplySubject(plan, k)).value;
    DependencyRunsFirst(tasks, order, last, previous);
  }

  /** Applies run in strictly increasing chain position. */
  lemma AppliesRunInChainOrder(
    plan: Plan, rows: seq<Row>, tasks: seq<Task>, order: seq<nat>, i: nat, k: nat)
    requires Delivered(plan, rows, tasks) && ExecutionOrder(tasks, order)
    requires i < k < |plan.applies|
    requires TaskFor(tasks, ApplySubject(plan, k)).value in order
    ensures Before(order, TaskFor(tasks, ApplySubject(plan, i)).value, TaskFor(tasks, ApplySubject(plan, k)).value)
  {
    forall m | 0 <= m < |plan.applies| ensures TaskFor(tasks, ApplySubject(plan, m)).Some? {
      assert ApplyDone(plan, tasks, m);
    }
    var ids := ApplyTasks(plan, tasks);
    forall m | 0 < m < |ids| && ids[m] in order ensures Before(order, ids[m - 1], ids[m]) {
      PreviousApplyRunsFirst(plan, rows, tasks, order, m);
    }
    RunOneByOne(tasks, order, ids, i, k);
  }

  /** Where a subject stands in the plan: capture, then removals, then applies by position. */
  ghost predicate HasRank(plan: Plan, s: Subject, r: nat) {
    || (r == 0 && s == Capture(plan))
    || (r == 1 && exists j :: 0 <= j < |plan.removals| && s == RemovalSubject(plan, j))
    || (2 <= r < |plan.applies| + 2 && s == ApplySubject(plan, r - 2))
  }

  lemma RankIsUnique(plan: Plan, s: Subject, r: nat, q: nat)
    requires PlanOk(plan) && HasRank(plan, s, r) && HasRank(plan, s, q)
    ensures r == q
  {
  }

  lemma OwnTaskIsTheTask(plan: Plan, tasks: seq<Task>, t: nat)
    requires OwnTasksUnique(plan, tasks) && t < |tasks| && Own(plan, tasks[t].subject)
    ensures TaskFor(tasks, tasks[t].subject) == Some(t)
  {
  }

  /** What task `d` is to apply `k`: the capture, a removal of an overlapped source, or the apply before it. */
  ghost predicate AwaitedBy(plan: Plan, s: Subject, k: nat)
    requires k < |plan.applies|
  {
    || s == CaptureOf(plan.booking, plan.task)
    || (exists j :: 0 <= j < |plan.removals| && s == InstructionOf(plan.removals[j].uuid)
                    && exists i :: 0 <= i < |plan.applies[k].overlaps|
                                   && plan.removals[j].source == Some(plan.applies[k].overlaps[i]))
    || (k > 0 && s == InstructionOf(plan.applies[k - 1].instr.uuid))
  }

  lemma OverlapTaskMeans(plan: Plan, tasks: seq<Task>, k: nat, d: nat)
    requires k < |plan.applies| && d < |tasks| && OwnTasksUnique(plan, tasks)
    ensures d in OverlapTasks(plan, tasks, k) <==>
            exists j :: 0 <= j < |plan.removals| && tasks[d].subject == InstructionOf(plan.removals[j].uuid)
                        && exists i :: 0 <= i < |plan.applies[k].overlaps|
                                       && plan.removals[j].source == Some(plan.applies[k].overlaps[i])
  {
    if j, i :| 0 <= j < |plan.removals| && tasks[d].subject == InstructionOf(plan.removals[j].uuid)
               && 0 <= i < |plan.applies[k].overlaps| && plan.removals[j].source == Some(plan.applies[k].overlaps[i]) {
      assert tasks[d].subject == RemovalSubject(plan, j);
      OwnTaskIsTheTask(plan, tasks, d);
      assert plan.removals[j].source.value in plan.applies[k].overlaps;
    }
    if d in OverlapTasks(plan, tasks, k) {
      var j :| 0 <= j < |plan.removals| && plan.removals[j].source.Some?
               && plan.removals[j].source.value in plan.applies[k].overlaps
               && TaskFor(tasks, RemovalSubject(plan, j)) == Some(d);
      var i :| 0 <= i < |plan.applies[k].overlaps| && plan.applies[k].overlaps[i] == plan.removals[j].source.value;
      assert plan.removals[j].source == Some(plan.applies[k].overlaps[i]);
    }
  }

  /** An apply's task waits for the tasks of exactly those. */
  lemma ApplyWaitsFor(plan: Plan, rows: seq<Row>, tasks: seq<Task>, k: nat, d: nat)
    requires Delivered(plan, rows, tasks) && k < |plan.applies| && d < |tasks|
    ensures TaskFor(tasks, ApplySubject(plan, k)).Some?
    ensures d in tasks[TaskFor(tasks, ApplySubject(plan, k)).value].deps <==> AwaitedBy(plan, tasks[d].subject, k)
  {
    assert ApplyDone(plan, tasks, k);
    OverlapTaskMeans(plan, tasks, k, d);
    if tasks[d].subject == Capture(plan) || (k > 0 && tasks[d].subject == ApplySubject(plan, k - 1)) {
      OwnTaskIsTheTask(plan, tasks, d);
    }
  }

  /** A removal's task waits for the capture alone. */
  lemma RemovalWaitsFor(plan: Plan, rows: seq<Row>, tasks: seq<Task>, j: nat, d: nat)
    requires Delivered(plan, rows, tasks) && j < |plan.removals| && d < |tasks|
    ensures TaskFor(tasks, RemovalSubject(plan, j)).Some?
    ensures d in tasks[TaskFor(tasks, RemovalSubject(plan, j)).value].deps <==>
            tasks[d].subject == CaptureOf(plan.booking, plan.task)
  {
    assert RemovalDone(plan, tasks, j);
    if tasks[d].subject == Capture(plan) {
      OwnTaskIsTheTask(plan, tasks, d);
    }
  }

  lemma ApplyDependenciesLowerRank(plan: Plan, tasks: seq<Task>, k: nat, d: nat) returns (q: nat)
    requires k < |plan.applies| && d in ApplyDeps(plan, tasks, k)
    ensures d < |tasks| && q < k + 2 && HasRank(plan, tasks[d].subject, q)
  {
    if d in CaptureTasks(plan, tasks) {
      q := 0;
    } else if d in OverlapTasks(plan, tasks, k) {
      q := 1;
    } else {
      q := k + 1;
    }
  }

  lemma DependenciesByRank(plan: Plan, rows: seq<Row>, tasks: seq<Task>, t: nat, r: nat)
    requires Delivered(plan, rows, tasks)
    requires t < |tasks| && HasRank(plan, tasks[t].subject, r)
    ensures r == 0 ==> tasks[t].deps == {}
    ensures r == 1 ==> tasks[t].deps == CaptureTasks(plan, tasks)
    ensures r >= 2 ==> tasks[t].deps == ApplyDeps(plan, tasks, r - 2)
  {
    OwnTaskIsTheTask(plan, tasks, t);
    if r >= 2 {
      assert ApplyDone(plan, tasks, r - 2);
    } else if r == 1 {
      var j :| 0 <= j < |plan.removals| && tasks[t].subject == RemovalSubject(plan, j);
      assert RemovalDone(plan, tasks, j);
    }
  }

  /** The graph has no cycle: each dependency of an own task is an own task of strictly lower rank. */
  lemma DependenciesLowerRank(plan: Plan, rows: seq<Row>, tasks: seq<Task>, t: nat, r: nat, d: nat) returns (q: nat)
    requires Delivered(plan, rows, tasks)
    requires t < |tasks| && HasRank(plan, tasks[t].subject, r) && d in tasks[t].deps
    ensures d < |tasks| && q < r && HasRank(plan, tasks[d].subject, q)
  {
    DependenciesByRank(plan, rows, tasks, t, r);
    if r >= 2 {
      q := ApplyDependenciesLowerRank(plan, tasks, r - 2, d);
    } else {
      q := 0;
    }
  }

  // ----- queue updates -----

  lemma {:induction false} TaskBelowPrefix(tasks: seq<Task>, more: seq<Task>, s: Subject, n: nat)
    requires n <= |tasks| <= |more| && forall t :: 0 <= t < n ==> more[t].subject == tasks[t].subject
    ensures TaskBelow(tasks, s, n) == TaskBelow(more, s, n)
  {
    if n == 0 {
    } else {
      TaskBelowPrefix(tasks, more, s, n - 1);
    }
  }

  /** Appending tasks about other subjects does not change who works on `s`. */
  lemma {:induction false} TaskForPrefix(tasks: seq<Task>, more: seq<Task>, s: Subject, n: nat)
    requires |tasks| <= n <= |more| && forall t :: 0 <= t < |tasks| ==> more[t].subject == tasks[t].subject
    requires forall t :: |tasks| <= t < n ==> more[t].subject != s
    ensures TaskBelow(more, s, n) == TaskFor(tasks, s)
  {
    if n == |tasks| {
      TaskBelowPrefix(tasks, more, s, n);
    } else {
      TaskForPrefix(tasks, more, s, n - 1);
    }
  }

  /** `more` extends `tasks`: old tasks keep their subject and row id. */
  ghost predicate Extends(tasks: seq<Task>, more: seq<Task>) {
    && |tasks| <= |more|
    && forall t :: 0 <= t < |tasks| ==>
                     more[t].subject == tasks[t].subject && more[t].instructionId == tasks[t].instructionId
  }

  lemma ExtendsKeepsTaskFor(tasks: seq<Task>, more: seq<Task>, s: Subject)
    requires Extends(tasks, more) && forall t :: |tasks| <= t < |more| ==> more[t].subject != s
    ensures TaskFor(more, s) == TaskFor(tasks, s)
  {
    TaskForPrefix(tasks, more, s, |more|);
  }

  lemma AppendTaskFor(tasks: seq<Task>, x: Task, s: Subject)
    ensures TaskFor(tasks + [x], s) == if s == x.subject then Some(|tasks|) else TaskFor(tasks, s)
  {
    if s != x.subject {
      ExtendsKeepsTaskFor(tasks, tasks + [x], s);
    }
  }

  /** The prescribed dependencies depend only on which task works on which subject. */
  lemma SameApplyDeps(plan: Plan, tasks: seq<Task>, more: seq<Task>, k: nat)
    requires k < |plan.applies|
    requires TaskFor(more, Capture(plan)) == TaskFor(tasks, Capture(plan))
    requires forall j :: 0 <= j < |plan.removals| ==>
             TaskFor(more, RemovalSubject(plan, j)) == TaskFor(tasks, RemovalSubject(plan, j))
    requires k > 0 ==> TaskFor(more, ApplySubject(plan, k - 1)) == TaskFor(tasks, ApplySubject(plan, k - 1))
    ensures ApplyDeps(plan, more, k) == ApplyDeps(plan, tasks, k)
  {
    assert OverlapTasks(plan, more, k) == OverlapTasks(plan, tasks, k);
  }
}
