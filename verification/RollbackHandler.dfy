/** The checkpointed step that turns a rollback plan into removal rows and one chain of external tasks. */
module RollbackHandler {
  import opened Collections
  import opened BookingRules
  import opened DispatchPlan
  import opened DispatchHandler
  import opened ProtocolInvariant
  import opened ChainSaga
  import RuleTable

  function RollbackSubject(plan: seq<Instruction>, j: nat): Subject
    requires j < |plan|
  {
    InstructionOf(plan[j].uuid)
  }

  ghost predicate OwnRollback(plan: seq<Instruction>, s: Subject) {
    exists j :: 0 <= j < |plan| && s == RollbackSubject(plan, j)
  }

  ghost predicate RollbackUuidsDistinct(plan: seq<Instruction>) {
    forall i, j :: 0 <= i < j < |plan| ==> plan[i].uuid != plan[j].uuid
  }

  /** A rollback task waits for the rollback planned just before it. */
  ghost function RollbackDeps(plan: seq<Instruction>, tasks: seq<Task>, j: nat): set<nat>
    requires j < |plan|
  {
    if j > 0 && TaskFor(tasks, RollbackSubject(plan, j - 1)).Some?
    then {TaskFor(tasks, RollbackSubject(plan, j - 1)).value} else {}
  }

  ghost predicate RollbackDone(plan: seq<Instruction>, tasks: seq<Task>, j: nat)
    requires j < |plan|
  {
    var t := TaskFor(tasks, RollbackSubject(plan, j));
    t.Some? && tasks[t.value].deps == RollbackDeps(plan, tasks, j)
  }

  ghost predicate RollbackTablesOk(plan: seq<Instruction>, rows: seq<Row>, tasks: seq<Task>) {
    && UuidsDistinct(rows)
    && (forall s, t :: 0 <= s < t < |tasks| && OwnRollback(plan, tasks[s].subject) ==>
        tasks[s].subject != tasks[t].subject)
    && (forall t :: 0 <= t < |tasks| && OwnRollback(plan, tasks[t].subject) ==>
                      && tasks[t].instructionId < |rows|
                      && rows[tasks[t].instructionId].instr.uuid == tasks[t].subject.uuid)
  }

  /** One row and one task per rollback, chained in the planned order. */
  ghost predicate RollbacksDelivered(plan: seq<Instruction>, rows: seq<Row>, tasks: seq<Task>) {
    && RollbackTablesOk(plan, rows, tasks)
    && forall j :: 0 <= j < |plan| ==> Recorded(rows, plan[j].uuid) && RollbackDone(plan, tasks, j)
  }

  ghost predicate RollbackTaskOk(plan: seq<Instruction>, rows: seq<Row>, tasks: seq<Task>, j: nat)
    requires j < |plan|
  {
    var t := TaskFor(tasks, RollbackSubject(plan, j));
    t.Some? ==>
      && (j > 0 ==> TaskFor(tasks, RollbackSubject(plan, j - 1)).Some?)
      && tasks[t.value].deps <= RollbackDeps(plan, tasks, j)
  }

  ghost predicate RollbackProgress(plan: seq<Instruction>, rows: seq<Row>, tasks: seq<Task>, finished: bool) {
    && RollbackUuidsDistinct(plan)
    && RollbackTablesOk(plan, rows, tasks)
    && (forall j :: 0 <= j < |plan| ==> RollbackTaskOk(plan, rows, tasks, j))
    && (finished ==> RollbacksDelivered(plan, rows, tasks))
  }

  lemma {:induction false} RecordingKeepsRollbacks(
    plan: seq<Instruction>, rows: seq<Row>, tasks: seq<Task>, xs: seq<Instruction>)
    requires RollbackTablesOk(plan, rows, tasks)
    ensures RollbackTablesOk(plan, EnsureRows(rows, xs), tasks)
    decreases |xs|
  {
    if xs == [] {
    } else {
      RecordingKeepsRollbacks(plan, EnsureRow(rows, xs[0]), tasks, xs[1..]);
    }
  }

  lemma EnqueueRollback(plan: seq<Instruction>, rows: seq<Row>, tasks: seq<Task>, j: nat, id: nat)
    requires RollbackProgress(plan, rows, tasks, false) && j < |plan|
    requires TaskFor(tasks, RollbackSubject(plan, j)).None?
    requires j > 0 ==> TaskFor(tasks, RollbackSubject(plan, j - 1)).Some?
    requires id < |rows| && rows[id].instr.uuid == plan[j].uuid
    ensures var tasks' := tasks + [Task(RollbackSubject(plan, j), id, {})];
            && RollbackProgress(plan, rows, tasks', false)
            && (forall i :: 0 <= i < |plan| && i != j ==>
                              TaskFor(tasks', RollbackSubject(plan, i)) == TaskFor(tasks, RollbackSubject(plan, i)))
            && TaskFor(tasks', RollbackSubject(plan, j)) == Some(|tasks|)
            && forall i :: 0 <= i < j && RollbackDone(plan, tasks, i) ==> RollbackDone(plan, tasks', i)
  {
    var x := Task(RollbackSubject(plan, j), id, {});
    var tasks' := tasks + [x];
    forall i | 0 <= i < |plan|
      ensures TaskFor(tasks', RollbackSubject(plan, i)) ==
              if i == j then Some(|tasks|) else TaskFor(tasks, RollbackSubject(plan, i))
    {
      AppendTaskFor(tasks, x, RollbackSubject(plan, i));
    }
    forall i | 0 <= i < |plan|
      ensures RollbackTaskOk(plan, rows, tasks', i)
      ensures i < j && RollbackDone(plan, tasks, i) ==> RollbackDone(plan, tasks', i)
    {
      assert RollbackTaskOk(plan, rows, tasks, i);
    }
  }

  lemma ChainRollback(plan: seq<Instruction>, rows: seq<Row>, tasks: seq<Task>, j: nat)
    requires RollbackProgress(plan, rows, tasks, false) && j < |plan|
    requires TaskFor(tasks, RollbackSubject(plan, j)).Some?
    ensures var tasks' := AddDependencies(tasks, TaskFor(tasks, RollbackSubject(plan, j)).value,
            RollbackDeps(plan, tasks, j));
            && RollbackProgress(plan, rows, tasks', false)
            && (forall s :: TaskFor(tasks', s) == TaskFor(tasks, s))
            && RollbackDone(plan, tasks', j)
            && forall i :: 0 <= i < |plan| && RollbackDone(plan, tasks, i) ==> RollbackDone(plan, tasks', i)
  {
    var t := TaskFor(tasks, RollbackSubject(plan, j)).value;
    var tasks' := AddDependencies(tasks, t, RollbackDeps(plan, tasks, j));
    AddDependenciesSameTasks(Plan(0, 0, [], []), tasks, t, RollbackDeps(plan, tasks, j));
    assert RollbackTaskOk(plan, rows, tasks, j);
    forall i | 0 <= i < |plan|
      ensures RollbackTaskOk(plan, rows, tasks', i)
      ensures RollbackDone(plan, tasks, i) ==> RollbackDone(plan, tasks', i)
    {
      assert RollbackTaskOk(plan, rows, tasks, i);
    }
  }

  // ----- what the step leaves alone, and what may happen around it -----

  ghost predicate OwnRollbackTasksOnly(plan: seq<Instruction>, tasks: seq<Task>, tasks': seq<Task>) {
    && Extends(tasks, tasks')
    && (forall t :: 0 <= t < |tasks| && !OwnRollback(plan, tasks[t].subject) ==> tasks'[t] == tasks[t])
    && (forall t :: |tasks| <= t < |tasks'| ==> OwnRollback(plan, tasks'[t].subject))
  }

  ghost predicate PlannedRowsOnly(plan: seq<Instruction>, rows: seq<Row>, rows': seq<Row>) {
    && |rows| <= |rows'|
    && (forall i :: 0 <= i < |rows| ==> rows'[i] == rows[i])
    && (forall i :: |rows| <= i < |rows'| ==> rows'[i].status == Processing && rows'[i].instr in plan)
  }

  /** The step adds planned rows and own tasks, and changes no other row or task. */
  ghost predicate OnlyRollbacks(
    plan: seq<Instruction>, rows: seq<Row>, tasks: seq<Task>, rows': seq<Row>, tasks': seq<Task>)
  {
    PlannedRowsOnly(plan, rows, rows') && OwnRollbackTasksOnly(plan, tasks, tasks')
  }

  lemma OwnRollbackTasksTransitive(plan: seq<Instruction>, a: seq<Task>, b: seq<Task>, c: seq<Task>)
    requires OwnRollbackTasksOnly(plan, a, b) && OwnRollbackTasksOnly(plan, b, c)
    ensures OwnRollbackTasksOnly(plan, a, c)
  {
    forall t | |a| <= t < |c| ensures OwnRollback(plan, c[t].subject) {
      assert t < |b| ==> c[t].subject == b[t].subject;
    }
  }

  lemma PlannedRowsTransitive(plan: seq<Instruction>, a: seq<Row>, b: seq<Row>, c: seq<Row>)
    requires PlannedRowsOnly(plan, a, b) && PlannedRowsOnly(plan, b, c)
    ensures PlannedRowsOnly(plan, a, c)
  {
    forall i | |a| <= i < |c| ensures c[i].status == Processing && c[i].instr in plan {
      assert i < |b| ==> c[i] == b[i];
    }
  }

  lemma {:induction false} RecordingAddsPlannedRows(plan: seq<Instruction>, rows: seq<Row>, xs: seq<Instruction>)
    requires forall x :: x in xs ==> x in plan
    ensures PlannedRowsOnly(plan, rows, EnsureRows(rows, xs))
    decreases |xs|
  {
    if xs == [] {
    } else {
      RecordingAddsPlannedRows(plan, EnsureRow(rows, xs[0]), xs[1..]);
      PlannedRowsTransitive(plan, rows, EnsureRow(rows, xs[0]), EnsureRows(rows, xs));
    }
  }

  /** What other tasks and callbacks may do to the tables between two attempts. */
  ghost predicate Around(
    plan: seq<Instruction>, rows: seq<Row>, tasks: seq<Task>, rows': seq<Row>, tasks': seq<Task>)
  {
    && |rows| <= |rows'| && UuidsDistinct(rows')
    && (forall i :: 0 <= i < |rows| ==> rows'[i].instr.uuid == rows[i].instr.uuid)
    && Extends(tasks, tasks')
    && (forall t :: 0 <= t < |tasks| && OwnRollback(plan, tasks[t].subject) ==> tasks'[t] == tasks[t])
    && (forall t :: |tasks| <= t < |tasks'| ==> !OwnRollback(plan, tasks'[t].subject))
  }

  lemma AroundKeepsTask(
    plan: seq<Instruction>, rows: seq<Row>, tasks: seq<Task>, rows': seq<Row>, tasks': seq<Task>, j: nat)
    requires Around(plan, rows, tasks, rows', tasks') && j < |plan|
    ensures var t := TaskFor(tasks, RollbackSubject(plan, j));
            TaskFor(tasks', RollbackSubject(plan, j)) == t && (t.Some? ==> tasks'[t.value] == tasks[t.value])
  {
    assert OwnRollback(plan, RollbackSubject(plan, j));
    ExtendsKeepsTaskFor(tasks, tasks', RollbackSubject(plan, j));
  }

  lemma StillRecorded(rows: seq<Row>, rows': seq<Row>, u: Uuid)
    requires |rows| <= |rows'| && forall i :: 0 <= i < |rows| ==> rows'[i].instr.uuid == rows[i].instr.uuid
    requires Recorded(rows, u)
    ensures Recorded(rows', u)
  {
    var i := FindByUuid(rows, u, |rows|).value;
    assert rows'[i].instr.uuid == u;
  }

  lemma AroundKeepsRollback(
    plan: seq<Instruction>, rows: seq<Row>, tasks: seq<Task>, rows': seq<Row>, tasks': seq<Task>, j: nat)
    requires Around(plan, rows, tasks, rows', tasks') && j < |plan| && RollbackTaskOk(plan, rows, tasks, j)
    ensures RollbackTaskOk(plan, rows', tasks', j)
    ensures RollbackDone(plan, tasks, j) ==> RollbackDone(plan, tasks', j)
    ensures Recorded(rows, plan[j].uuid) ==> Recorded(rows', plan[j].uuid)
  {
    AroundKeepsTask(plan, rows, tasks, rows', tasks', j);
    if j > 0 {
      AroundKeepsTask(plan, rows, tasks, rows', tasks', j - 1);
    }
    if Recorded(rows, plan[j].uuid) {
      StillRecorded(rows, rows', plan[j].uuid);
    }
  }

  /** Rows trimmed or added by others and tasks added by others leave the progress of the step intact. */
  lemma AroundKeepsProgress(
    plan: seq<Instruction>, rows: seq<Row>, tasks: seq<Task>, finished: bool, rows': seq<Row>, tasks': seq<Task>)
    requires RollbackProgress(plan, rows, tasks, finished) && Around(plan, rows, tasks, rows', tasks')
    ensures RollbackProgress(plan, rows', tasks', finished)
  {
    forall j | 0 <= j < |plan|
      ensures RollbackTaskOk(plan, rows', tasks', j)
      ensures RollbackDone(plan, tasks, j) ==> RollbackDone(plan, tasks', j)
      ensures Recorded(rows, plan[j].uuid) ==> Recorded(rows', plan[j].uuid)
    {
      assert RollbackTaskOk(plan, rows, tasks, j);
      AroundKeepsRollback(plan, rows, tasks, rows', tasks', j);
    }
  }

  // ----- the handler -----

  class Handler {
    const plan: seq<Instruction>
    const table: RuleTable.Table
    var tasks: seq<Task>
    var finished: bool

    ghost predicate Valid()
      reads this, table
    {
      RollbackProgress(plan, table.rows, tasks, finished)
    }

    /** The step right after `rollback_plan_prepared`; rows and tasks of the plan may exist already. */
    constructor (plan: seq<Instruction>, table: RuleTable.Table, tasks: seq<Task>)
      requires RollbackProgress(plan, table.rows, tasks, false)
      ensures Valid() && this.plan == plan && this.table == table && this.tasks == tasks && !finished
    {
      this.plan := plan;
      this.table := table;
      this.tasks := tasks;
      finished := false;
    }

    /** Anything other tasks and callbacks do between two attempts. */
    method Interleave(rows': seq<Row>, tasks': seq<Task>)
      requires Valid() && Around(plan, table.rows, tasks, rows', tasks')
      modifies this, table
      ensures Valid() && finished == old(finished) && table.rows == rows' && tasks == tasks'
    {
      AroundKeepsProgress(plan, table.rows, tasks, finished, rows', tasks');
      table.rows := rows';
      tasks := tasks';
    }

    method FindExternalTask(id: nat, uuid: Uuid) returns (t: Option<nat>)
      requires RollbackTablesOk(plan, table.rows, tasks) && OwnRollback(plan, InstructionOf(uuid))
      requires id < |table.rows| && table.rows[id].instr.uuid == uuid
      ensures t == TaskFor(tasks, InstructionOf(uuid))
    {
      var n := |tasks|;
      while n > 0
        invariant 0 <= n <= |tasks| && TaskFor(tasks, InstructionOf(uuid)) == TaskBelow(tasks, InstructionOf(uuid), n)
      {
        n := n - 1;
        if tasks[n].subject == InstructionOf(uuid) && tasks[n].instructionId == id {
          return Some(n);
        }
      }
      t := None;
    }

    /** One rollback record: find or enqueue its task, then make it wait for the previous rollback. */
    method EnqueueOne(j: nat, id: nat, previous: Option<nat>, budget: nat) returns (ok: bool, left: nat, t: nat)
      requires Valid() && !finished && j < |plan|
      requires id < |table.rows| && table.rows[id].instr.uuid == plan[j].uuid
      requires previous == if j == 0 then None else TaskFor(tasks, RollbackSubject(plan, j - 1))
      requires j > 0 ==> previous.Some?
      modifies this`tasks
      ensures Valid() && left <= budget && (budget >= 2 ==> ok && left + 2 >= budget)
      ensures forall i :: 0 <= i < j && RollbackDone(plan, old(tasks), i) ==> RollbackDone(plan, tasks, i)
      ensures ok ==> RollbackDone(plan, tasks, j) && TaskFor(tasks, RollbackSubject(plan, j)) == Some(t)
      ensures OwnRollbackTasksOnly(plan, old(tasks), tasks)
    {
      ok, left, t := false, budget, 0;
      assert OwnRollback(plan, RollbackSubject(plan, j));
      var found := FindExternalTask(id, plan[j].uuid);
      if found.None? {
        if left == 0 { return; }
        left := left - 1;
        EnqueueRollback(plan, table.rows, tasks, j, id);
        found := Some(|tasks|);
        tasks := tasks + [Task(InstructionOf(plan[j].uuid), id, {})];
      }
      t := found.value;
      ChainRollback(plan, table.rows, tasks, j);
      if previous.Some? {
        if left == 0 { return; }
        left := left - 1;
        tasks := AddDependencies(tasks, t, {previous.value});
      } else {
        assert tasks[t].deps + {} == tasks[t].deps;
        assert AddDependencies(tasks, t, {}) == tasks;
      }
      ok := true;
    }

    /** The recording transaction. */
    method RecordRows() returns (ids: seq<nat>)
      requires Valid() && !finished
      modifies table
      ensures Valid() && |ids| == |plan|
      ensures table.rows == EnsureRows(old(table.rows), plan)
      ensures PlannedRowsOnly(plan, old(table.rows), table.rows)
      ensures forall i :: 0 <= i < |plan| ==> ids[i] < |table.rows| && table.rows[ids[i]].instr.uuid == plan[i].uuid
    {
      RecordingKeepsRollbacks(plan, table.rows, tasks, plan);
      RecordingAddsPlannedRows(plan, table.rows, plan);
      ghost var rows0 := table.rows;
      ids := table.RecordInstructions(plan);
      forall j | 0 <= j < |plan| ensures RollbackTaskOk(plan, table.rows, tasks, j) {
        assert RollbackTaskOk(plan, rows0, tasks, j);
      }
    }

    /** The loop over the records, from the first one at every attempt. */
    method EnqueueAll(ids: seq<nat>, budget: nat) returns (ok: bool, left: nat)
      requires Valid() && !finished && |ids| == |plan|
      requires forall i :: 0 <= i < |plan| ==> ids[i] < |table.rows| && table.rows[ids[i]].instr.uuid == plan[i].uuid
      modifies this`tasks
      ensures Valid() && left <= budget && (budget >= 2 * |plan| ==> ok && left + 2 * |plan| >= budget)
      ensures ok ==> forall j :: 0 <= j < |plan| ==> RollbackDone(plan, tasks, j)
      ensures OwnRollbackTasksOnly(plan, old(tasks), tasks)
    {
      ok, left := false, budget;
      var previous: Option<nat> := None;
      for j := 0 to |plan|
        invariant Valid() && !finished
        invariant left <= budget && (budget >= 2 * |plan| ==> left + 2 * j >= budget)
        invariant forall i :: 0 <= i < j ==> RollbackDone(plan, tasks, i)
        invariant previous == if j == 0 then None else TaskFor(tasks, RollbackSubject(plan, j - 1))
        invariant j > 0 ==> previous.Some?
        invariant OwnRollbackTasksOnly(plan, old(tasks), tasks)
      {
        ghost var before := tasks;
        var done, rest, t := EnqueueOne(j, ids[j], previous, left);
        OwnRollbackTasksTransitive(plan, old(tasks), before, tasks);
        left := rest;
        if !done { return; }
        previous := Some(t);
      }
      ok := true;
    }

    /** One attempt at `rollback_tasks_enqueued` that crashes after `budget` effects, or finishes. */
    method Attempt(budget: nat) returns (done: bool)
      requires Valid()
      modifies this, table
      ensures Valid()
      ensures done ==> finished && RollbacksDelivered(plan, table.rows, tasks)
      ensures budget >= 2 + 2 * |plan| ==> done
      ensures OnlyRollbacks(plan, old(table.rows), old(tasks), table.rows, tasks)
      ensures table.rows == old(table.rows) || (!old(finished) && table.rows == EnsureRows(old(table.rows), plan))
    {
      done := false;
      if !finished {
        if budget == 0 { return; }
        var ids := RecordRows();
        var ok, left := EnqueueAll(ids, budget - 1);
        if !ok || left == 0 { return; }
        forall j | 0 <= j < |plan| ensures Recorded(table.rows, plan[j].uuid) {
          assert table.rows[ids[j]].instr.uuid == plan[j].uuid;
        }
        finished := true;
      }
      done := true;
    }

    /** However often the step crashes, an attempt left alone delivers each rollback exactly once. */
    method RunToCompletion(crashes: seq<nat>)
      requires Valid()
      modifies this, table
      ensures Valid() && RollbacksDelivered(plan, table.rows, tasks)
      ensures OnlyRollbacks(plan, old(table.rows), old(tasks), table.rows, tasks)
      ensures table.rows == EnsureRows(old(table.rows), plan)
    {
      for i := 0 to |crashes|
        invariant Valid() && OnlyRollbacks(plan, old(table.rows), old(tasks), table.rows, tasks)
        invariant table.rows == old(table.rows) || table.rows == EnsureRows(old(table.rows), plan)
      {
        ghost var rows, before := table.rows, tasks;
        var _ := Attempt(crashes[i]);
        PlannedRowsTransitive(plan, old(table.rows), rows, table.rows);
        OwnRollbackTasksTransitive(plan, old(tasks), before, tasks);
        EnsureRowsAgain(old(table.rows), plan);
      }
      ghost var rows, before := table.rows, tasks;
      var _ := Attempt(2 + 2 * |plan|);
      PlannedRowsTransitive(plan, old(table.rows), rows, table.rows);
      OwnRollbackTasksTransitive(plan, old(tasks), before, tasks);
      EnsureRowsAgain(old(table.rows), plan);
      DeliveredIsRecorded(plan, table.rows, tasks);
    }
  }

  /** Recording a delivered plan once more changes nothing. */
  lemma DeliveredIsRecorded(plan: seq<Instruction>, rows: seq<Row>, tasks: seq<Task>)
    requires RollbacksDelivered(plan, rows, tasks)
    ensures EnsureRows(rows, plan) == rows
  {
    forall x | x in plan ensures FindByUuid(rows, x.uuid, |rows|).Some? {
      var j :| 0 <= j < |plan| && plan[j] == x;
      assert Recorded(rows, plan[j].uuid);
    }
    EnsureKnownRows(rows, plan);
  }

  // ----- the order of rollbacks -----

  lemma PreviousRollbackRunsFirst(plan: seq<Instruction>, rows: seq<Row>, tasks: seq<Task>, order: seq<nat>, j: nat)
    requires RollbacksDelivered(plan, rows, tasks) && ExecutionOrder(tasks, order)
    requires 0 < j < |plan| && TaskFor(tasks, RollbackSubject(plan, j)).value in order
    ensures Before(order, TaskFor(tasks, RollbackSubject(plan, j - 1)).value,
            TaskFor(tasks, RollbackSubject(plan, j)).value)
  {
    assert RollbackDone(plan, tasks, j) && RollbackDone(plan, tasks, j - 1);
    var previous, last := TaskFor(tasks, RollbackSubject(plan, j - 1)).value,
        TaskFor(tasks, RollbackSubject(plan, j)).value;
    DependencyRunsFirst(tasks, order, last, previous);
  }

  /** The tasks of the rollbacks, in plan order. */
  ghost function RollbackTasks(plan: seq<Instruction>, tasks: seq<Task>): (ids: seq<nat>)
    requires forall j :: 0 <= j < |plan| ==> TaskFor(tasks, RollbackSubject(plan, j)).Some?
    ensures |ids| == |plan|
    ensures forall j :: 0 <= j < |ids| ==> ids[j] == TaskFor(tasks, RollbackSubject(plan, j)).value
  {
    seq(|plan|, j requires 0 <= j < |plan| => TaskFor(tasks, RollbackSubject(plan, j)).value)
  }

  /** Rollbacks run in the order they are planned in. */
  lemma RollbacksRunBackwards(
    plan: seq<Instruction>, rows: seq<Row>, tasks: seq<Task>, order: seq<nat>, i: nat, j: nat)
    requires RollbacksDelivered(plan, rows, tasks) && ExecutionOrder(tasks, order)
    requires i < j < |plan|
    requires TaskFor(tasks, RollbackSubject(plan, j)).value in order
    ensures Before(order, TaskFor(tasks, RollbackSubject(plan, i)).value,
            TaskFor(tasks, RollbackSubject(plan, j)).value)
  {
    forall m | 0 <= m < |plan| ensures TaskFor(tasks, RollbackSubject(plan, m)).Some? {
      assert RollbackDone(plan, tasks, m);
    }
    var ids := RollbackTasks(plan, tasks);
    forall m | 0 < m < |ids| && ids[m] in order ensures Before(order, ids[m - 1], ids[m]) {
      PreviousRollbackRunsFirst(plan, rows, tasks, order, m);
    }
    RunOneByOne(tasks, order, ids, i, j);
  }

  lemma {:induction false} ChainRowsOnce(rows: seq<Row>, booking: int, chainId: string, n: nat, x: Placed)
    requires n <= |rows|
    ensures multiset(ChainRowsBelow(rows, booking, chainId, n))[x] <= 1
  {
    if n == 0 {
    } else {
      ChainRowsOnce(rows, booking, chainId, n - 1, x);
      var earlier := ChainRowsBelow(rows, booking, chainId, n - 1);
      assert x.id == n - 1 ==> x !in earlier;
      assert x !in earlier ==> x !in multiset(earlier);
    }
  }

  lemma {:induction false} RollbackSourcesAtMost(rows: seq<Row>, placed: seq<Placed>, position: int, x: Placed)
    requires forall y :: y in placed ==> y.id < |rows|
    ensures multiset(RollbackSources(rows, placed, position))[x] <= multiset(placed)[x]
  {
    if placed == [] {
    } else {
      RollbackSourcesAtMost(rows, placed[1..], position, x);
      assert placed == [placed[0]] + placed[1..];
    }
  }

  lemma PlannedRowsDiffer(rows: seq<Row>, booking: int, chainId: string, position: int, i: nat, j: nat)
    requires i < j < |RollbackPlan(rows, booking, chainId, position)|
    ensures RollbackPlan(rows, booking, chainId, position)[i] != RollbackPlan(rows, booking, chainId, position)[j]
  {
    var plan := RollbackPlan(rows, booking, chainId, position);
    var found := ChainRowsBelow(rows, booking, chainId, |rows|);
    var ordered := SortBy(found, PositionLe);
    ChainRowsOnce(rows, booking, chainId, |rows|, plan[i]);
    RollbackSourcesAtMost(rows, ordered, position, plan[i]);
    OnceMeansDifferent(plan, i, j);
  }

  /** A rollback plan goes strictly down the chain. */
  lemma PlannedRollbacksDescend(rows: seq<Row>, c: Chain, position: int, i: nat, j: nat)
    requires ChainRows(rows, c)
    requires i < j < |RollbackPlan(rows, c.booking, c.chainId, position)|
    ensures RollbackPlan(rows, c.booking, c.chainId, position)[i].position >
            RollbackPlan(rows, c.booking, c.chainId, position)[j].position
  {
    var plan := RollbackPlan(rows, c.booking, c.chainId, position);
    var ordered := SortBy(ChainRowsBelow(rows, c.booking, c.chainId, |rows|), PositionLe);
    SortByIsSorted(RollbackSources(rows, ordered, position), PositionGe);
    PlannedRowsDiffer(rows, c.booking, c.chainId, position, i, j);
    PlannedPlace(rows, c, position, plan[i]);
    PlannedPlace(rows, c, position, plan[j]);
  }

  /** The deterministic identifiers of one rollback plan never collide. */
  lemma RollbackUuidsNeverCollide(rows: seq<Row>, booking: int, chainId: string, position: int)
    ensures RollbackUuidsDistinct(RollbackBlueprints(rows, booking, chainId, position))
  {
    var plan, blueprints := RollbackPlan(rows, booking, chainId, position),
        RollbackBlueprints(rows, booking, chainId, position);
    RollbackPlanMembers(rows, booking, chainId, position);
    forall i, j | 0 <= i < j < |blueprints| ensures blueprints[i].uuid != blueprints[j].uuid {
      PlannedRowsDiffer(rows, booking, chainId, position, i, j);
      assert plan[i] in plan && plan[j] in plan;
    }
  }

  /** Rollback tasks run from the last applied position down, one strictly lower position after the other. */
  lemma RollbacksRunDownTheChain(
    chainRows: seq<Row>, c: Chain, position: int, rows: seq<Row>, tasks: seq<Task>, order: seq<nat>, i: nat, j: nat)
    requires ChainRows(chainRows, c)
    requires var plan := RollbackBlueprints(chainRows, c.booking, c.chainId, position);
             && RollbacksDelivered(plan, rows, tasks) && ExecutionOrder(tasks, order)
             && i < |plan| && j < |plan|
             && RollbackPlan(chainRows, c.booking, c.chainId, position)[i].position >
                RollbackPlan(chainRows, c.booking, c.chainId, position)[j].position
             && TaskFor(tasks, RollbackSubject(plan, j)).value in order
    ensures var plan := RollbackBlueprints(chainRows, c.booking, c.chainId, position);
            Before(order, TaskFor(tasks, RollbackSubject(plan, i)).value,
                TaskFor(tasks, RollbackSubject(plan, j)).value)
  {
    if i > j {
      PlannedRollbacksDescend(chainRows, c, position, j, i);
      assert false;
    }
    RollbacksRunBackwards(RollbackBlueprints(chainRows, c.booking, c.chainId, position), rows, tasks, order, i, j);
  }

  /** A rollback's task waits for the task of the rollback planned just before it, and for nothing else. */
  lemma RollbackWaitsFor(plan: seq<Instruction>, rows: seq<Row>, tasks: seq<Task>, j: nat, d: nat)
    requires RollbacksDelivered(plan, rows, tasks) && j < |plan| && d < |tasks|
    ensures TaskFor(tasks, RollbackSubject(plan, j)).Some?
    ensures d in tasks[TaskFor(tasks, RollbackSubject(plan, j)).value].deps <==>
            j > 0 && tasks[d].subject == InstructionOf(plan[j - 1].uuid)
  {
    assert RollbackDone(plan, tasks, j);
    if j > 0 && tasks[d].subject == RollbackSubject(plan, j - 1) {
      assert TaskFor(tasks, tasks[d].subject) == Some(d);
    }
  }
}
