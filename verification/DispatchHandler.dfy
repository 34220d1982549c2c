/**
 The checkpointed handler that turns a prepared plan into rows and external tasks.  Every durable
 effect may be the last one before a crash; the next attempt starts from the durable state alone.
 */
module DispatchHandler {
  import opened Collections
  import opened BookingRules
  import opened DispatchPlan
  import opened QueueOrder
  import opened Resume
  import ProtocolInvariant
  import RuleTable

  datatype Record = Record(id: nat, uuid: Uuid, source: Option<nat>)

  /** The persisted action state: one checkpoint per step and the last processed instruction id. */
  datatype ActionState = ActionState(
    removalRecords: Option<seq<Record>>,
    applyRecords: Option<seq<Record>>,
    captureTask: Option<nat>,
    removalTasks: Option<map<nat, nat>>,
    applyTasks: Option<seq<nat>>,
    cursor: Option<nat>)

  const NOTHING_DONE := ActionState(None, None, None, None, None, None)

  function ApplyInstructions(applies: seq<Apply>): (r: seq<Instruction>)
    ensures |r| == |applies|
    ensures forall k :: 0 <= k < |r| ==> r[k] == applies[k].instr
  {
    seq(|applies|, k requires 0 <= k < |applies| => applies[k].instr)
  }

  // ----- what every reachable durable state satisfies -----

  /** Record `j` names the row of instruction `j` and its source. */
  ghost predicate RecordsOk(rows: seq<Row>, xs: seq<Instruction>, records: seq<Record>) {
    && |records| == |xs|
    && forall j :: 0 <= j < |xs| ==>
                     && records[j].uuid == xs[j].uuid && records[j].source == xs[j].source
                     && records[j].id < |rows| && rows[records[j].id].instr.uuid == xs[j].uuid
  }

  /** A row under a planned identifier is the planned instruction's row. */
  ghost predicate RowsGenuine(plan: Plan, rows: seq<Row>) {
    && (forall i, j :: 0 <= i < |rows| && 0 <= j < |plan.removals| && rows[i].instr.uuid == plan.removals[j].uuid ==>
                         rows[i].instr.source == plan.removals[j].source)
    && (forall i, k ::
          0 <= i < |rows| && 0 <= k < |plan.applies| && rows[i].instr.uuid == plan.applies[k].instr.uuid
          ==> rows[i].instr.source == plan.applies[k].instr.source)
  }

  ghost predicate CaptureStage(plan: Plan, tasks: seq<Task>, st: ActionState) {
    var c := TaskFor(tasks, Capture(plan));
    && (c.Some? ==> st.applyRecords.Some? && tasks[c.value].deps == {})
    && (st.captureTask.Some? ==> st.applyRecords.Some? && c == st.captureTask)
  }

  ghost predicate RemovalTaskOk(plan: Plan, tasks: seq<Task>, st: ActionState, j: nat)
    requires j < |plan.removals|
  {
    var t := TaskFor(tasks, RemovalSubject(plan, j));
    t.Some? ==> st.captureTask.Some? && tasks[t.value].deps <= CaptureTasks(plan, tasks)
  }

  ghost predicate ApplyTaskOk(plan: Plan, tasks: seq<Task>, st: ActionState, k: nat)
    requires k < |plan.applies|
  {
    var t := TaskFor(tasks, ApplySubject(plan, k));
    t.Some? ==>
      && st.removalTasks.Some?
      && (k > 0 ==> TaskFor(tasks, ApplySubject(plan, k - 1)).Some?)
      && tasks[t.value].deps <= ApplyDeps(plan, tasks, k)
  }

  ghost predicate TasksBySource(plan: Plan, tasks: seq<Task>, m: map<nat, nat>, n: nat)
    requires n <= |plan.removals|
  {
    && (forall j :: 0 <= j < n ==>
                      && plan.removals[j].source.Some?
                      && plan.removals[j].source.value in m
                      && TaskFor(tasks, RemovalSubject(plan, j)) == Some(m[plan.removals[j].source.value]))
    && (forall s :: s in m ==> exists j :: 0 <= j < n && plan.removals[j].source == Some(s))
  }

  ghost predicate RemovalStage(plan: Plan, tasks: seq<Task>, st: ActionState) {
    && (forall j :: 0 <= j < |plan.removals| ==> RemovalTaskOk(plan, tasks, st, j))
    && (st.removalTasks.Some? ==>
          && st.captureTask.Some?
          && TasksBySource(plan, tasks, st.removalTasks.value, |plan.removals|)
          && forall j :: 0 <= j < |plan.removals| ==> RemovalDone(plan, tasks, j))
    && (st.cursor.Some? ==>
          && st.captureTask.Some? && st.removalRecords.Some? && |st.removalRecords.value| == |plan.removals|
          && exists m :: 0 <= m < |plan.removals| && st.removalRecords.value[m].id == st.cursor.value
                         && forall j :: 0 <= j <= m ==> RemovalDone(plan, tasks, j))
  }

  ghost predicate ApplyStage(plan: Plan, tasks: seq<Task>, st: ActionState) {
    && (forall k :: 0 <= k < |plan.applies| ==> ApplyTaskOk(plan, tasks, st, k))
    && (st.applyTasks.Some? ==>
          && st.removalTasks.Some?
          && forall k :: 0 <= k < |plan.applies| ==> ApplyDone(plan, tasks, k))
  }

  ghost predicate Progress(plan: Plan, rows: seq<Row>, tasks: seq<Task>, st: ActionState) {
    && PlanOk(plan)
    && TablesOk(plan, rows, tasks)
    && RowsGenuine(plan, rows)
    && (st.removalRecords.Some? ==> RecordsOk(rows, plan.removals, st.removalRecords.value))
    && (st.applyRecords.Some? ==>
          && st.removalRecords.Some?
          && RecordsOk(rows, ApplyInstructions(plan.applies), st.applyRecords.value))
    && CaptureStage(plan, tasks, st)
    && RemovalStage(plan, tasks, st)
    && ApplyStage(plan, tasks, st)
  }

  lemma FinishedIsDelivered(plan: Plan, rows: seq<Row>, tasks: seq<Task>, st: ActionState)
    requires Progress(plan, rows, tasks, st) && st.applyTasks.Some?
    ensures Delivered(plan, rows, tasks)
  {
    forall j | 0 <= j < |plan.removals| ensures Recorded(rows, plan.removals[j].uuid) {
      assert rows[st.removalRecords.value[j].id].instr.uuid == plan.removals[j].uuid;
    }
    forall k | 0 <= k < |plan.applies| ensures Recorded(rows, plan.applies[k].instr.uuid) {
      assert rows[st.applyRecords.value[k].id].instr.uuid == ApplyInstructions(plan.applies)[k].uuid;
    }
  }

  // ----- queue updates -----

  lemma AppendKeepsTables(plan: Plan, rows: seq<Row>, tasks: seq<Task>, x: Task)
    requires TablesOk(plan, rows, tasks) && TaskFor(tasks, x.subject).None?
    requires x.subject.InstructionOf? ==> x.instructionId < |rows| && rows[x.instructionId].instr.uuid == x.subject.uuid
    ensures TablesOk(plan, rows, tasks + [x])
  {
  }

  lemma EnqueueCaptureKeepsProgress(plan: Plan, rows: seq<Row>, tasks: seq<Task>, st: ActionState)
    requires Progress(plan, rows, tasks, st) && st.applyRecords.Some? && TaskFor(tasks, Capture(plan)).None?
    ensures Progress(plan, rows, tasks + [Task(Capture(plan), 0, {})], st)
    ensures TaskFor(tasks + [Task(Capture(plan), 0, {})], Capture(plan)) == Some(|tasks|)
  {
    var x := Task(Capture(plan), 0, {});
    AppendKeepsTables(plan, rows, tasks, x);
    AppendTaskFor(tasks, x, Capture(plan));
    forall j | 0 <= j < |plan.removals| ensures RemovalTaskOk(plan, tasks + [x], st, j) {
      assert RemovalTaskOk(plan, tasks, st, j);
      AppendTaskFor(tasks, x, RemovalSubject(plan, j));
    }
    forall k | 0 <= k < |plan.applies| ensures ApplyTaskOk(plan, tasks + [x], st, k) {
      assert ApplyTaskOk(plan, tasks, st, k);
      AppendTaskFor(tasks, x, ApplySubject(plan, k));
    }
  }

  lemma EnqueueRemovalKeepsProgress(plan: Plan, rows: seq<Row>, tasks: seq<Task>, st: ActionState, j: nat)
    requires Progress(plan, rows, tasks, st) && st.captureTask.Some? && st.removalTasks.None?
    requires j < |plan.removals| && TaskFor(tasks, RemovalSubject(plan, j)).None?
    ensures var tasks' := tasks + [Task(RemovalSubject(plan, j), st.removalRecords.value[j].id, {})];
            && Progress(plan, rows, tasks', st)
            && TaskFor(tasks', RemovalSubject(plan, j)) == Some(|tasks|)
            && (forall i :: 0 <= i < |plan.removals| && i != j ==>
                              TaskFor(tasks', RemovalSubject(plan, i)) == TaskFor(tasks, RemovalSubject(plan, i)))
            && forall i :: 0 <= i < |plan.removals| && RemovalDone(plan, tasks, i) ==> RemovalDone(plan, tasks', i)
  {
    var x := Task(RemovalSubject(plan, j), st.removalRecords.value[j].id, {});
    AppendKeepsTables(plan, rows, tasks, x);
    AppendTaskFor(tasks, x, Capture(plan));
    AppendTaskFor(tasks, x, RemovalSubject(plan, j));
    forall i | 0 <= i < |plan.removals|
      ensures RemovalTaskOk(plan, tasks + [x], st, i)
      ensures RemovalDone(plan, tasks, i) ==> RemovalDone(plan, tasks + [x], i)
      ensures i != j ==> TaskFor(tasks + [x], RemovalSubject(plan, i)) == TaskFor(tasks, RemovalSubject(plan, i))
    {
      assert RemovalTaskOk(plan, tasks, st, i);
      AppendTaskFor(tasks, x, RemovalSubject(plan, i));
    }
    forall k | 0 <= k < |plan.applies| ensures ApplyTaskOk(plan, tasks + [x], st, k) {
      assert ApplyTaskOk(plan, tasks, st, k);
      AppendTaskFor(tasks, x, ApplySubject(plan, k));
    }
  }

  lemma EnqueueApplyKeepsProgress(plan: Plan, rows: seq<Row>, tasks: seq<Task>, st: ActionState, k: nat)
    requires Progress(plan, rows, tasks, st) && st.removalTasks.Some? && st.applyTasks.None?
    requires k < |plan.applies| && TaskFor(tasks, ApplySubject(plan, k)).None?
    requires k > 0 ==> TaskFor(tasks, ApplySubject(plan, k - 1)).Some?
    ensures var tasks' := tasks + [Task(ApplySubject(plan, k), st.applyRecords.value[k].id, {})];
            && Progress(plan, rows, tasks', st)
            && TaskFor(tasks', ApplySubject(plan, k)) == Some(|tasks|)
            && forall i :: 0 <= i < k && ApplyDone(plan, tasks, i) ==> ApplyDone(plan, tasks', i)
  {
    var x := Task(ApplySubject(plan, k), st.applyRecords.value[k].id, {});
    var tasks' := tasks + [x];
    assert rows[st.applyRecords.value[k].id].instr.uuid == ApplyInstructions(plan.applies)[k].uuid;
    AppendKeepsTables(plan, rows, tasks, x);
    AppendTaskFor(tasks, x, Capture(plan));
    forall j | 0 <= j < |plan.removals|
      ensures TaskFor(tasks', RemovalSubject(plan, j)) == TaskFor(tasks, RemovalSubject(plan, j))
    {
      AppendTaskFor(tasks, x, RemovalSubject(plan, j));
    }
    assert RemovalStage(plan, tasks', st) by {
      EnqueueApplyKeepsRemovals(plan, tasks, st, x);
    }
    forall i | 0 <= i < |plan.applies|
      ensures ApplyTaskOk(plan, tasks', st, i)
      ensures i < k && ApplyDone(plan, tasks, i) ==> ApplyDone(plan, tasks', i)
    {
      EnqueueApplyKeepsApply(plan, tasks, st, k, x, i);
    }
  }

  lemma EnqueueApplyKeepsRemovals(plan: Plan, tasks: seq<Task>, st: ActionState, x: Task)
    requires RemovalStage(plan, tasks, st)
    requires TaskFor(tasks + [x], Capture(plan)) == TaskFor(tasks, Capture(plan))
    requires forall j :: 0 <= j < |plan.removals| ==>
                           TaskFor(tasks + [x], RemovalSubject(plan, j)) == TaskFor(tasks, RemovalSubject(plan, j))
    ensures RemovalStage(plan, tasks + [x], st)
  {
    forall j | 0 <= j < |plan.removals|
      ensures RemovalTaskOk(plan, tasks + [x], st, j)
      ensures RemovalDone(plan, tasks, j) ==> RemovalDone(plan, tasks + [x], j)
    {
      assert RemovalTaskOk(plan, tasks, st, j);
    }
  }

  lemma EnqueueApplyKeepsApply(plan: Plan, tasks: seq<Task>, st: ActionState, k: nat, x: Task, i: nat)
    requires PlanOk(plan) && ApplyStage(plan, tasks, st) && st.removalTasks.Some?
    requires k < |plan.applies| && i < |plan.applies| && x.subject == ApplySubject(plan, k) && x.deps == {}
    requires TaskFor(tasks, ApplySubject(plan, k)).None?
    requires k > 0 ==> TaskFor(tasks, ApplySubject(plan, k - 1)).Some?
    requires TaskFor(tasks + [x], Capture(plan)) == TaskFor(tasks, Capture(plan))
    requires forall j :: 0 <= j < |plan.removals| ==>
                           TaskFor(tasks + [x], RemovalSubject(plan, j)) == TaskFor(tasks, RemovalSubject(plan, j))
    ensures ApplyTaskOk(plan, tasks + [x], st, i)
    ensures i < k && ApplyDone(plan, tasks, i) ==> ApplyDone(plan, tasks + [x], i)
  {
    assert ApplyTaskOk(plan, tasks, st, i);
    AppendTaskFor(tasks, x, ApplySubject(plan, i));
    if i > 0 {
      AppendTaskFor(tasks, x, ApplySubject(plan, i - 1));
      if i - 1 != k {
        SameApplyDeps(plan, tasks, tasks + [x], i);
      }
    } else {
      SameApplyDeps(plan, tasks, tasks + [x], i);
    }
  }

  // ----- adding dependencies -----

  lemma AddDependenciesSameTasks(plan: Plan, tasks: seq<Task>, t: nat, deps: set<nat>)
    requires t < |tasks|
    ensures forall s :: TaskFor(AddDependencies(tasks, t, deps), s) == TaskFor(tasks, s)
    ensures forall k :: 0 <= k < |plan.applies| ==>
                          ApplyDeps(plan, AddDependencies(tasks, t, deps), k) == ApplyDeps(plan, tasks, k)
  {
    var more := AddDependencies(tasks, t, deps);
    forall s ensures TaskFor(more, s) == TaskFor(tasks, s) {
      ExtendsKeepsTaskFor(tasks, more, s);
    }
    forall k | 0 <= k < |plan.applies| ensures ApplyDeps(plan, more, k) == ApplyDeps(plan, tasks, k) {
      SameApplyDeps(plan, tasks, more, k);
    }
  }

  lemma AddRemovalDependencies(plan: Plan, rows: seq<Row>, tasks: seq<Task>, st: ActionState, j: nat)
    requires Progress(plan, rows, tasks, st) && j < |plan.removals| && TaskFor(tasks, RemovalSubject(plan, j)).Some?
    ensures var tasks' := AddDependencies(tasks, TaskFor(tasks, RemovalSubject(plan, j)).value,
            CaptureTasks(plan, tasks));
            && Progress(plan, rows, tasks', st)
            && RemovalDone(plan, tasks', j)
            && forall i :: 0 <= i < |plan.removals| && RemovalDone(plan, tasks, i) ==> RemovalDone(plan, tasks', i)
  {
    var t := TaskFor(tasks, RemovalSubject(plan, j)).value;
    var tasks' := AddDependencies(tasks, t, CaptureTasks(plan, tasks));
    AddDependenciesSameTasks(plan, tasks, t, CaptureTasks(plan, tasks));
    assert RemovalTaskOk(plan, tasks, st, j);
    assert TablesOk(plan, rows, tasks');
    assert CaptureStage(plan, tasks', st);
    forall i | 0 <= i < |plan.removals|
      ensures RemovalTaskOk(plan, tasks', st, i)
      ensures RemovalDone(plan, tasks, i) ==> RemovalDone(plan, tasks', i)
    {
      assert RemovalTaskOk(plan, tasks, st, i);
    }
    assert RemovalStage(plan, tasks', st);
    forall k | 0 <= k < |plan.applies|
      ensures ApplyTaskOk(plan, tasks', st, k)
      ensures ApplyDone(plan, tasks, k) ==> ApplyDone(plan, tasks', k)
    {
      assert ApplyTaskOk(plan, tasks, st, k);
    }
  }

  lemma OtherTaskKeepsRemovals(plan: Plan, tasks: seq<Task>, st: ActionState, t: nat, deps: set<nat>)
    requires t < |tasks| && RemovalStage(plan, tasks, st)
    requires forall j :: 0 <= j < |plan.removals| ==> TaskFor(tasks, RemovalSubject(plan, j)) != Some(t)
    ensures RemovalStage(plan, AddDependencies(tasks, t, deps), st)
  {
    var tasks' := AddDependencies(tasks, t, deps);
    AddDependenciesSameTasks(plan, tasks, t, deps);
    forall j | 0 <= j < |plan.removals|
      ensures RemovalTaskOk(plan, tasks', st, j)
      ensures RemovalDone(plan, tasks, j) ==> RemovalDone(plan, tasks', j)
    {
      assert RemovalTaskOk(plan, tasks, st, j);
    }
  }

  lemma AddDependenciesKeepsTables(
    plan: Plan, rows: seq<Row>, tasks: seq<Task>, st: ActionState, t: nat, deps: set<nat>)
    requires TablesOk(plan, rows, tasks) && CaptureStage(plan, tasks, st)
    requires t < |tasks| && tasks[t].subject != Capture(plan)
    ensures TablesOk(plan, rows, AddDependencies(tasks, t, deps))
            && CaptureStage(plan, AddDependencies(tasks, t, deps), st)
  {
    AddDependenciesSameTasks(plan, tasks, t, deps);
  }

  lemma AddedDependenciesKeepApply(plan: Plan, tasks: seq<Task>, st: ActionState, k: nat, i: nat)
    requires k < |plan.applies| && i < |plan.applies| && TaskFor(tasks, ApplySubject(plan, k)).Some?
    requires ApplyTaskOk(plan, tasks, st, k) && ApplyTaskOk(plan, tasks, st, i)
    requires i != k ==> plan.applies[i].instr.uuid != plan.applies[k].instr.uuid
    ensures var tasks' := AddDependencies(tasks, TaskFor(tasks, ApplySubject(plan, k)).value,
            ApplyDeps(plan, tasks, k));
            && ApplyTaskOk(plan, tasks', st, i)
            && (i == k || ApplyDone(plan, tasks, i) ==> ApplyDone(plan, tasks', i))
  {
    var t := TaskFor(tasks, ApplySubject(plan, k)).value;
    AddDependenciesSameTasks(plan, tasks, t, ApplyDeps(plan, tasks, k));
  }

  lemma AddApplyDependencies(plan: Plan, rows: seq<Row>, tasks: seq<Task>, st: ActionState, k: nat)
    requires Progress(plan, rows, tasks, st) && k < |plan.applies| && TaskFor(tasks, ApplySubject(plan, k)).Some?
    ensures var tasks' := AddDependencies(tasks, TaskFor(tasks, ApplySubject(plan, k)).value,
            ApplyDeps(plan, tasks, k));
            && Progress(plan, rows, tasks', st)
            && ApplyDone(plan, tasks', k)
            && forall i :: 0 <= i < |plan.applies| && ApplyDone(plan, tasks, i) ==> ApplyDone(plan, tasks', i)
  {
    var t := TaskFor(tasks, ApplySubject(plan, k)).value;
    var tasks' := AddDependencies(tasks, t, ApplyDeps(plan, tasks, k));
    assert ApplyTaskOk(plan, tasks, st, k);
    forall i | 0 <= i < |plan.applies|
      ensures ApplyTaskOk(plan, tasks', st, i)
      ensures i == k || ApplyDone(plan, tasks, i) ==> ApplyDone(plan, tasks', i)
    {
      AddedDependenciesKeepApply(plan, tasks, st, k, i);
    }
    assert RemovalStage(plan, tasks', st) by {
      OtherTaskKeepsRemovals(plan, tasks, st, t, ApplyDeps(plan, tasks, k));
    }
    AddDependenciesKeepsTables(plan, rows, tasks, st, t, ApplyDeps(plan, tasks, k));
  }

  // ----- rows -----

  ghost predicate PlannedInstruction(plan: Plan, x: Instruction) {
    || (exists j :: 0 <= j < |plan.removals| && x == plan.removals[j])
    || (exists k :: 0 <= k < |plan.applies| && x == plan.applies[k].instr)
  }

  lemma {:induction false} RecordingKeepsProgress(
    plan: Plan, rows: seq<Row>, tasks: seq<Task>, st: ActionState, xs: seq<Instruction>)
    requires Progress(plan, rows, tasks, st)
    requires forall i :: 0 <= i < |xs| ==> PlannedInstruction(plan, xs[i])
    ensures Progress(plan, EnsureRows(rows, xs), tasks, st)
    decreases |xs|
  {
    if xs == [] {
    } else {
      var rows' := EnsureRow(rows, xs[0]);
      assert PlannedInstruction(plan, xs[0]);
      if FindByUuid(rows, xs[0].uuid, |rows|).None? {
        assert RowsGenuine(plan, rows');
      }
      assert TablesOk(plan, rows', tasks);
      RecordingKeepsProgress(plan, rows', tasks, st, xs[1..]);
    }
  }

  /** Rows keep their identifier and source, and new ones are not the plan's. */
  ghost predicate RowsAround(plan: Plan, rows: seq<Row>, rows': seq<Row>) {
    && |rows| <= |rows'| && UuidsDistinct(rows')
    && (forall i :: 0 <= i < |rows| ==>
                      rows'[i].instr.uuid == rows[i].instr.uuid && rows'[i].instr.source == rows[i].instr.source)
    && (forall i :: |rows| <= i < |rows'| ==> !Own(plan, InstructionOf(rows'[i].instr.uuid)))
  }

  /** What other tasks and callbacks may do to the tables between two attempts. */
  ghost predicate Environment(plan: Plan, rows: seq<Row>, tasks: seq<Task>, rows': seq<Row>, tasks': seq<Task>) {
    && RowsAround(plan, rows, rows')
    && Extends(tasks, tasks')
    && (forall t :: 0 <= t < |tasks| && Own(plan, tasks[t].subject) ==> tasks'[t] == tasks[t])
    && (forall t :: |tasks| <= t < |tasks'| ==> !Own(plan, tasks'[t].subject))
  }

  lemma EnvironmentKeepsTables(plan: Plan, rows: seq<Row>, tasks: seq<Task>, rows': seq<Row>, tasks': seq<Task>)
    requires TablesOk(plan, rows, tasks) && RowsGenuine(plan, rows) && Environment(plan, rows, tasks, rows', tasks')
    ensures TablesOk(plan, rows', tasks') && RowsGenuine(plan, rows')
  {
    forall i, j | 0 <= i < |rows'| && 0 <= j < |plan.removals| && rows'[i].instr.uuid == plan.removals[j].uuid
      ensures rows'[i].instr.source == plan.removals[j].source
    {
      assert Own(plan, RemovalSubject(plan, j));
    }
    forall i, k | 0 <= i < |rows'| && 0 <= k < |plan.applies| && rows'[i].instr.uuid == plan.applies[k].instr.uuid
      ensures rows'[i].instr.source == plan.applies[k].instr.source
    {
      assert Own(plan, ApplySubject(plan, k));
    }
  }

  lemma EnvironmentKeepsOwnTasks(
    plan: Plan, rows: seq<Row>, tasks: seq<Task>, rows': seq<Row>, tasks': seq<Task>, s: Subject)
    requires Environment(plan, rows, tasks, rows', tasks') && Own(plan, s)
    ensures TaskFor(tasks', s) == TaskFor(tasks, s)
    ensures TaskFor(tasks, s).Some? ==> tasks'[TaskFor(tasks, s).value] == tasks[TaskFor(tasks, s).value]
  {
    ExtendsKeepsTaskFor(tasks, tasks', s);
  }

  lemma EnvironmentKeepsProgress(
    plan: Plan, rows: seq<Row>, tasks: seq<Task>, st: ActionState, rows': seq<Row>, tasks': seq<Task>)
    requires Progress(plan, rows, tasks, st) && Environment(plan, rows, tasks, rows', tasks')
    ensures Progress(plan, rows', tasks', st)
  {
    EnvironmentKeepsTables(plan, rows, tasks, rows', tasks');
    EnvironmentKeepsOwnTasks(plan, rows, tasks, rows', tasks', Capture(plan));
    forall j | 0 <= j < |plan.removals|
      ensures TaskFor(tasks', RemovalSubject(plan, j)) == TaskFor(tasks, RemovalSubject(plan, j))
      ensures RemovalTaskOk(plan, tasks', st, j)
      ensures RemovalDone(plan, tasks, j) ==> RemovalDone(plan, tasks', j)
    {
      assert RemovalTaskOk(plan, tasks, st, j);
      EnvironmentKeepsOwnTasks(plan, rows, tasks, rows', tasks', RemovalSubject(plan, j));
    }
    forall k | 0 <= k < |plan.applies|
      ensures ApplyTaskOk(plan, tasks', st, k)
      ensures ApplyDone(plan, tasks, k) ==> ApplyDone(plan, tasks', k)
    {
      assert ApplyTaskOk(plan, tasks, st, k);
      EnvironmentKeepsOwnTasks(plan, rows, tasks, rows', tasks', ApplySubject(plan, k));
      if k > 0 {
        EnvironmentKeepsOwnTasks(plan, rows, tasks, rows', tasks', ApplySubject(plan, k - 1));
      }
      SameApplyDeps(plan, tasks, tasks', k);
    }
  }

  // ----- checkpoints -----

  /** A later state knows the capture task and the removal tasks whenever an earlier one did. */
  lemma LaterStateKeepsTasks(plan: Plan, tasks: seq<Task>, st: ActionState, st': ActionState)
    requires st.captureTask.Some? ==> st'.captureTask.Some?
    requires st.removalTasks.Some? ==> st'.removalTasks.Some?
    requires forall j :: 0 <= j < |plan.removals| ==> RemovalTaskOk(plan, tasks, st, j)
    requires forall k :: 0 <= k < |plan.applies| ==> ApplyTaskOk(plan, tasks, st, k)
    ensures forall j :: 0 <= j < |plan.removals| ==> RemovalTaskOk(plan, tasks, st', j)
    ensures forall k :: 0 <= k < |plan.applies| ==> ApplyTaskOk(plan, tasks, st', k)
  {
    forall j | 0 <= j < |plan.removals| ensures RemovalTaskOk(plan, tasks, st', j) {
      assert RemovalTaskOk(plan, tasks, st, j);
    }
    forall k | 0 <= k < |plan.applies| ensures ApplyTaskOk(plan, tasks, st', k) {
      assert ApplyTaskOk(plan, tasks, st, k);
    }
  }

  lemma CheckpointRemovalRecords(plan: Plan, rows: seq<Row>, tasks: seq<Task>, st: ActionState, records: seq<Record>)
    requires Progress(plan, rows, tasks, st) && st.removalRecords.None? && RecordsOk(rows, plan.removals, records)
    ensures Progress(plan, rows, tasks, st.(removalRecords := Some(records)))
  {
    LaterStateKeepsTasks(plan, tasks, st, st.(removalRecords := Some(records)));
  }

  lemma CheckpointApplyRecords(plan: Plan, rows: seq<Row>, tasks: seq<Task>, st: ActionState, records: seq<Record>)
    requires Progress(plan, rows, tasks, st) && st.removalRecords.Some? && st.applyRecords.None?
    requires RecordsOk(rows, ApplyInstructions(plan.applies), records)
    ensures Progress(plan, rows, tasks, st.(applyRecords := Some(records)))
  {
    LaterStateKeepsTasks(plan, tasks, st, st.(applyRecords := Some(records)));
  }

  lemma CheckpointCapture(plan: Plan, rows: seq<Row>, tasks: seq<Task>, st: ActionState)
    requires Progress(plan, rows, tasks, st) && st.applyRecords.Some? && st.captureTask.None?
    requires TaskFor(tasks, Capture(plan)).Some?
    ensures Progress(plan, rows, tasks, st.(captureTask := TaskFor(tasks, Capture(plan))))
  {
    LaterStateKeepsTasks(plan, tasks, st, st.(captureTask := TaskFor(tasks, Capture(plan))));
  }

  lemma SetCursor(plan: Plan, rows: seq<Row>, tasks: seq<Task>, st: ActionState, m: nat)
    requires Progress(plan, rows, tasks, st) && st.captureTask.Some? && m < |plan.removals|
    requires forall j :: 0 <= j <= m ==> RemovalDone(plan, tasks, j)
    ensures Progress(plan, rows, tasks, st.(cursor := Some(st.removalRecords.value[m].id)))
  {
    LaterStateKeepsTasks(plan, tasks, st, st.(cursor := Some(st.removalRecords.value[m].id)));
  }

  lemma CheckpointRemovalTasks(plan: Plan, rows: seq<Row>, tasks: seq<Task>, st: ActionState, m: map<nat, nat>)
    requires Progress(plan, rows, tasks, st) && st.captureTask.Some? && st.removalTasks.None?
    requires TasksBySource(plan, tasks, m, |plan.removals|)
    requires forall j :: 0 <= j < |plan.removals| ==> RemovalDone(plan, tasks, j)
    ensures Progress(plan, rows, tasks, st.(removalTasks := Some(m)))
  {
    LaterStateKeepsTasks(plan, tasks, st, st.(removalTasks := Some(m)));
  }

  lemma CheckpointApplyTasks(plan: Plan, rows: seq<Row>, tasks: seq<Task>, st: ActionState, applied: seq<nat>)
    requires Progress(plan, rows, tasks, st) && st.removalTasks.Some?
    requires forall k :: 0 <= k < |plan.applies| ==> ApplyDone(plan, tasks, k)
    ensures Progress(plan, rows, tasks, st.(applyTasks := Some(applied)))
  {
    LaterStateKeepsTasks(plan, tasks, st, st.(applyTasks := Some(applied)));
  }

  /** The row a recording transaction returns for a planned instruction carries its source. */
  lemma ReturnedRowsAreGenuine(plan: Plan, rows: seq<Row>, xs: seq<Instruction>, ids: seq<nat>)
    requires RowsGenuine(plan, rows) && |ids| == |xs|
    requires forall i :: 0 <= i < |xs| ==> PlannedInstruction(plan, xs[i])
    requires forall i :: 0 <= i < |xs| ==> ids[i] < |rows| && rows[ids[i]].instr.uuid == xs[i].uuid
    ensures forall i :: 0 <= i < |xs| ==> rows[ids[i]].instr.source == xs[i].source
  {
    forall i | 0 <= i < |xs| ensures rows[ids[i]].instr.source == xs[i].source {
      assert PlannedInstruction(plan, xs[i]);
    }
  }

  /** The handler adds planned rows and own tasks, and changes no other row or task. */
  ghost predicate OnlyOwn(plan: Plan, rows: seq<Row>, tasks: seq<Task>, rows': seq<Row>, tasks': seq<Task>) {
    && |rows| <= |rows'|
    && (forall i :: 0 <= i < |rows| ==> rows'[i] == rows[i])
    && (forall i :: |rows| <= i < |rows'| ==> rows'[i].status == Processing && PlannedInstruction(plan, rows'[i].instr))
    && OwnTasksOnly(plan, tasks, tasks')
  }

  ghost predicate OwnTasksOnly(plan: Plan, tasks: seq<Task>, tasks': seq<Task>) {
    && Extends(tasks, tasks')
    && (forall t :: 0 <= t < |tasks| && !Own(plan, tasks[t].subject) ==> tasks'[t] == tasks[t])
    && (forall t :: |tasks| <= t < |tasks'| ==> Own(plan, tasks'[t].subject))
  }

  lemma AddedIsOwn(plan: Plan, tasks: seq<Task>, t: nat, deps: set<nat>)
    requires t < |tasks| && Own(plan, tasks[t].subject)
    ensures OwnTasksOnly(plan, tasks, AddDependencies(tasks, t, deps))
  {
  }

  lemma AddedKeepsOrder(plan: Plan, tasks: seq<Task>, t: nat, deps: set<nat>)
    requires t < |tasks| && InPlanOrder(plan, tasks)
    ensures InPlanOrder(plan, AddDependencies(tasks, t, deps))
  {
    AddDependenciesSameTasks(plan, tasks, t, deps);
    SameTasksInOrder(plan, tasks, AddDependencies(tasks, t, deps));
  }

  lemma OwnTasksTransitive(plan: Plan, tasks0: seq<Task>, tasks1: seq<Task>, tasks2: seq<Task>)
    requires OwnTasksOnly(plan, tasks0, tasks1) && OwnTasksOnly(plan, tasks1, tasks2)
    ensures OwnTasksOnly(plan, tasks0, tasks2)
  {
    forall t | |tasks0| <= t < |tasks2| ensures Own(plan, tasks2[t].subject) {
      assert t < |tasks1| ==> tasks2[t].subject == tasks1[t].subject;
    }
  }

  lemma {:induction false} RecordingIsOwn(plan: Plan, rows: seq<Row>, tasks: seq<Task>, xs: seq<Instruction>)
    requires forall i :: 0 <= i < |xs| ==> PlannedInstruction(plan, xs[i])
    ensures OnlyOwn(plan, rows, tasks, EnsureRows(rows, xs), tasks)
    decreases |xs|
  {
    if xs == [] {
    } else {
      assert PlannedInstruction(plan, xs[0]);
      RecordingIsOwn(plan, EnsureRow(rows, xs[0]), tasks, xs[1..]);
    }
  }

  lemma OnlyOwnTransitive(plan: Plan, rows0: seq<Row>, tasks0: seq<Task>, rows1: seq<Row>, tasks1: seq<Task>,
                          rows2: seq<Row>, tasks2: seq<Task>)
    requires OnlyOwn(plan, rows0, tasks0, rows1, tasks1) && OnlyOwn(plan, rows1, tasks1, rows2, tasks2)
    ensures OnlyOwn(plan, rows0, tasks0, rows2, tasks2)
  {
    forall i | |rows0| <= i < |rows2|
      ensures rows2[i].status == Processing && PlannedInstruction(plan, rows2[i].instr)
    {
      assert i < |rows1| ==> rows2[i] == rows1[i];
    }
    OwnTasksTransitive(plan, tasks0, tasks1, tasks2);
  }

  /** The first `n` removals have their tasks and dependencies, and `bySource` knows those tasks. */
  ghost predicate AtRemoval(
    plan: Plan, rows: seq<Row>, tasks: seq<Task>, st: ActionState, n: nat, bySource: map<nat, nat>)
  {
    && Progress(plan, rows, tasks, st) && st.captureTask.Some? && st.removalTasks.None? && n <= |plan.removals|
    && TasksBySource(plan, tasks, bySource, n)
    && forall j :: 0 <= j < n ==> RemovalDone(plan, tasks, j)
  }

  /** The first `k` applies have their tasks and dependencies; `previous` is the last of those tasks. */
  ghost predicate AtApply(
    plan: Plan, rows: seq<Row>, tasks: seq<Task>, st: ActionState, k: nat, previous: Option<nat>)
  {
    && Progress(plan, rows, tasks, st) && st.removalTasks.Some? && st.applyTasks.None? && k <= |plan.applies|
    && (forall i :: 0 <= i < k ==> ApplyDone(plan, tasks, i))
    && previous == (if k == 0 then None else TaskFor(tasks, ApplySubject(plan, k - 1)))
    && (k > 0 ==> previous.Some?)
  }

  /** Queueing the task of apply `k`. */
  lemma EnqueueApplyStep(
    plan: Plan, rows: seq<Row>, tasks: seq<Task>, st: ActionState, k: nat, previous: Option<nat>)
    requires AtApply(plan, rows, tasks, st, k, previous) && InPlanOrder(plan, tasks)
    requires k < |plan.applies| && TaskFor(tasks, ApplySubject(plan, k)).None?
    ensures var tasks' := tasks + [Task(ApplySubject(plan, k), st.applyRecords.value[k].id, {})];
            && AtApply(plan, rows, tasks', st, k, previous) && InPlanOrder(plan, tasks')
            && TaskFor(tasks', ApplySubject(plan, k)) == Some(|tasks|)
  {
    var x := Task(ApplySubject(plan, k), st.applyRecords.value[k].id, {});
    assert InPlanOrder(plan, tasks + [x]) by {
      EarlierSubjectsQueued(plan, rows, tasks, st, k);
      AppendInOrder(plan, tasks, x, 1 + |plan.removals| + k);
    }
    EnqueueApplyKeepsProgress(plan, rows, tasks, st, k);
    if k > 0 {
      AppendTaskFor(tasks, x, ApplySubject(plan, k - 1));
    }
  }

  lemma ApplyStep(
    plan: Plan, rows: seq<Row>, tasks: seq<Task>, st: ActionState, k: nat, previous: Option<nat>, t: nat,
    deps: set<nat>)
    requires AtApply(plan, rows, tasks, st, k, previous) && k < |plan.applies|
    requires TaskFor(tasks, ApplySubject(plan, k)) == Some(t) && deps == ApplyDeps(plan, tasks, k)
    ensures AtApply(plan, rows, AddDependencies(tasks, t, deps), st, k + 1, Some(t))
  {
    var tasks' := AddDependencies(tasks, t, ApplyDeps(plan, tasks, k));
    assert TaskFor(tasks', ApplySubject(plan, k)) == Some(t) by {
      AddDependenciesSameTasks(plan, tasks, t, ApplyDeps(plan, tasks, k));
    }
    AddApplyDependencies(plan, rows, tasks, st, k);
    DoneUpTo(plan, tasks, tasks', k);
  }

  lemma DoneUpTo(plan: Plan, tasks: seq<Task>, tasks': seq<Task>, k: nat)
    requires k < |plan.applies| && ApplyDone(plan, tasks', k)
    requires forall i :: 0 <= i < k ==> ApplyDone(plan, tasks, i)
    requires forall i :: 0 <= i < |plan.applies| && ApplyDone(plan, tasks, i) ==> ApplyDone(plan, tasks', i)
    ensures forall i :: 0 <= i < k + 1 ==> ApplyDone(plan, tasks', i)
  {
    forall i | 0 <= i < k + 1 ensures ApplyDone(plan, tasks', i) {
      assert i < k ==> ApplyDone(plan, tasks, i);
    }
  }

  lemma RemovalStep(
    plan: Plan, rows: seq<Row>, tasks: seq<Task>, st: ActionState, j: nat, bySource: map<nat, nat>, tasks': seq<Task>,
    t: nat)
    requires AtRemoval(plan, rows, tasks, st, j, bySource) && j < |plan.removals|
    requires Progress(plan, rows, tasks', st)
    requires forall i :: 0 <= i < |plan.removals| && RemovalDone(plan, tasks, i) ==>
                           && RemovalDone(plan, tasks', i)
                           && TaskFor(tasks', RemovalSubject(plan, i)) == TaskFor(tasks, RemovalSubject(plan, i))
    requires RemovalDone(plan, tasks', j) && TaskFor(tasks', RemovalSubject(plan, j)) == Some(t)
    ensures plan.removals[j].source.Some? && st.removalRecords.value[j].source == plan.removals[j].source
    ensures AtRemoval(plan, rows, tasks', st.(cursor := Some(st.removalRecords.value[j].id)), j + 1,
                      bySource[plan.removals[j].source.value := t])
  {
    TasksBySourceStep(plan, tasks, tasks', bySource, j, t);
    SetCursor(plan, rows, tasks', st, j);
  }

  /** Neither recording checkpoint is written or changed. */
  ghost predicate KeepsRecords(st: ActionState, st': ActionState) {
    st'.removalRecords == st.removalRecords && st'.applyRecords == st.applyRecords
  }

  /** What an attempt may do to the rows: nothing, record the removals, or record up to the applies. */
  ghost predicate RowSteps(plan: Plan, rows: seq<Row>, st: ActionState, rows': seq<Row>, st': ActionState) {
    || (rows' == rows && KeepsRecords(st, st'))
    || (st.removalRecords.None? && rows' == EnsureRows(rows, plan.removals) && st'.applyRecords == st.applyRecords)
    || (st.applyRecords.None? && st'.removalRecords.Some?
        && rows' == EnsureRows(if st.removalRecords.None? then EnsureRows(rows, plan.removals) else rows,
                               ApplyInstructions(plan.applies)))
  }

  /** How far recording has come from `rows0`: nothing, the removals, or the removals and the applies. */
  ghost predicate RowStage(plan: Plan, rows0: seq<Row>, rows: seq<Row>, st: ActionState) {
    var recorded := EnsureRows(rows0, plan.removals);
    || (rows == rows0 && st.removalRecords.None? && st.applyRecords.None?)
    || (rows == recorded && st.applyRecords.None?)
    || (rows == EnsureRows(recorded, ApplyInstructions(plan.applies)) && st.removalRecords.Some?)
  }

  lemma RowStageStep(
    plan: Plan, rows0: seq<Row>, rows: seq<Row>, st: ActionState, rows': seq<Row>, st': ActionState)
    requires RowStage(plan, rows0, rows, st) && RowSteps(plan, rows, st, rows', st')
    ensures RowStage(plan, rows0, rows', st')
  {
    ProtocolInvariant.EnsureRowsAgain(rows0, plan.removals);
    ProtocolInvariant.EnsureRowsAgain(EnsureRows(rows0, plan.removals), ApplyInstructions(plan.applies));
  }

  lemma EarlierSubjectsQueued(plan: Plan, rows: seq<Row>, tasks: seq<Task>, st: ActionState, k: nat)
    requires Progress(plan, rows, tasks, st) && st.removalTasks.Some? && k < |plan.applies|
    requires k > 0 ==> TaskFor(tasks, ApplySubject(plan, k - 1)).Some?
    ensures TaskFor(tasks, SubjectAt(plan, |plan.removals| + k)).Some?
  {
    if k > 0 {
      SubjectOfApply(plan, k - 1);
    } else if |plan.removals| > 0 {
      assert RemovalDone(plan, tasks, |plan.removals| - 1);
      SubjectOfRemoval(plan, |plan.removals| - 1);
    }
  }

  lemma EnvironmentKeepsOrder(plan: Plan, rows: seq<Row>, tasks: seq<Task>, rows': seq<Row>, tasks': seq<Task>)
    requires InPlanOrder(plan, tasks) && Environment(plan, rows, tasks, rows', tasks')
    ensures InPlanOrder(plan, tasks')
  {
    forall i | 0 <= i < Size(plan)
      ensures TaskFor(tasks', SubjectAt(plan, i)) == TaskFor(tasks, SubjectAt(plan, i))
    {
      SubjectIsOwn(plan, i);
      EnvironmentKeepsOwnTasks(plan, rows, tasks, rows', tasks', SubjectAt(plan, i));
    }
    SameTasksInOrder(plan, tasks, tasks');
  }

  /** Own tasks appended to a queue without any are exactly the plan's, in plan order. */
  lemma QueueIsExact(plan: Plan, rows0: seq<Row>, tasks0: seq<Task>, rows: seq<Row>, tasks: seq<Task>)
    requires PlanOk(plan) && Delivered(plan, rows, tasks) && InPlanOrder(plan, tasks)
    requires OnlyOwn(plan, rows0, tasks0, rows, tasks)
    requires forall t :: 0 <= t < |tasks0| ==> !Own(plan, tasks0[t].subject)
    ensures ExactQueue(plan, tasks0, tasks)
  {
    assert tasks[..|tasks0|] == tasks0;
    NewTasksAreThePlans(plan, rows, tasks0, tasks);
  }

  // ----- the handler -----

  class Handler {
    const plan: Plan
    const table: RuleTable.Table
    var tasks: seq<Task>
    var state: ActionState

    ghost predicate Valid()
      reads this, table
    {
      Progress(plan, table.rows, tasks, state) && InPlanOrder(plan, tasks)
    }

    /** The handler right after its plan was checkpointed, before any of its effects. */
    constructor (plan: Plan, table: RuleTable.Table, tasks: seq<Task>)
      requires PlanOk(plan) && UuidsDistinct(table.rows)
      requires forall i :: 0 <= i < |table.rows| ==> !Own(plan, InstructionOf(table.rows[i].instr.uuid))
      requires forall t :: 0 <= t < |tasks| ==> !Own(plan, tasks[t].subject)
      ensures Valid() && this.plan == plan && this.table == table && this.tasks == tasks && state == NOTHING_DONE
    {
      this.plan := plan;
      this.table := table;
      this.tasks := tasks;
      state := NOTHING_DONE;
      new;
      forall i, j | 0 <= i < |table.rows| && 0 <= j < |plan.removals|
        ensures table.rows[i].instr.uuid != plan.removals[j].uuid
      {
        assert Own(plan, RemovalSubject(plan, j));
      }
      forall i, k | 0 <= i < |table.rows| && 0 <= k < |plan.applies|
        ensures table.rows[i].instr.uuid != plan.applies[k].instr.uuid
      {
        assert Own(plan, ApplySubject(plan, k));
      }
      forall t | 0 <= t < |tasks| ensures tasks[t].subject != Capture(plan) {
        assert Own(plan, Capture(plan));
      }
      forall j | 0 <= j < |plan.removals| ensures TaskFor(tasks, RemovalSubject(plan, j)).None? {
        assert Own(plan, RemovalSubject(plan, j));
      }
      forall k | 0 <= k < |plan.applies| ensures TaskFor(tasks, ApplySubject(plan, k)).None? {
        assert Own(plan, ApplySubject(plan, k));
      }
    }

    /** Anything other tasks and callbacks do while this handler is down. */
    method Interleave(rows': seq<Row>, tasks': seq<Task>)
      requires Valid() && Environment(plan, table.rows, tasks, rows', tasks')
      modifies this, table
      ensures Valid() && state == old(state) && table.rows == rows' && tasks == tasks'
    {
      EnvironmentKeepsProgress(plan, table.rows, tasks, state, rows', tasks');
      EnvironmentKeepsOrder(plan, table.rows, tasks, rows', tasks');
      table.rows := rows';
      tasks := tasks';
    }

    /** The latest task that carries both this row id and this instruction identifier. */
    method FindExternalTask(id: nat, uuid: Uuid) returns (t: Option<nat>)
      requires TablesOk(plan, table.rows, tasks) && Own(plan, InstructionOf(uuid))
      requires id < |table.rows| && table.rows[id].instr.uuid == uuid
      ensures t == TaskFor(tasks, InstructionOf(uuid))
    {
      var n := |tasks|;
      while n > 0
        invariant 0 <= n <= |tasks| && TaskFor(tasks, InstructionOf(uuid)) == TaskBelow(tasks, InstructionOf(uuid), n)
      {
        n := n - 1;
        if tasks[n].subject == InstructionOf(uuid) && tasks[n].instructionId == id {
          return Some(n);
        }
      }
      t := None;
    }

    method FindCaptureTask() returns (t: Option<nat>)
      ensures t == TaskFor(tasks, Capture(plan))
    {
      var n := |tasks|;
      while n > 0
        invariant 0 <= n <= |tasks| && TaskFor(tasks, Capture(plan)) == TaskBelow(tasks, Capture(plan), n)
      {
        n := n - 1;
        if tasks[n].subject == Capture(plan) {
          return Some(n);
        }
      }
      t := None;
    }

    /** The records a transaction returns: row id, identifier and the source the row names. */
    method MakeRecords(xs: seq<Instruction>, ids: seq<nat>) returns (records: seq<Record>)
      requires |ids| == |xs|
      requires forall j :: 0 <= j < |xs| ==>
                             && ids[j] < |table.rows|
                             && table.rows[ids[j]].instr.uuid == xs[j].uuid
                             && table.rows[ids[j]].instr.source == xs[j].source
      ensures RecordsOk(table.rows, xs, records)
    {
      records := [];
      for j := 0 to |ids|
        invariant |records| == j
        invariant forall i :: 0 <= i < j ==> records[i] == Record(ids[i], xs[i].uuid, xs[i].source)
      {
        records := records + [Record(ids[j], xs[j].uuid, table.rows[ids[j]].instr.source)];
      }
    }

    // ----- the steps; each gives back how many effects are left before the crash -----

    /** `removal_rows_recorded`: one transaction, then its checkpoint. */
    method RecordRemovalRows(budget: nat) returns (ok: bool, left: nat)
      requires Valid()
      modifies this, table
      ensures Valid() && left <= budget && (budget >= 2 ==> ok && left + 2 >= budget)
      ensures ok ==> state.removalRecords.Some?
      ensures OnlyOwn(plan, old(table.rows), old(tasks), table.rows, tasks)
      ensures state.applyRecords == old(state).applyRecords
      ensures if old(state).removalRecords.None? && budget > 0
              then table.rows == EnsureRows(old(table.rows), plan.removals)
              else table.rows == old(table.rows) && state.removalRecords == old(state).removalRecords
    {
      ok, left := false, budget;
      if state.removalRecords.None? {
        if left == 0 { return; }
        left := left - 1;
        var instrs := plan.removals;
        forall i | 0 <= i < |instrs| ensures PlannedInstruction(plan, instrs[i]) {
        }
        RecordingKeepsProgress(plan, table.rows, tasks, state, instrs);
        RecordingIsOwn(plan, table.rows, tasks, instrs);
        var ids := table.RecordInstructions(instrs);
        ReturnedRowsAreGenuine(plan, table.rows, instrs, ids);
        if left == 0 { return; }
        left := left - 1;
        var records := MakeRecords(instrs, ids);
        CheckpointRemovalRecords(plan, table.rows, tasks, state, records);
        state := state.(removalRecords := Some(records));
      }
      ok := true;
    }

    /** `apply_rows_recorded`: one transaction, then its checkpoint. */
    method RecordApplyRows(budget: nat) returns (ok: bool, left: nat)
      requires Valid() && state.removalRecords.Some?
      modifies this, table
      ensures Valid() && left <= budget && (budget >= 2 ==> ok && left + 2 >= budget)
      ensures ok ==> state.applyRecords.Some?
      ensures OnlyOwn(plan, old(table.rows), old(tasks), table.rows, tasks)
      ensures state.removalRecords == old(state).removalRecords
      ensures if old(state).applyRecords.None? && budget > 0
              then table.rows == EnsureRows(old(table.rows), ApplyInstructions(plan.applies))
              else table.rows == old(table.rows) && state.applyRecords == old(state).applyRecords
    {
      ok, left := false, budget;
      if state.applyRecords.None? {
        if left == 0 { return; }
        left := left - 1;
        var instrs := ApplyInstructions(plan.applies);
        forall i | 0 <= i < |instrs| ensures PlannedInstruction(plan, instrs[i]) {
          assert instrs[i] == plan.applies[i].instr;
        }
        RecordingKeepsProgress(plan, table.rows, tasks, state, instrs);
        RecordingIsOwn(plan, table.rows, tasks, instrs);
        var ids := table.RecordInstructions(instrs);
        ReturnedRowsAreGenuine(plan, table.rows, instrs, ids);
        if left == 0 { return; }
        left := left - 1;
        var records := MakeRecords(instrs, ids);
        CheckpointApplyRecords(plan, table.rows, tasks, state, records);
        state := state.(applyRecords := Some(records));
      }
      ok := true;
    }

    /** `capture_task_enqueued`: the one capture task of this handler run. */
    method EnqueueCapture(budget: nat) returns (ok: bool, left: nat)
      requires Valid() && state.applyRecords.Some?
      modifies this
      ensures Valid() && left <= budget && (budget >= 2 ==> ok && left + 2 >= budget)
      ensures ok ==> state.captureTask.Some?
      ensures OwnTasksOnly(plan, old(tasks), tasks)
      ensures KeepsRecords(old(state), state)
    {
      ok, left := false, budget;
      if state.captureTask.None? {
        var capture := FindCaptureTask();
        if capture.None? {
          if left == 0 { return; }
          left := left - 1;
          EnqueueCaptureKeepsProgress(plan, table.rows, tasks, state);
          AppendInOrder(plan, tasks, Task(Capture(plan), 0, {}), 0);
          capture := Some(|tasks|);
          tasks := tasks + [Task(Capture(plan), 0, {})];
        }
        if left == 0 { return; }
        left := left - 1;
        CheckpointCapture(plan, table.rows, tasks, state);
        state := state.(captureTask := capture);
      }
      ok := true;
    }

    /** Finds the task of a removal record, or enqueues it. */
    method FindOrEnqueueRemoval(j: nat, budget: nat) returns (ok: bool, left: nat, t: nat)
      requires Valid() && state.captureTask.Some? && state.removalTasks.None? && j < |plan.removals|
      requires j > 0 ==> TaskFor(tasks, RemovalSubject(plan, j - 1)).Some?
      modifies this`tasks
      ensures Valid() && left <= budget && (budget >= 1 ==> ok && left + 1 >= budget)
      ensures forall i :: 0 <= i < |plan.removals| && RemovalDone(plan, old(tasks), i) ==>
                            && RemovalDone(plan, tasks, i)
                            && TaskFor(tasks, RemovalSubject(plan, i)) == TaskFor(old(tasks), RemovalSubject(plan, i))
      ensures ok ==> TaskFor(tasks, RemovalSubject(plan, j)) == Some(t)
      ensures OwnTasksOnly(plan, old(tasks), tasks)
    {
      ok, left, t := false, budget, 0;
      var record := state.removalRecords.value[j];
      assert Own(plan, RemovalSubject(plan, j));
      var found := FindExternalTask(record.id, record.uuid);
      if found.None? {
        if left == 0 { return; }
        left := left - 1;
        EnqueueRemovalKeepsProgress(plan, table.rows, tasks, state, j);
        AppendInOrder(plan, tasks, Task(RemovalSubject(plan, j), record.id, {}), 1 + j);
        found := Some(|tasks|);
        tasks := tasks + [Task(InstructionOf(record.uuid), record.id, {})];
      }
      ok, t := true, found.value;
    }

    /** One removal record: find or enqueue its task, then make it wait for the capture. */
    method EnqueueRemoval(j: nat, budget: nat) returns (ok: bool, left: nat, t: nat)
      requires Valid() && state.captureTask.Some? && state.removalTasks.None? && j < |plan.removals|
      requires j > 0 ==> TaskFor(tasks, RemovalSubject(plan, j - 1)).Some?
      modifies this`tasks
      ensures Valid() && left <= budget && (budget >= 2 ==> ok && left + 2 >= budget)
      ensures forall i :: 0 <= i < |plan.removals| && RemovalDone(plan, old(tasks), i) ==>
                            && RemovalDone(plan, tasks, i)
                            && TaskFor(tasks, RemovalSubject(plan, i)) == TaskFor(old(tasks), RemovalSubject(plan, i))
      ensures ok ==> RemovalDone(plan, tasks, j) && TaskFor(tasks, RemovalSubject(plan, j)) == Some(t)
      ensures OwnTasksOnly(plan, old(tasks), tasks)
    {
      ghost var before := tasks;
      ok, left, t := FindOrEnqueueRemoval(j, budget);
      if !ok { return; }
      if left == 0 { return false, 0, t; }
      left := left - 1;
      ghost var between := tasks;
      AddRemovalDependencies(plan, table.rows, tasks, state, j);
      AddDependenciesSameTasks(plan, tasks, t, {state.captureTask.value});
      AddedKeepsOrder(plan, tasks, t, {state.captureTask.value});
      assert Own(plan, RemovalSubject(plan, j));
      AddedIsOwn(plan, tasks, t, {state.captureTask.value});
      tasks := AddDependencies(tasks, t, {state.captureTask.value});
      OwnTasksTransitive(plan, before, between, tasks);
    }

    /** Looks up the tasks of the removals a previous attempt already reported. */
    method RebuildBySource(records: seq<Record>, processed: nat) returns (bySource: map<nat, nat>)
      requires Valid() && state.removalRecords == Some(records) && processed <= |records|
      requires forall j :: 0 <= j < processed ==> RemovalDone(plan, tasks, j)
      ensures processed <= |plan.removals| && TasksBySource(plan, tasks, bySource, processed)
    {
      bySource := map[];
      for j := 0 to processed
        invariant TasksBySource(plan, tasks, bySource, j)
      {
        var record := records[j];
        assert Own(plan, RemovalSubject(plan, j));
        var existing := FindExternalTask(record.id, record.uuid);
        assert RemovalDone(plan, tasks, j);
        if existing.Some? && record.source.Some? {
          bySource := bySource[record.source.value := existing.value];
        }
      }
    }

    /** One pending removal record: its task and dependencies, then the cursor. */
    method ProcessRemoval(j: nat, bySource: map<nat, nat>, budget: nat)
      returns (ok: bool, left: nat, bySource': map<nat, nat>)
      requires InPlanOrder(plan, tasks) && AtRemoval(plan, table.rows, tasks, state, j, bySource) && j < |plan.removals|
      modifies this
      ensures Valid() && left <= budget && (budget >= 3 ==> ok && left + 3 >= budget)
      ensures ok ==> AtRemoval(plan, table.rows, tasks, state, j + 1, bySource')
      ensures OwnTasksOnly(plan, old(tasks), tasks)
      ensures KeepsRecords(old(state), state)
    {
      ok, left, bySource' := false, budget, bySource;
      var record := state.removalRecords.value[j];
      ghost var before := tasks;
      var t;
      ok, left, t := EnqueueRemoval(j, left);
      if !ok { return; }
      RemovalStep(plan, table.rows, before, state, j, bySource, tasks, t);
      if record.source.Some? {
        bySource' := bySource[record.source.value := t];
      }
      if left == 0 { return false, 0, bySource'; }
      left := left - 1;
      state := state.(cursor := Some(record.id));
    }

    /** Where a new attempt takes up the removals. */
    method ResumeRemovals() returns (processed: nat, bySource: map<nat, nat>)
      requires Valid() && state.captureTask.Some? && state.removalTasks.None?
      ensures AtRemoval(plan, table.rows, tasks, state, processed, bySource)
      ensures processed == ResumeIndex(RecordIds(state.removalRecords.value), state.cursor)
    {
      var records := state.removalRecords.value;
      var pending;
      pending, processed := PendingAfterCursor(records, RecordIds(records), state.cursor);
      CursorIsDone(plan, table.rows, tasks, state);
      bySource := RebuildBySource(records, processed);
    }

    /** The pending removals, one after the other. */
    method ProcessRemovals(processed: nat, bySource: map<nat, nat>, budget: nat)
      returns (ok: bool, left: nat, bySource': map<nat, nat>)
      requires InPlanOrder(plan, tasks) && AtRemoval(plan, table.rows, tasks, state, processed, bySource)
      modifies this
      ensures Valid() && left <= budget
              && (budget >= 3 * |plan.removals| ==> ok && left + 3 * |plan.removals| >= budget)
      ensures ok ==> AtRemoval(plan, table.rows, tasks, state, |plan.removals|, bySource')
      ensures OwnTasksOnly(plan, old(tasks), tasks)
      ensures KeepsRecords(old(state), state)
    {
      ok, left, bySource' := true, budget, bySource;
      for j := processed to |plan.removals|
        invariant InPlanOrder(plan, tasks) && AtRemoval(plan, table.rows, tasks, state, j, bySource')
        invariant ok && left <= budget
        invariant budget >= 3 * |plan.removals| ==> left + 3 * (j - processed) >= budget
        invariant OwnTasksOnly(plan, old(tasks), tasks) && KeepsRecords(old(state), state)
      {
        ghost var before := tasks;
        ok, left, bySource' := ProcessRemoval(j, bySource', left);
        OwnTasksTransitive(plan, old(tasks), before, tasks);
        if !ok { return; }
      }
    }

    /** `removal_tasks_enqueued`: resumes after the cursor, and rebuilds the task of every source. */
    method EnqueueRemovals(budget: nat) returns (ok: bool, left: nat)
      requires Valid() && state.captureTask.Some?
      modifies this
      ensures Valid() && left <= budget
      ensures budget >= 3 * |plan.removals| + 1 ==> ok && left + 3 * |plan.removals| + 1 >= budget
      ensures ok ==> state.removalTasks.Some?
      ensures OwnTasksOnly(plan, old(tasks), tasks)
      ensures KeepsRecords(old(state), state)
    {
      ok, left := true, budget;
      if state.removalTasks.None? {
        var processed, bySource := ResumeRemovals();
        ok, left, bySource := ProcessRemovals(processed, bySource, left);
        if !ok || left == 0 { return false, left; }
        left := left - 1;
        CheckpointRemovalTasks(plan, table.rows, tasks, state, bySource);
        state := state.(removalTasks := Some(bySource));
      }
    }

    /** The removal tasks an apply waits for, looked up by the sources it overlapped. */
    method OverlapDependencies(k: nat) returns (deps: set<nat>)
      requires state.removalTasks.Some? && k < |plan.applies|
      requires TasksBySource(plan, tasks, state.removalTasks.value, |plan.removals|)
      ensures deps == OverlapTasks(plan, tasks, k)
    {
      var bySource, overlaps := state.removalTasks.value, plan.applies[k].overlaps;
      deps := {};
      for i := 0 to |overlaps|
        invariant deps == set s | s in overlaps[..i] && s in bySource :: bySource[s]
      {
        assert overlaps[..i + 1] == overlaps[..i] + [overlaps[i]];
        if overlaps[i] in bySource {
          deps := deps + {bySource[overlaps[i]]};
        }
      }
      assert overlaps[..|overlaps|] == overlaps;
      OverlapTasksBySource(plan, tasks, bySource, k);
    }

    /** One apply record: find or enqueue its task, then make it wait for capture, removals and predecessor. */
    method EnqueueApply(k: nat, previous: Option<nat>, budget: nat) returns (ok: bool, left: nat, t: nat)
      requires InPlanOrder(plan, tasks) && AtApply(plan, table.rows, tasks, state, k, previous) && k < |plan.applies|
      modifies this`tasks
      ensures Valid() && left <= budget && (budget >= 2 ==> ok && left + 2 >= budget)
      ensures ok ==> AtApply(plan, table.rows, tasks, state, k + 1, Some(t))
      ensures OwnTasksOnly(plan, old(tasks), tasks)
    {
      ghost var before := tasks;
      ok, left, t := FindOrEnqueueApply(k, previous, budget);
      if !ok { return; }
      if left == 0 { return false, 0, t; }
      left := left - 1;
      ghost var between := tasks;
      AddApplyEdges(k, previous, t);
      OwnTasksTransitive(plan, before, between, tasks);
    }

    method AddApplyEdges(k: nat, previous: Option<nat>, t: nat)
      requires InPlanOrder(plan, tasks) && AtApply(plan, table.rows, tasks, state, k, previous) && k < |plan.applies|
      requires TaskFor(tasks, ApplySubject(plan, k)) == Some(t) && t < |tasks| && Own(plan, tasks[t].subject)
      modifies this`tasks
      ensures InPlanOrder(plan, tasks) && AtApply(plan, table.rows, tasks, state, k + 1, Some(t))
      ensures OwnTasksOnly(plan, old(tasks), tasks)
    {
      var deps := ApplyDependencies(k, previous);
      ApplyStep(plan, table.rows, tasks, state, k, previous, t, deps);
      AddedIsOwn(plan, tasks, t, deps);
      AddedKeepsOrder(plan, tasks, t, deps);
      tasks := AddDependencies(tasks, t, deps);
    }

    method ApplyDependencies(k: nat, previous: Option<nat>) returns (deps: set<nat>)
      requires InPlanOrder(plan, tasks) && AtApply(plan, table.rows, tasks, state, k, previous) && k < |plan.applies|
      ensures deps == ApplyDeps(plan, tasks, k)
    {
      var overlapped := OverlapDependencies(k);
      deps := {state.captureTask.value} + overlapped + (if previous.Some? then {previous.value} else {});
    }

    method FindOrEnqueueApply(k: nat, previous: Option<nat>, budget: nat) returns (ok: bool, left: nat, t: nat)
      requires InPlanOrder(plan, tasks) && AtApply(plan, table.rows, tasks, state, k, previous) && k < |plan.applies|
      modifies this`tasks
      ensures InPlanOrder(plan, tasks) && AtApply(plan, table.rows, tasks, state, k, previous)
              && left <= budget
              && (budget >= 1 ==> ok && left + 1 >= budget)
      ensures ok ==> TaskFor(tasks, ApplySubject(plan, k)) == Some(t) && t < |tasks| && Own(plan, tasks[t].subject)
      ensures OwnTasksOnly(plan, old(tasks), tasks)
    {
      ok, left, t := false, budget, 0;
      var record := state.applyRecords.value[k];
      assert record.uuid == ApplyInstructions(plan.applies)[k].uuid;
      assert Own(plan, ApplySubject(plan, k));
      var found := FindExternalTask(record.id, record.uuid);
      if found.None? {
        if left == 0 { return; }
        left := left - 1;
        EnqueueApplyStep(plan, table.rows, tasks, state, k, previous);
        found := Some(|tasks|);
        tasks := tasks + [Task(InstructionOf(record.uuid), record.id, {})];
      }
      ok, t := true, found.value;
    }

    method ProcessApplies(budget: nat) returns (ok: bool, left: nat, applied: seq<nat>)
      requires Valid() && state.removalTasks.Some? && state.applyTasks.None?
      modifies this`tasks
      ensures Valid() && left <= budget && (budget >= 2 * |plan.applies| ==> ok && left + 2 * |plan.applies| >= budget)
      ensures ok ==> forall k :: 0 <= k < |plan.applies| ==> ApplyDone(plan, tasks, k)
      ensures OwnTasksOnly(plan, old(tasks), tasks)
    {
      ok, left, applied := true, budget, [];
      var previous: Option<nat> := None;
      for k := 0 to |plan.applies|
        invariant InPlanOrder(plan, tasks) && AtApply(plan, table.rows, tasks, state, k, previous)
        invariant ok && left <= budget
        invariant budget >= 2 * |plan.applies| ==> left + 2 * k >= budget
        invariant OwnTasksOnly(plan, old(tasks), tasks)
      {
        ghost var before := tasks;
        var t;
        ok, left, t := EnqueueApply(k, previous, left);
        OwnTasksTransitive(plan, old(tasks), before, tasks);
        if !ok { return; }
        applied := applied + [t];
        previous := Some(t);
      }
    }

    /** `apply_tasks_enqueued`: every attempt walks the whole chain again. */
    method EnqueueApplies(budget: nat) returns (ok: bool, left: nat)
      requires Valid() && state.removalTasks.Some?
      modifies this
      ensures Valid() && left <= budget
      ensures budget >= 2 * |plan.applies| + 1 ==> ok && left + 2 * |plan.applies| + 1 >= budget
      ensures ok ==> state.applyTasks.Some?
      ensures OwnTasksOnly(plan, old(tasks), tasks)
      ensures KeepsRecords(old(state), state)
    {
      ok, left := true, budget;
      if state.applyTasks.None? {
        var applied;
        ok, left, applied := ProcessApplies(left);
        if !ok || left == 0 { return false, left; }
        left := left - 1;
        CheckpointApplyTasks(plan, table.rows, tasks, state, applied);
        state := state.(applyTasks := Some(applied));
      }
    }

    /** How many effects an attempt can have at most. */
    function Effects(): nat
    {
      8 + 3 * |plan.removals| + 2 * |plan.applies|
    }

    /** The two recording steps. */
    method RecordRows(budget: nat) returns (ok: bool, left: nat)
      requires Valid()
      modifies this, table
      ensures Valid() && left <= budget && (budget >= 4 ==> ok && left + 4 >= budget)
      ensures ok ==> state.applyRecords.Some?
      ensures OnlyOwn(plan, old(table.rows), old(tasks), table.rows, tasks)
      ensures RowSteps(plan, old(table.rows), old(state), table.rows, state)
    {
      ok, left := RecordRemovalRows(budget);
      if !ok { return; }
      ghost var rows1, tasks1 := table.rows, tasks;
      ok, left := RecordApplyRows(left);
      OnlyOwnTransitive(plan, old(table.rows), old(tasks), rows1, tasks1, table.rows, tasks);
    }

    /** The three enqueueing steps. */
    method EnqueueTasks(budget: nat) returns (ok: bool, left: nat)
      requires Valid() && state.applyRecords.Some?
      modifies this
      ensures Valid()
      ensures budget >= 4 + 3 * |plan.removals| + 2 * |plan.applies| ==> ok
      ensures ok ==> state.applyTasks.Some?
      ensures OwnTasksOnly(plan, old(tasks), tasks)
      ensures KeepsRecords(old(state), state)
    {
      ok, left := EnqueueCapture(budget);
      if !ok { return; }
      ghost var tasks1 := tasks;
      ok, left := EnqueueRemovals(left);
      OwnTasksTransitive(plan, old(tasks), tasks1, tasks);
      if !ok { return; }
      ghost var tasks2 := tasks;
      ok, left := EnqueueApplies(left);
      OwnTasksTransitive(plan, old(tasks), tasks2, tasks);
    }

    /** One attempt of the handler that crashes after `budget` effects, or finishes. */
    method Attempt(budget: nat) returns (done: bool)
      requires Valid()
      modifies this, table
      ensures Valid()
      ensures done ==> state.applyTasks.Some? && Delivered(plan, table.rows, tasks)
      ensures budget >= Effects() ==> done
      ensures OnlyOwn(plan, old(table.rows), old(tasks), table.rows, tasks)
      ensures RowSteps(plan, old(table.rows), old(state), table.rows, state)
    {
      var left;
      done, left := RecordRows(budget);
      if !done { return; }
      ghost var rows1, tasks1 := table.rows, tasks;
      done, left := EnqueueTasks(left);
      OnlyOwnTransitive(plan, old(table.rows), old(tasks), rows1, tasks1, table.rows, tasks);
      if done {
        FinishedIsDelivered(plan, table.rows, tasks, state);
      }
    }

    /** Any number of crashes anywhere, then one attempt left alone: everything is delivered exactly once. */
    method RunToCompletion(crashes: seq<nat>)
      requires Valid()
      modifies this, table
      ensures Valid() && Delivered(plan, table.rows, tasks)
      ensures OnlyOwn(plan, old(table.rows), old(tasks), table.rows, tasks)
      ensures old(state) == NOTHING_DONE ==>
                table.rows == EnsureRows(EnsureRows(old(table.rows), plan.removals), ApplyInstructions(plan.applies))
      ensures (forall t :: 0 <= t < |old(tasks)| ==> !Own(plan, old(tasks)[t].subject)) ==>
                ExactQueue(plan, old(tasks), tasks)
    {
      ghost var rows0, state0 := table.rows, state;
      for i := 0 to |crashes|
        invariant Valid()
        invariant OnlyOwn(plan, old(table.rows), old(tasks), table.rows, tasks)
        invariant state0 == NOTHING_DONE ==> RowStage(plan, rows0, table.rows, state)
      {
        var _ := AttemptInStage(crashes[i], rows0, state0 == NOTHING_DONE);
      }
      var _ := AttemptInStage(Effects(), rows0, state0 == NOTHING_DONE);
      if forall t :: 0 <= t < |old(tasks)| ==> !Own(plan, old(tasks)[t].subject) {
        QueueIsExact(plan, old(table.rows), old(tasks), table.rows, tasks);
      }
    }

    /** An attempt, with how far the recording of rows has come since nothing was done. */
    method AttemptInStage(budget: nat, ghost rows0: seq<Row>, ghost staged: bool) returns (done: bool)
      requires Valid() && (staged ==> RowStage(plan, rows0, table.rows, state))
      modifies this, table
      ensures Valid() && (staged ==> RowStage(plan, rows0, table.rows, state))
      ensures done ==> state.applyTasks.Some? && Delivered(plan, table.rows, tasks)
      ensures budget >= Effects() ==> done
      ensures forall rows, ts ::
                OnlyOwn(plan, rows, ts, old(table.rows), old(tasks)) ==> OnlyOwn(plan, rows, ts, table.rows, tasks)
    {
      ghost var rows1, tasks1, state1 := table.rows, tasks, state;
      done := Attempt(budget);
      forall rows, ts | OnlyOwn(plan, rows, ts, rows1, tasks1) ensures OnlyOwn(plan, rows, ts, table.rows, tasks) {
        OnlyOwnTransitive(plan, rows, ts, rows1, tasks1, table.rows, tasks);
      }
      if staged {
        RowStageStep(plan, rows0, rows1, state1, table.rows, state);
      }
    }
  }

  lemma TasksBySourceStep(plan: Plan, tasks: seq<Task>, tasks': seq<Task>, m: map<nat, nat>, j: nat, t: nat)
    requires PlanOk(plan) && j < |plan.removals| && TasksBySource(plan, tasks, m, j)
    requires forall i :: 0 <= i < j ==>
             TaskFor(tasks', RemovalSubject(plan, i)) == TaskFor(tasks, RemovalSubject(plan, i))
    requires TaskFor(tasks', RemovalSubject(plan, j)) == Some(t)
    ensures plan.removals[j].source.Some?
    ensures TasksBySource(plan, tasks', m[plan.removals[j].source.value := t], j + 1)
  {
  }

  function RecordIds(records: seq<Record>): (r: seq<nat>)
    ensures |r| == |records|
    ensures forall j :: 0 <= j < |r| ==> r[j] == records[j].id
  {
    seq(|records|, j requires 0 <= j < |records| => records[j].id)
  }

  /** The records before the resume point have their tasks and dependencies. */
  lemma CursorIsDone(plan: Plan, rows: seq<Row>, tasks: seq<Task>, st: ActionState)
    requires Progress(plan, rows, tasks, st) && st.removalRecords.Some?
    ensures forall j :: 0 <= j < ResumeIndex(RecordIds(st.removalRecords.value), st.cursor) ==>
            RemovalDone(plan, tasks, j)
  {
    if st.cursor.Some? {
      var records := st.removalRecords.value;
      var m :| 0 <= m < |plan.removals| && records[m].id == st.cursor.value
               && forall j :: 0 <= j <= m ==> RemovalDone(plan, tasks, j);
      var ids := RecordIds(records);
      forall j | 0 <= j < m ensures ids[j] != st.cursor.value {
        assert rows[records[j].id].instr.uuid == plan.removals[j].uuid;
        assert rows[records[m].id].instr.uuid == plan.removals[m].uuid;
      }
      FirstOccurrence(ids, st.cursor.value, m);
    }
  }

  lemma OverlapTasksBySource(plan: Plan, tasks: seq<Task>, bySource: map<nat, nat>, k: nat)
    requires TasksBySource(plan, tasks, bySource, |plan.removals|) && k < |plan.applies|
    ensures OverlapTasks(plan, tasks, k) == set s | s in plan.applies[k].overlaps && s in bySource :: bySource[s]
  {
    forall t | t in OverlapTasks(plan, tasks, k)
      ensures t in set s | s in plan.applies[k].overlaps && s in bySource :: bySource[s]
    {
      var j :| 0 <= j < |plan.removals| && plan.removals[j].source.Some?
               && plan.removals[j].source.value in plan.applies[k].overlaps
               && TaskFor(tasks, RemovalSubject(plan, j)) == Some(t);
      assert bySource[plan.removals[j].source.value] == t;
    }
    forall s | s in plan.applies[k].overlaps && s in bySource ensures bySource[s] in OverlapTasks(plan, tasks, k) {
      var j :| 0 <= j < |plan.removals| && plan.removals[j].source == Some(s);
      assert TaskFor(tasks, RemovalSubject(plan, j)) == Some(bySource[s]);
    }
  }
}
