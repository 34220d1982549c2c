/**
 Which rows of a generation are ever answered.  The external worker answers every instruction it runs,
 and fails its own task after answering `failed`.  The scheduler then fails everything that depends on a
 failed task, and what depends on that, without running it; such an instruction is never answered.
 */
module Settlement {
  import opened Collections
  import opened BookingRules
  import opened DispatchPlan
  import opened RollbackHandler

  /** `Refused` ran and answered `failed`; `Lost` failed before it could answer; `NotRun` never ran. */
  datatype End = Completed | Refused | Lost | NotRun

  predicate Answered(e: End) {
    e == Completed || e == Refused
  }

  ghost predicate Blocked(tasks: seq<Task>, ends: seq<End>, t: nat)
    requires t < |tasks| == |ends|
  {
    exists d :: d in tasks[t].deps && d < |tasks| && ends[d] != Completed
  }

  /** Every task has ended; a task did not run exactly when something it waits for did not complete. */
  ghost predicate AllEnded(tasks: seq<Task>, ends: seq<End>) {
    |ends| == |tasks| && forall t :: 0 <= t < |tasks| ==> (ends[t] == NotRun <==> Blocked(tasks, ends, t))
  }

  // ----- how the tasks of one generation ended -----

  ghost function CaptureEnd(plan: Plan, tasks: seq<Task>, ends: seq<End>): End
    requires |ends| == |tasks| && TaskFor(tasks, Capture(plan)).Some?
  {
    ends[TaskFor(tasks, Capture(plan)).value]
  }

  ghost function RemovalEnd(plan: Plan, tasks: seq<Task>, ends: seq<End>, j: nat): End
    requires |ends| == |tasks| && j < |plan.removals| && TaskFor(tasks, RemovalSubject(plan, j)).Some?
  {
    ends[TaskFor(tasks, RemovalSubject(plan, j)).value]
  }

  ghost function ApplyEnd(plan: Plan, tasks: seq<Task>, ends: seq<End>, k: nat): End
    requires |ends| == |tasks| && k < |plan.applies| && TaskFor(tasks, ApplySubject(plan, k)).Some?
  {
    ends[TaskFor(tasks, ApplySubject(plan, k)).value]
  }

  ghost predicate Ended(plan: Plan, rows: seq<Row>, tasks: seq<Task>, ends: seq<End>) {
    && PlanOk(plan) && Delivered(plan, rows, tasks) && AllEnded(tasks, ends)
    && (forall j :: 0 <= j < |plan.removals| ==> TaskFor(tasks, RemovalSubject(plan, j)).Some?)
    && (forall k :: 0 <= k < |plan.applies| ==> TaskFor(tasks, ApplySubject(plan, k)).Some?)
  }

  lemma DeliveredHasEnded(plan: Plan, rows: seq<Row>, tasks: seq<Task>, ends: seq<End>)
    requires PlanOk(plan) && Delivered(plan, rows, tasks) && AllEnded(tasks, ends)
    ensures Ended(plan, rows, tasks, ends)
  {
    forall j | 0 <= j < |plan.removals| ensures TaskFor(tasks, RemovalSubject(plan, j)).Some? {
      assert RemovalDone(plan, tasks, j);
    }
    forall k | 0 <= k < |plan.applies| ensures TaskFor(tasks, ApplySubject(plan, k)).Some? {
      assert ApplyDone(plan, tasks, k);
    }
  }

  /** A removal runs exactly when the capture completed. */
  lemma RemovalRunsIff(plan: Plan, rows: seq<Row>, tasks: seq<Task>, ends: seq<End>, j: nat)
    requires Ended(plan, rows, tasks, ends) && j < |plan.removals|
    ensures RemovalEnd(plan, tasks, ends, j) == NotRun <==> CaptureEnd(plan, tasks, ends) != Completed
  {
    assert RemovalDone(plan, tasks, j);
    var t := TaskFor(tasks, RemovalSubject(plan, j)).value;
    assert TaskFor(tasks, Capture(plan)).value in tasks[t].deps;
  }

  /** Some removal whose source apply `k` overlapped did not complete. */
  ghost predicate OverlapOpen(plan: Plan, tasks: seq<Task>, ends: seq<End>, k: nat)
    requires |ends| == |tasks| && k < |plan.applies|
    requires forall j :: 0 <= j < |plan.removals| ==> TaskFor(tasks, RemovalSubject(plan, j)).Some?
  {
    exists j :: 0 <= j < |plan.removals| && plan.removals[j].source.Some?
                && plan.removals[j].source.value in plan.applies[k].overlaps
                && RemovalEnd(plan, tasks, ends, j) != Completed
  }

  lemma OverlapOpenIff(plan: Plan, rows: seq<Row>, tasks: seq<Task>, ends: seq<End>, k: nat)
    requires Ended(plan, rows, tasks, ends) && k < |plan.applies|
    ensures OverlapOpen(plan, tasks, ends, k) <==>
            exists d :: d in OverlapTasks(plan, tasks, k) && d < |tasks| && ends[d] != Completed
  {
    if OverlapOpen(plan, tasks, ends, k) {
      var j :| 0 <= j < |plan.removals| && plan.removals[j].source.Some?
               && plan.removals[j].source.value in plan.applies[k].overlaps
               && RemovalEnd(plan, tasks, ends, j) != Completed;
      assert TaskFor(tasks, RemovalSubject(plan, j)).value in OverlapTasks(plan, tasks, k);
    }
    if d :| d in OverlapTasks(plan, tasks, k) && d < |tasks| && ends[d] != Completed {
      var j :| 0 <= j < |plan.removals| && plan.removals[j].source.Some?
               && plan.removals[j].source.value in plan.applies[k].overlaps
               && TaskFor(tasks, RemovalSubject(plan, j)) == Some(d);
      assert RemovalEnd(plan, tasks, ends, j) == ends[d];
    }
  }

  /** An apply runs exactly when capture, the removals it overlapped and the apply before it completed. */
  lemma ApplyRunsIff(plan: Plan, rows: seq<Row>, tasks: seq<Task>, ends: seq<End>, k: nat)
    requires Ended(plan, rows, tasks, ends) && k < |plan.applies|
    ensures ApplyEnd(plan, tasks, ends, k) == NotRun <==>
            || CaptureEnd(plan, tasks, ends) != Completed
            || OverlapOpen(plan, tasks, ends, k)
            || (k > 0 && ApplyEnd(plan, tasks, ends, k - 1) != Completed)
  {
    assert ApplyDone(plan, tasks, k);
    OverlapOpenIff(plan, rows, tasks, ends, k);
    var t := TaskFor(tasks, ApplySubject(plan, k)).value;
    assert tasks[t].deps == CaptureTasks(plan, tasks) + OverlapTasks(plan, tasks, k) + PreviousTask(plan, tasks, k);
    if Blocked(tasks, ends, t) {
      var d :| d in tasks[t].deps && d < |tasks| && ends[d] != Completed;
    }
    if CaptureEnd(plan, tasks, ends) != Completed {
      assert TaskFor(tasks, Capture(plan)).value in tasks[t].deps;
    }
    if k > 0 && ApplyEnd(plan, tasks, ends, k - 1) != Completed {
      assert TaskFor(tasks, ApplySubject(plan, k - 1)).value in tasks[t].deps;
    }
  }

  // ----- which rows settle -----

  /** Whether some removal an apply waits for did not complete. */
  datatype Gate = Clear | Held

  /** How a generation ended: capture, removals, and by position the applies and the gates they stood behind. */
  datatype Ending = Ending(capture: End, removals: seq<End>, applies: seq<End>, gates: seq<Gate>)

  ghost function EndingOf(plan: Plan, rows: seq<Row>, tasks: seq<Task>, ends: seq<End>): (e: Ending)
    requires Ended(plan, rows, tasks, ends)
    ensures |e.removals| == |plan.removals| && |e.applies| == |e.gates| == |plan.applies|
    ensures e.capture == CaptureEnd(plan, tasks, ends)
    ensures forall j :: 0 <= j < |e.removals| ==> e.removals[j] == RemovalEnd(plan, tasks, ends, j)
    ensures forall k :: 0 <= k < |e.applies| ==> e.applies[k] == ApplyEnd(plan, tasks, ends, k)
    ensures forall k :: 0 <= k < |e.gates| ==> (e.gates[k] == Held <==> OverlapOpen(plan, tasks, ends, k))
  {
    Ending(
      CaptureEnd(plan, tasks, ends),
      seq(|plan.removals|, j requires 0 <= j < |plan.removals| => RemovalEnd(plan, tasks, ends, j)),
      seq(|plan.applies|, k requires 0 <= k < |plan.applies| => ApplyEnd(plan, tasks, ends, k)),
      seq(|plan.applies|, k requires 0 <= k < |plan.applies| =>
        if OverlapOpen(plan, tasks, ends, k) then Held else Clear))
  }

  /** What the dependencies say: who runs depends on who completed. */
  ghost predicate Consistent(e: Ending) {
    && |e.gates| == |e.applies|
    && (forall j :: 0 <= j < |e.removals| ==> (e.removals[j] == NotRun <==> e.capture != Completed))
    && (forall k :: 0 <= k < |e.applies| ==> RunsOnTime(e, k))
  }

  /** Apply `k` did not run exactly when something it waits for did not complete. */
  ghost predicate RunsOnTime(e: Ending, k: nat)
    requires k < |e.applies| == |e.gates|
  {
    e.applies[k] == NotRun <==>
    e.capture != Completed || e.gates[k] == Held || (k > 0 && e.applies[k - 1] != Completed)
  }

  lemma EndingIsConsistent(plan: Plan, rows: seq<Row>, tasks: seq<Task>, ends: seq<End>)
    requires Ended(plan, rows, tasks, ends)
    ensures Consistent(EndingOf(plan, rows, tasks, ends))
  {
    var e := EndingOf(plan, rows, tasks, ends);
    forall j | 0 <= j < |e.removals| ensures e.removals[j] == NotRun <==> e.capture != Completed {
      RemovalRunsIff(plan, rows, tasks, ends, j);
    }
    forall k | 0 <= k < |e.applies| ensures RunsOnTime(e, k) {
      ApplyRunsIff(plan, rows, tasks, ends, k);
    }
  }

  /** An apply row settles by its own answer, or by the `failed` answer of an earlier position. */
  ghost predicate ApplySettles(e: Ending, k: nat)
    requires k < |e.applies|
  {
    Answered(e.applies[k]) || exists i :: 0 <= i < k && e.applies[i] == Refused
  }

  ghost predicate AllSettle(e: Ending) {
    && (forall j :: 0 <= j < |e.removals| ==> Answered(e.removals[j]))
    && (forall k :: 0 <= k < |e.applies| ==> ApplySettles(e, k))
  }

  /** Apply `k` is the first in the chain that did not complete. */
  ghost predicate FirstOpen(e: Ending, k: nat) {
    k < |e.applies| && e.applies[k] != Completed && forall i :: 0 <= i < k ==> e.applies[i] == Completed
  }

  /** Past the first apply that did not complete, none runs. */
  lemma {:induction false} NoneRunsPast(e: Ending, first: nat, k: nat)
    requires Consistent(e) && FirstOpen(e, first) && first < k < |e.applies|
    ensures e.applies[k] == NotRun
    decreases k
  {
    if first == k - 1 {
    } else {
      NoneRunsPast(e, first, k - 1);
    }
    assert RunsOnTime(e, k);
  }

  /** An apply row settles exactly when it completed or the first apply that did not complete was refused. */
  lemma ApplySettlesIff(e: Ending, first: nat, k: nat)
    requires Consistent(e) && FirstOpen(e, first) && k < |e.applies|
    ensures ApplySettles(e, k) <==> k < first || e.applies[first] == Refused
  {
    forall i | first < i < |e.applies| ensures e.applies[i] == NotRun {
      NoneRunsPast(e, first, i);
    }
  }

  lemma {:induction false} SomeFirstOpen(e: Ending, k: nat) returns (first: nat)
    requires k < |e.applies| && e.applies[k] != Completed
    ensures first <= k && FirstOpen(e, first)
    decreases k
  {
    if i :| 0 <= i < k && e.applies[i] != Completed {
      first := SomeFirstOpen(e, i);
    } else {
      first := k;
    }
  }

  /** With a first apply that did not complete, the apply rows all settle exactly when it was refused. */
  lemma AppliesSettleIff(e: Ending, first: nat)
    requires Consistent(e) && FirstOpen(e, first)
    ensures (forall k :: 0 <= k < |e.applies| ==> ApplySettles(e, k)) <==> e.applies[first] == Refused
  {
    forall k | 0 <= k < |e.applies| ensures ApplySettles(e, k) <==> k < first || e.applies[first] == Refused {
      ApplySettlesIff(e, first, k);
    }
    assert ApplySettles(e, first) <==> e.applies[first] == Refused;
  }

  /**
   Every row of a generation settles exactly when its capture completed, no removal was lost, and the
   first apply that did not complete, if any, had all its overlapped removals completed and was not lost.
   */
  lemma GenerationSettlesIff(plan: Plan, rows: seq<Row>, tasks: seq<Task>, ends: seq<End>)
    requires Ended(plan, rows, tasks, ends) && plan.applies != []
    ensures var e := EndingOf(plan, rows, tasks, ends);
            AllSettle(e) <==>
            && e.capture == Completed
            && (forall j :: 0 <= j < |e.removals| ==> e.removals[j] != Lost)
            && (forall k :: 0 <= k < |e.applies| && FirstOpen(e, k) ==> e.gates[k] == Clear && e.applies[k] != Lost)
  {
    var e := EndingOf(plan, rows, tasks, ends);
    EndingIsConsistent(plan, rows, tasks, ends);
    EndingSettlesIff(e);
  }

  lemma EndingSettlesIff(e: Ending)
    requires Consistent(e) && e.applies != []
    ensures AllSettle(e) <==>
            && e.capture == Completed
            && (forall j :: 0 <= j < |e.removals| ==> e.removals[j] != Lost)
            && (forall k :: 0 <= k < |e.applies| && FirstOpen(e, k) ==> e.gates[k] == Clear && e.applies[k] != Lost)
  {
    assert RunsOnTime(e, 0);
    if k :| 0 <= k < |e.applies| && e.applies[k] != Completed {
      var first := SomeFirstOpen(e, k);
      AppliesSettleIff(e, first);
      assert forall i :: 0 <= i < |e.applies| && FirstOpen(e, i) ==> i == first;
      assert RunsOnTime(e, first);
      assert first > 0 ==> e.applies[first - 1] == Completed;
    } else {
      assert forall i :: 0 <= i < |e.applies| ==> e.applies[i] == Completed;
      assert forall i :: 0 <= i < |e.applies| ==> ApplySettles(e, i);
    }
  }

  /**
   If the first apply that did not complete never ran, its row and all later ones stay `processing`, while
   every earlier one completed: no answer ever tells the worker to roll those back.
   */
  lemma StuckChain(e: Ending, first: nat, k: nat)
    requires Consistent(e) && FirstOpen(e, first) && e.applies[first] == NotRun && k < |e.applies|
    ensures if k < first then e.applies[k] == Completed else !ApplySettles(e, k)
  {
    ApplySettlesIff(e, first, k);
  }

  // ----- rollbacks -----

  ghost function RollbackEnd(plan: seq<Instruction>, tasks: seq<Task>, ends: seq<End>, j: nat): End
    requires |ends| == |tasks| && j < |plan| && TaskFor(tasks, RollbackSubject(plan, j)).Some?
  {
    ends[TaskFor(tasks, RollbackSubject(plan, j)).value]
  }

  ghost predicate RollbacksEnded(plan: seq<Instruction>, rows: seq<Row>, tasks: seq<Task>, ends: seq<End>) {
    && RollbacksDelivered(plan, rows, tasks) && AllEnded(tasks, ends)
    && forall j :: 0 <= j < |plan| ==> TaskFor(tasks, RollbackSubject(plan, j)).Some?
  }

  /** A rollback runs exactly when it is the first or the one before it completed. */
  lemma RollbackRunsIff(plan: seq<Instruction>, rows: seq<Row>, tasks: seq<Task>, ends: seq<End>, j: nat)
    requires RollbacksEnded(plan, rows, tasks, ends) && j < |plan|
    ensures RollbackEnd(plan, tasks, ends, j) == NotRun <==> j > 0 && RollbackEnd(plan, tasks, ends, j - 1) != Completed
  {
    assert RollbackDone(plan, tasks, j);
    var t := TaskFor(tasks, RollbackSubject(plan, j)).value;
    assert tasks[t].deps == RollbackDeps(plan, tasks, j);
    if j > 0 {
      assert TaskFor(tasks, RollbackSubject(plan, j - 1)).value in tasks[t].deps;
    }
  }

  /** Task `j` of a line did not run exactly when the one before it did not complete. */
  ghost predicate InLine(e: seq<End>, j: nat)
    requires j < |e|
  {
    e[j] == NotRun <==> j > 0 && e[j - 1] != Completed
  }

  ghost predicate LineAnswered(e: seq<End>) {
    forall j :: 0 <= j < |e| ==> Answered(e[j])
  }

  /** All but the last completed, and the last was not lost. */
  ghost predicate LineCompletes(e: seq<End>) {
    (forall j :: 0 <= j < |e| - 1 ==> e[j] == Completed) && (e != [] ==> e[|e| - 1] != Lost)
  }

  lemma LineSettlesIff(e: seq<End>)
    requires forall j :: 0 <= j < |e| ==> InLine(e, j)
    ensures LineAnswered(e) <==> LineCompletes(e)
  {
    if LineAnswered(e) {
      forall j | 0 <= j < |e| - 1 ensures e[j] == Completed {
        assert InLine(e, j + 1);
      }
    }
    if e != [] {
      assert InLine(e, |e| - 1);
    }
  }

  ghost function RollbackEnds(plan: seq<Instruction>, rows: seq<Row>, tasks: seq<Task>, ends: seq<End>): (e: seq<End>)
    requires RollbacksEnded(plan, rows, tasks, ends)
    ensures |e| == |plan| && forall j :: 0 <= j < |e| ==> e[j] == RollbackEnd(plan, tasks, ends, j)
  {
    seq(|plan|, j requires 0 <= j < |plan| => RollbackEnd(plan, tasks, ends, j))
  }

  /** Every rollback row is answered exactly when all rollbacks but the last completed and the last was not lost. */
  lemma RollbacksSettleIff(plan: seq<Instruction>, rows: seq<Row>, tasks: seq<Task>, ends: seq<End>)
    requires RollbacksEnded(plan, rows, tasks, ends)
    ensures LineAnswered(RollbackEnds(plan, rows, tasks, ends)) <==>
            LineCompletes(RollbackEnds(plan, rows, tasks, ends))
  {
    var e := RollbackEnds(plan, rows, tasks, ends);
    forall j | 0 <= j < |e| ensures InLine(e, j) {
      RollbackRunsIff(plan, rows, tasks, ends, j);
    }
    LineSettlesIff(e);
  }
}
