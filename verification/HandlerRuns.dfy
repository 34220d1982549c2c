/**
 What crashing handlers do to the rows is a run of the instruction protocol, so its theorems apply; and
 what a run does for other tasks is what the handlers put up with between two attempts.
 */
module HandlerRuns {
  import opened BookingRules
  import opened InstructionProtocol
  import opened ProtocolInvariant
  import opened DispatchPlan
  import opened DispatchHandler
  import opened ProtocolTheorems
  import opened GenerationPlan
  import RollbackHandler

  lemma RunOfOne(s: State, step: Step)
    requires Enabled(s, step)
    ensures Run(s, [step], Next(s, step))
  {
    assert Run(Next(s, step), [], Next(s, step));
  }

  lemma RunOfTwo(s: State, first: Step, second: Step)
    requires Enabled(s, first) && Enabled(Next(s, first), second)
    ensures Run(s, [first, second], Next(Next(s, first), second))
  {
    RunOfOne(Next(s, first), second);
    assert [first, second][1..] == [second];
  }

  /** The protocol state agrees with what a generation's handler has checkpointed; recorded applies end the flight. */
  ghost predicate Tracks(s: State, task: nat, plan: Plan, rows: seq<Row>, st: ActionState) {
    && s.rows == rows
    && (st.applyRecords.Some? ==> task !in s.flights)
    && (st.applyRecords.None? ==>
          && task in s.flights
          && s.flights[task] == Flight(plan.removals, ApplyInstructions(plan.applies), st.removalRecords.Some?))
  }

  /** The rows an attempt leaves behind, cut short anywhere, are those of a run of the protocol. */
  lemma AttemptIsARun(
    s: State, task: nat, plan: Plan, rows: seq<Row>, st: ActionState, rows': seq<Row>, st': ActionState)
    returns (steps: seq<Step>, t: State)
    requires Tracks(s, task, plan, rows, st) && RowSteps(plan, rows, st, rows', st')
    requires st.applyRecords.Some? ==> st.removalRecords.Some?
    ensures Run(s, steps, t) && Tracks(t, task, plan, rows', st')
  {
    if rows' == rows && KeepsRecords(st, st') {
      steps, t := [], s;
    } else if st.removalRecords.None? && rows' == EnsureRows(rows, plan.removals)
        && st'.applyRecords == st.applyRecords {
      var record := RecordRemovals(task, st'.removalRecords.Some?);
      RunOfOne(s, record);
      steps, t := [record], Next(s, record);
    } else {
      var record, apply := RecordRemovals(task, true), RecordApplies(task, st'.applyRecords.Some?);
      if st.removalRecords.None? {
        RunOfTwo(s, record, apply);
        steps, t := [record, apply], Next(Next(s, record), apply);
      } else {
        RunOfOne(s, apply);
        steps, t := [apply], Next(s, apply);
      }
    }
  }

  /** An attempt of a generation's handler keeps the invariant of the protocol wherever it crashes. */
  lemma AttemptKeepsInv(
    s: State, task: nat, plan: Plan, rows: seq<Row>, st: ActionState, rows': seq<Row>, st': ActionState)
    returns (t: State)
    requires Inv(s) && Tracks(s, task, plan, rows, st) && RowSteps(plan, rows, st, rows', st')
    requires st.applyRecords.Some? ==> st.removalRecords.Some?
    ensures Inv(t) && Tracks(t, task, plan, rows', st')
  {
    var steps;
    steps, t := AttemptIsARun(s, task, plan, rows, st, rows', st');
    RunKeepsInv(s, steps, t);
  }

  /** Whatever an attempt of the rollback step leaves behind is a run too. */
  lemma RollbackAttemptIsARun(s: State, task: nat, plan: seq<Instruction>, rows': seq<Row>)
    returns (steps: seq<Step>, t: State)
    requires task in s.flights && s.flights[task] == Flight(plan, [], false)
    requires rows' == s.rows || rows' == EnsureRows(s.rows, plan)
    ensures Run(s, steps, t) && t.rows == rows' && t.flights == s.flights
    ensures Inv(s) ==> Inv(t)
  {
    if rows' == s.rows {
      steps, t := [], s;
    } else {
      var record := RecordRemovals(task, false);
      RunOfOne(s, record);
      steps, t := [record], Next(s, record);
    }
    if Inv(s) {
      RunKeepsInv(s, steps, t);
    }
  }

  // ----- where a handler starts -----

  /** The step that checkpoints a generation leaves the protocol where its handler starts. */
  lemma PlanningIsTracked(s: State, task: nat, booking: int, plans: seq<Instruction>, base: nat)
    ensures var s' := Next(s, PlanGeneration(task, plans, base, true));
            Tracks(s', task, CheckpointedPlan(s.rows, task, booking, plans, base), s'.rows, NOTHING_DONE)
  {
    assert ApplyInstructions(PlannedApplies(s.rows, plans)) == plans;
  }

  // ----- what goes on around it -----

  ghost predicate PlansUuid(plan: Plan, u: Uuid) {
    || (exists j :: 0 <= j < |plan.removals| && plan.removals[j].uuid == u)
    || (exists k :: 0 <= k < |plan.applies| && plan.applies[k].instr.uuid == u)
  }

  /** The plan's identifiers are random and spoken for, and no other flight plans one of them. */
  ghost predicate UuidsKept(s: State, task: nat, plan: Plan) {
    && (forall u :: PlansUuid(plan, u) ==> u.Random? && UsedUuid(s, u))
    && (forall t, x :: t in s.flights && t != task && Planned(s.flights[t], x) ==> !PlansUuid(plan, x.uuid))
  }

  /** The step is not one of `task`. */
  predicate ByOthers(step: Step, task: nat) {
    match step
    case PlanGeneration(t, _, _, _) => t != task
    case SearchOverlaps(t, _, _) => t != task
    case PlanBookingRemoval(t, _, _, _) => t != task
    case PlanRollback(t, _) => t != task
    case RecordRemovals(t, _) => t != task
    case RecordApplies(t, _) => t != task
    case Abandon(t) => t != task
    case _ => true
  }

  lemma PlannedIsUnused(s: State, task: nat, plans: seq<Instruction>, base: nat)
    requires Inv(s) && Admissible(s, task, plans, base) && SameListingDisjoint(plans)
    ensures var f := Flight(OverlapBlueprints(s.rows, plans, base, |s.rows|), plans, false);
            forall x :: Planned(f, x) ==> x.uuid.Random? && !UsedUuid(s, x.uuid)
  {
    var f := Flight(OverlapBlueprints(s.rows, plans, base, |s.rows|), plans, false);
    GenerationFlightIsOk(s, task, plans, base, f);
    OverlapBlueprintsMembers(s.rows, plans, base, |s.rows|);
  }

  lemma BookingIsUnused(s: State, booking: int, property: int, base: nat)
    requires Inv(s) && FreshFrom(s, [], base)
    ensures forall b :: b in BookingBlueprints(s.rows, booking, property, base, |s.rows|) ==> !UsedUuid(s, b.uuid)
  {
    BookingBlueprintsMembers(s.rows, booking, property, base, |s.rows|);
    forall b | b in BookingBlueprints(s.rows, booking, property, base, |s.rows|) ensures !UsedUuid(s, b.uuid) {
      var i: nat :| i < |s.rows| && SelectedForRemoval(s.rows[i], booking, property)
                    && b == BookingBlueprint(s.rows, base, i);
      BookingBlueprintIsOk(s, base, i);
    }
  }

  /** Planning a generation speaks for its identifiers. */
  lemma PlanningKeepsUuids(s: State, task: nat, booking: int, plans: seq<Instruction>, base: nat)
    requires Inv(s) && Enabled(s, PlanGeneration(task, plans, base, true))
    ensures UuidsKept(Next(s, PlanGeneration(task, plans, base, true)), task,
                      CheckpointedPlan(s.rows, task, booking, plans, base))
  {
    var s' := Next(s, PlanGeneration(task, plans, base, true));
    var plan := CheckpointedPlan(s.rows, task, booking, plans, base);
    PlannedIsUnused(s, task, plans, base);
    forall u | PlansUuid(plan, u) ensures u.Random? && UsedUuid(s', u) && !UsedUuid(s, u) {
      if j :| 0 <= j < |plan.removals| && plan.removals[j].uuid == u {
        assert Planned(s'.flights[task], plan.removals[j]);
      } else {
        var k :| 0 <= k < |plan.applies| && plan.applies[k].instr.uuid == u;
        assert plan.applies[k].instr == plans[k];
        assert Planned(s'.flights[task], plans[k]);
      }
    }
    forall t, x | t in s'.flights && t != task && Planned(s'.flights[t], x) ensures !PlansUuid(plan, x.uuid) {
      assert Planned(s.flights[t], x);
      assert UsedUuid(s, x.uuid);
    }
  }

  lemma RollbackIsNotRandom(rows: seq<Row>, booking: int, chainId: string, position: int, x: Instruction)
    requires x in RollbackBlueprints(rows, booking, chainId, position)
    ensures x.uuid.Rollback?
  {
    var blueprints := RollbackBlueprints(rows, booking, chainId, position);
    var i :| 0 <= i < |blueprints| && blueprints[i] == x;
  }

  /** What a flight of another task plans is not the plan's. */
  lemma OthersPlanOtherUuids(s: State, step: Step, task: nat, plan: Plan, t: nat, x: Instruction)
    requires Inv(s) && Enabled(s, step) && ByOthers(step, task) && UuidsKept(s, task, plan)
    requires t in Next(s, step).flights && t != task && Planned(Next(s, step).flights[t], x)
    ensures !PlansUuid(plan, x.uuid)
  {
    match step
    case PlanGeneration(t', plans, base, _) => PlannedIsUnused(s, t', plans, base);
    case SearchOverlaps(t', plans, base) => PlannedIsUnused(s, t', plans, base);
    case PlanBookingRemoval(_, booking, property, base) => BookingIsUnused(s, booking, property, base);
    case PlanRollback(t', failedId) =>
      if t == t' {
        var failed := s.rows[failedId].instr;
        RollbackIsNotRandom(s.rows, failed.key.booking, failed.chain.value.chainId, failed.chain.value.position, x);
      }
    case _ =>
  }

  lemma RowUuidStaysUsed(s: State, step: Step, i: nat)
    requires Inv(s) && Enabled(s, step) && i < |s.rows|
    ensures UsedUuid(Next(s, step), s.rows[i].instr.uuid)
  {
    StepEvolves(s, step);
    assert RowEvolves(s.rows, Next(s, step).rows, i);
    assert Next(s, step).rows[i].instr.uuid == s.rows[i].instr.uuid;
  }

  lemma OthersKeepFlight(s: State, step: Step, task: nat)
    requires ByOthers(step, task) && task in s.flights
    ensures task in Next(s, step).flights && Next(s, step).flights[task] == s.flights[task]
  {
  }

  lemma UuidStaysUsed(s: State, step: Step, task: nat, plan: Plan, u: Uuid)
    requires Inv(s) && Enabled(s, step) && ByOthers(step, task) && UuidsKept(s, task, plan) && PlansUuid(plan, u)
    ensures UsedUuid(Next(s, step), u)
  {
    assert UsedUuid(s, u);
    if i :| 0 <= i < |s.rows| && s.rows[i].instr.uuid == u {
      RowUuidStaysUsed(s, step, i);
    } else {
      var x := PlannedByTask(s, task, plan, u);
      OthersKeepFlight(s, step, task);
      assert Planned(Next(s, step).flights[task], x);
    }
  }

  lemma PlannedByTask(s: State, task: nat, plan: Plan, u: Uuid) returns (x: Instruction)
    requires UuidsKept(s, task, plan) && PlansUuid(plan, u)
    requires forall i :: 0 <= i < |s.rows| ==> s.rows[i].instr.uuid != u
    ensures task in s.flights && Planned(s.flights[task], x) && x.uuid == u
  {
    assert UsedUuid(s, u);
    var t: nat;
    t, x :| t in s.flights && Planned(s.flights[t], x) && x.uuid == u;
  }

  lemma OthersRecordOtherRows(s: State, step: Step, task: nat, plan: Plan)
    requires Inv(s) && Enabled(s, step) && ByOthers(step, task) && UuidsKept(s, task, plan)
    ensures |s.rows| <= |Next(s, step).rows|
    ensures forall i :: |s.rows| <= i < |Next(s, step).rows| ==> !PlansUuid(plan, Next(s, step).rows[i].instr.uuid)
  {
    match step
    case RecordRemovals(t, _) => OtherRows(s, t, task, plan, s.flights[t].blueprints);
    case RecordApplies(t, _) => OtherRows(s, t, task, plan, s.flights[t].applies);
    case _ =>
  }

  lemma OtherRows(s: State, t: nat, task: nat, plan: Plan, xs: seq<Instruction>)
    requires UuidsKept(s, task, plan) && t in s.flights && t != task
    requires forall x :: x in xs ==> Planned(s.flights[t], x)
    ensures |s.rows| <= |EnsureRows(s.rows, xs)|
    ensures forall i :: |s.rows| <= i < |EnsureRows(s.rows, xs)| ==>
                          !PlansUuid(plan, EnsureRows(s.rows, xs)[i].instr.uuid)
  {
    RollbackHandler.RecordingAddsPlannedRows(xs, s.rows, xs);
    forall i | |s.rows| <= i < |EnsureRows(s.rows, xs)| ensures !PlansUuid(plan, EnsureRows(s.rows, xs)[i].instr.uuid) {
      assert Planned(s.flights[t], EnsureRows(s.rows, xs)[i].instr);
    }
  }

  lemma OwnIsPlanned(plan: Plan, u: Uuid)
    ensures Own(plan, InstructionOf(u)) <==> PlansUuid(plan, u)
  {
    if Own(plan, InstructionOf(u)) {
      if j :| 0 <= j < |plan.removals| && InstructionOf(u) == RemovalSubject(plan, j) {
        assert plan.removals[j].uuid == u;
      } else {
        var k :| 0 <= k < |plan.applies| && InstructionOf(u) == ApplySubject(plan, k);
        assert plan.applies[k].instr.uuid == u;
      }
    }
    if PlansUuid(plan, u) {
      if j :| 0 <= j < |plan.removals| && plan.removals[j].uuid == u {
        assert InstructionOf(u) == RemovalSubject(plan, j);
      } else {
        var k :| 0 <= k < |plan.applies| && plan.applies[k].instr.uuid == u;
        assert InstructionOf(u) == ApplySubject(plan, k);
      }
    }
  }

  lemma OthersStepKeepsUuids(s: State, step: Step, task: nat, plan: Plan)
    requires Inv(s) && Enabled(s, step) && ByOthers(step, task) && UuidsKept(s, task, plan)
    ensures UuidsKept(Next(s, step), task, plan)
  {
    var s' := Next(s, step);
    forall u | PlansUuid(plan, u) ensures u.Random? && UsedUuid(s', u) {
      UuidStaysUsed(s, step, task, plan, u);
    }
    forall t, x | t in s'.flights && t != task && Planned(s'.flights[t], x) ensures !PlansUuid(plan, x.uuid) {
      OthersPlanOtherUuids(s, step, task, plan, t, x);
    }
  }

  lemma OthersStepIsAround(s: State, step: Step, task: nat, plan: Plan)
    requires Inv(s) && Enabled(s, step) && ByOthers(step, task) && UuidsKept(s, task, plan)
    ensures RowsAround(plan, s.rows, Next(s, step).rows)
  {
    var s' := Next(s, step);
    StepKeepsInv(s, step);
    StepEvolves(s, step);
    OthersRecordOtherRows(s, step, task, plan);
    forall i | 0 <= i < |s.rows|
      ensures s'.rows[i].instr.uuid == s.rows[i].instr.uuid && s'.rows[i].instr.source == s.rows[i].instr.source
    {
      assert RowEvolves(s.rows, s'.rows, i);
    }
    forall i | |s.rows| <= i < |s'.rows| ensures !Own(plan, InstructionOf(s'.rows[i].instr.uuid)) {
      OwnIsPlanned(plan, s'.rows[i].instr.uuid);
    }
  }

  lemma AroundTransitive(plan: Plan, a: seq<Row>, b: seq<Row>, c: seq<Row>)
    requires RowsAround(plan, a, b) && RowsAround(plan, b, c)
    ensures RowsAround(plan, a, c)
  {
    forall i | |a| <= i < |c| ensures !Own(plan, InstructionOf(c[i].instr.uuid)) {
      assert i < |b| ==> c[i].instr.uuid == b[i].instr.uuid;
    }
  }

  /** Whatever a run does for other tasks, the handler of a generation may find on its next attempt. */
  lemma {:induction false} OthersRunIsAround(s: State, steps: seq<Step>, t: State, task: nat, plan: Plan)
    requires Inv(s) && Run(s, steps, t) && UuidsKept(s, task, plan)
    requires forall i :: 0 <= i < |steps| ==> ByOthers(steps[i], task)
    ensures RowsAround(plan, s.rows, t.rows) && UuidsKept(t, task, plan)
    decreases |steps|
  {
    if steps == [] {
    } else {
      var s' := Next(s, steps[0]);
      StepKeepsInv(s, steps[0]);
      OthersStepKeepsUuids(s, steps[0], task, plan);
      OthersStepIsAround(s, steps[0], task, plan);
      OthersRunIsAround(s', steps[1..], t, task, plan);
      AroundTransitive(plan, s.rows, s'.rows, t.rows);
    }
  }
}
