/**
 One linked-listing chain as a saga: apply callbacks arrive in chain order, a failure fails the rest
 of the chain and rolls back what was applied.  Anything else may happen to the table meanwhile as
 long as it leaves this chain's rows and their removals alone.
 */
module ChainSaga {
  import opened Collections
  import opened BookingRules
  import opened InstructionProtocol
  import opened ProtocolInvariant

  datatype Chain = Chain(booking: int, chainId: string, ids: seq<nat>)

  /** `failed` is the row whose callback failed; `plan` and `recorded` are that callback's checkpoints. */
  datatype Saga = Saga(rows: seq<Row>, failed: Option<nat>, plan: Option<seq<Instruction>>, recorded: bool)

  datatype SagaStep =
    | Answer(callback: Callback)
    | Rerun(callback: Callback)
    | PlanRollbacks
    | RecordRollbacks(checkpointed: bool)
    | Outside(rows: seq<Row>)

  /** `c.ids[k]` is the chain's row at position `k + 1`, and the chain has no other rows. */
  ghost predicate ChainRows(rows: seq<Row>, c: Chain) {
    && (forall k :: 0 <= k < |c.ids| ==>
                      && c.ids[k] < |rows|
                      && InChain(rows[c.ids[k]], c.booking, c.chainId)
                      && rows[c.ids[k]].instr.chain.value.position == k + 1)
    && (forall i :: 0 <= i < |rows| && InChain(rows[i], c.booking, c.chainId) ==> i in c.ids)
  }

  ghost predicate RemovesChainRow(r: Row, c: Chain) {
    r.instr.remove && r.instr.source.Some? && r.instr.source.value in c.ids
  }

  ghost predicate RemovesRow(r: Row, id: nat) {
    r.instr.remove && r.instr.source == Some(id)
  }

  /** Row `r` belongs to the chain or removes one of its rows. */
  ghost predicate Touches(r: Row, c: Chain) {
    InChain(r, c.booking, c.chainId) || RemovesChainRow(r, c)
  }

  ghost predicate OutsideChange(rows: seq<Row>, rows': seq<Row>, c: Chain) {
    && RowsOk(rows') && |rows| <= |rows'|
    && (forall i :: 0 <= i < |rows| && (Touches(rows[i], c) || Touches(rows'[i], c)) ==> rows'[i] == rows[i])
    && (forall i :: |rows| <= i < |rows'| ==> !Touches(rows'[i], c))
  }

  /** The dependency edges hold back the task at one position until all earlier ones have applied. */
  ghost predicate InChainOrder(rows: seq<Row>, c: Chain, p: Callback) {
    forall k, j :: 0 <= j < k < |c.ids| && p.id == c.ids[k] && Classify(rows, p) == Updated && c.ids[j] < |rows| ==>
                     rows[c.ids[j]].status == Applied
  }

  ghost predicate SagaEnabled(s: Saga, step: SagaStep, c: Chain) {
    match step
    case Answer(p) =>
      && Echoes(s.rows, p)
      && InChainOrder(s.rows, c, p)
    case Rerun(p) =>
      MayReplay(s.rows, p) && Touches(s.rows[p.id], c) && s.rows[p.id].status == StatusAfter(p)
    case PlanRollbacks => s.failed.Some? && s.failed.value in c.ids && s.plan.None?
    case RecordRollbacks(_) => s.plan.Some? && !s.recorded
    case Outside(rows) => OutsideChange(s.rows, rows, c)
  }

  ghost function SagaNext(s: Saga, step: SagaStep, c: Chain): Saga {
    match step
    case Answer(p) =>
      var fails := Classify(s.rows, p) == Updated && !p.success && InChain(s.rows[p.id], c.booking, c.chainId);
      s.(rows := Deliver(s.rows, p), failed := if fails then Some(p.id) else s.failed)
    case Rerun(p) =>
      if p.id < |s.rows| then s.(rows := StatusUpdate(s.rows, p)) else s
    case PlanRollbacks =>
      if s.failed.Some? && s.failed.value < |s.rows| && s.rows[s.failed.value].instr.chain.Some? then
        s.(plan := Some(RollbackBlueprints(s.rows, c.booking, c.chainId,
                                           s.rows[s.failed.value].instr.chain.value.position)))
      else s
    case RecordRollbacks(checkpointed) =>
      if s.plan.Some? then s.(rows := EnsureRows(s.rows, s.plan.value), recorded := checkpointed) else s
    case Outside(rows) => s.(rows := rows)
  }

  ghost predicate SagaRun(s: Saga, steps: seq<SagaStep>, t: Saga, c: Chain)
    decreases |steps|
  {
    if steps == [] then s == t
    else SagaEnabled(s, steps[0], c) && SagaRun(SagaNext(s, steps[0], c), steps[1..], t, c)
  }

  // ----- the phases of a chain -----

  datatype Phase = Running(k: nat) | Failing(k: nat) | RolledBack(k: nat)

  ghost predicate NoRemovals(rows: seq<Row>, c: Chain) {
    forall r :: 0 <= r < |rows| ==> !RemovesChainRow(rows[r], c)
  }

  /** The full-date rollback of the row at index `j`. */
  ghost function RollbackOf(rows: seq<Row>, c: Chain, j: nat): Instruction
    requires j < |c.ids| && c.ids[j] < |rows|
  {
    RollbackRemoval(rows, c.chainId, Placed(c.ids[j], j + 1))
  }

  /** Row `r` removes exactly the row at some index before `k`, in full, and agrees with its status. */
  ghost predicate IsRollback(rows: seq<Row>, c: Chain, k: nat, r: nat)
    requires ChainRows(rows, c) && k <= |c.ids| && r < |rows|
  {
    exists j :: 0 <= j < k && rows[r].instr == RollbackOf(rows, c, j)
                && (rows[r].status == Removed <==> rows[c.ids[j]].status == Removed)
  }

  ghost predicate InPhase(s: Saga, c: Chain, phase: Phase)
    requires ChainRows(s.rows, c)
  {
    match phase
    case Running(k) =>
      && k <= |c.ids| && s.failed.None? && s.plan.None? && !s.recorded && NoRemovals(s.rows, c)
      && (forall j :: 0 <= j < |c.ids| ==> s.rows[c.ids[j]].status == if j < k then Applied else Processing)
    case Failing(k) =>
      && k < |c.ids| && s.failed == Some(c.ids[k]) && !s.recorded && NoRemovals(s.rows, c)
      && (forall j :: 0 <= j < |c.ids| ==> s.rows[c.ids[j]].status == if j < k then Applied else Failed)
      && (s.plan.Some? ==> PlanIsRight(s.rows, s.plan.value, c, k))
    case RolledBack(k) =>
      && k < |c.ids| && s.failed == Some(c.ids[k])
      && s.plan.Some? && PlanIsRight(s.rows, s.plan.value, c, k)
      && RollbacksStand(s.rows, c, k)
  }

  /** From index `k` on the chain has failed; before it, each row has its rollback and no other removal. */
  ghost predicate RollbacksStand(rows: seq<Row>, c: Chain, k: nat)
    requires ChainRows(rows, c) && k <= |c.ids|
  {
    && (forall j :: k <= j < |c.ids| ==> rows[c.ids[j]].status == Failed)
    && (forall j :: 0 <= j < k ==>
                      && (rows[c.ids[j]].status == Applied || rows[c.ids[j]].status == Removed)
                      && FindByUuid(rows, Rollback(c.chainId, c.ids[j]), |rows|).Some?)
    && (forall r :: 0 <= r < |rows| && RemovesChainRow(rows[r], c) ==> IsRollback(rows, c, k, r))
  }

  /** The plan is one full-date removal for each index before `k`, and nothing else. */
  ghost predicate PlanIsRight(rows: seq<Row>, plan: seq<Instruction>, c: Chain, k: nat)
    requires ChainRows(rows, c) && k <= |c.ids|
  {
    && (forall b :: b in plan ==> exists j :: 0 <= j < k && b == RollbackOf(rows, c, j))
    && (forall j :: 0 <= j < k ==> RollbackOf(rows, c, j) in plan)
  }

  ghost predicate SagaInv(s: Saga, c: Chain, phase: Phase) {
    RowsOk(s.rows) && ChainRows(s.rows, c) && InPhase(s, c, phase)
  }

  // ----- activity outside the chain -----

  lemma OutsideKeepsChainRows(rows: seq<Row>, rows': seq<Row>, c: Chain)
    requires ChainRows(rows, c) && OutsideChange(rows, rows', c)
    ensures ChainRows(rows', c)
    ensures forall k :: 0 <= k < |c.ids| ==> rows'[c.ids[k]] == rows[c.ids[k]]
  {
    forall k | 0 <= k < |c.ids| ensures rows'[c.ids[k]] == rows[c.ids[k]] {
      assert Touches(rows[c.ids[k]], c);
    }
    forall i | 0 <= i < |rows'| && InChain(rows'[i], c.booking, c.chainId) ensures i < |rows| && rows'[i] == rows[i] {
      assert Touches(rows'[i], c);
    }
  }

  lemma OutsideKeepsNoRemovals(rows: seq<Row>, rows': seq<Row>, c: Chain)
    requires NoRemovals(rows, c) && OutsideChange(rows, rows', c)
    ensures NoRemovals(rows', c)
  {
    forall r | 0 <= r < |rows'| ensures !RemovesChainRow(rows'[r], c) {
      if RemovesChainRow(rows'[r], c) {
        assert Touches(rows'[r], c);
        assert false;
      }
    }
  }

  lemma SamePlan(rows: seq<Row>, rows': seq<Row>, plan: seq<Instruction>, c: Chain, k: nat)
    requires ChainRows(rows, c) && ChainRows(rows', c) && k <= |c.ids| && PlanIsRight(rows, plan, c, k)
    requires forall j :: 0 <= j < |c.ids| ==> rows'[c.ids[j]].instr == rows[c.ids[j]].instr
    ensures PlanIsRight(rows', plan, c, k)
  {
    forall j | 0 <= j < k ensures RollbackOf(rows', c, j) == RollbackOf(rows, c, j) {
    }
    forall b | b in plan ensures exists j :: 0 <= j < k && b == RollbackOf(rows', c, j) {
      var j :| 0 <= j < k && b == RollbackOf(rows, c, j);
      assert b == RollbackOf(rows', c, j);
    }
  }

  /** A rollback row stays findable as long as the chain's removal rows are left alone. */
  lemma StillFound(rows: seq<Row>, rows': seq<Row>, c: Chain, j: nat)
    requires RowsOk(rows) && ChainRows(rows, c) && j < |c.ids| && |rows| <= |rows'|
    requires forall i :: 0 <= i < |rows| && RemovesChainRow(rows[i], c) ==> rows'[i].instr == rows[i].instr
    requires FindByUuid(rows, Rollback(c.chainId, c.ids[j]), |rows|).Some?
    ensures FindByUuid(rows', Rollback(c.chainId, c.ids[j]), |rows'|).Some?
  {
    var r := FindByUuid(rows, Rollback(c.chainId, c.ids[j]), |rows|).value;
    assert RowOk(rows, r);
    assert RemovesChainRow(rows[r], c);
    assert rows'[r].instr.uuid == Rollback(c.chainId, c.ids[j]);
  }

  lemma OutsideKeepsRollbacks(rows: seq<Row>, rows': seq<Row>, c: Chain, k: nat)
    requires ChainRows(rows, c) && ChainRows(rows', c) && OutsideChange(rows, rows', c) && k <= |c.ids|
    requires forall j :: 0 <= j < |c.ids| ==> rows'[c.ids[j]] == rows[c.ids[j]]
    requires forall r :: 0 <= r < |rows| && RemovesChainRow(rows[r], c) ==> IsRollback(rows, c, k, r)
    ensures forall r :: 0 <= r < |rows'| && RemovesChainRow(rows'[r], c) ==> IsRollback(rows', c, k, r)
  {
    forall r | 0 <= r < |rows'| && RemovesChainRow(rows'[r], c) ensures IsRollback(rows', c, k, r) {
      assert Touches(rows'[r], c);
      assert IsRollback(rows, c, k, r);
      var j :| 0 <= j < k && rows[r].instr == RollbackOf(rows, c, j)
               && (rows[r].status == Removed <==> rows[c.ids[j]].status == Removed);
      assert rows'[r].instr == RollbackOf(rows', c, j);
    }
  }

  lemma OutsideKeepsInv(s: Saga, rows': seq<Row>, c: Chain, phase: Phase)
    requires SagaInv(s, c, phase) && OutsideChange(s.rows, rows', c)
    ensures SagaInv(s.(rows := rows'), c, phase)
  {
    OutsideKeepsChainRows(s.rows, rows', c);
    match phase
    case Running(k) => OutsideKeepsNoRemovals(s.rows, rows', c);
    case Failing(k) =>
      OutsideKeepsNoRemovals(s.rows, rows', c);
      if s.plan.Some? {
        SamePlan(s.rows, rows', s.plan.value, c, k);
      }
    case RolledBack(k) =>
      SamePlan(s.rows, rows', s.plan.value, c, k);
      OutsideKeepsRollbacks(s.rows, rows', c, k);
      forall i | 0 <= i < |s.rows| && RemovesChainRow(s.rows[i], c) ensures rows'[i].instr == s.rows[i].instr {
        assert Touches(s.rows[i], c);
      }
      forall j | 0 <= j < k ensures FindByUuid(rows', Rollback(c.chainId, c.ids[j]), |rows'|).Some? {
        StillFound(s.rows, rows', c, j);
      }
  }

  // ----- callbacks -----

  /** A callback for a row that neither belongs to the chain nor removes from it leaves it alone. */
  lemma ForeignCallbackIsOutside(rows: seq<Row>, p: Callback, c: Chain)
    requires RowsOk(rows) && RowsOk(Deliver(rows, p)) && ChainRows(rows, c)
    requires p.id < |rows| && p.source.Some? ==> p.source == rows[p.id].instr.source
    requires p.id < |rows| ==> !Touches(rows[p.id], c)
    ensures OutsideChange(rows, Deliver(rows, p), c)
  {
    if Classify(rows, p) == Updated {
      ForeignUpdateIsOutside(rows, p, c);
    }
  }

  /** The step leaves the chain's rows and their removals alone: it names, records or answers none of them. */
  ghost predicate Foreign(s: State, step: Step, c: Chain) {
    match step
    case PlanGeneration(_, plans, _, _) =>
      forall i :: 0 <= i < |s.rows| && Overlapped(s.rows[i], plans) ==> !Touches(s.rows[i], c)
    case ReserveOverlaps(ids) =>
      forall i :: 0 <= i < |s.rows| && i in ids ==> !Touches(s.rows[i], c)
    case RecordRemovals(task, _) =>
      task in s.flights ==> forall b :: b in s.flights[task].blueprints ==> !Touches(Row(Processing, b), c)
    case RecordApplies(task, _) =>
      task in s.flights ==> forall a :: a in s.flights[task].applies ==> !Touches(Row(Processing, a), c)
    case Receive(p) => p.id < |s.rows| ==> !Touches(s.rows[p.id], c)
    case Replay(p) => p.id < |s.rows| ==> !Touches(s.rows[p.id], c)
    case _ => true
  }

  lemma {:induction false} ForeignRowsAreOutside(rows: seq<Row>, xs: seq<Instruction>, c: Chain)
    requires forall x :: x in xs ==> !Touches(Row(Processing, x), c)
    ensures var rows' := EnsureRows(rows, xs);
            && |rows| <= |rows'|
            && (forall i :: 0 <= i < |rows| ==> rows'[i] == rows[i])
            && (forall i :: |rows| <= i < |rows'| ==> !Touches(rows'[i], c))
    decreases |xs|
  {
    if xs == [] {
    } else {
      ForeignRowsAreOutside(EnsureRow(rows, xs[0]), xs[1..], c);
    }
  }

  lemma ForeignUpdateIsOutside(rows: seq<Row>, p: Callback, c: Chain)
    requires RowsOk(rows) && ChainRows(rows, c) && MayReplay(rows, p)
    requires RowsOk(StatusUpdate(rows, p)) && !Touches(rows[p.id], c)
    ensures OutsideChange(rows, StatusUpdate(rows, p), c)
  {
    var rows' := StatusUpdate(rows, p);
    assert RowOk(rows, p.id);
    assert rows[p.id].instr.remove ==> !Touches(rows[rows[p.id].instr.source.value], c);
    forall i | 0 <= i < |rows| && (Touches(rows[i], c) || Touches(rows'[i], c)) ensures rows'[i] == rows[i] {
      assert RowOk(rows, i);
    }
  }

  lemma ForeignReserveIsOutside(rows: seq<Row>, ids: set<nat>, c: Chain)
    requires RowsOk(Reserve(rows, ids)) && forall i :: 0 <= i < |rows| && i in ids ==> !Touches(rows[i], c)
    ensures OutsideChange(rows, Reserve(rows, ids), c)
  {
  }

  /** A step of the protocol that is foreign to a chain is outside activity of its saga. */
  lemma ForeignStepIsOutside(s: State, step: Step, c: Chain)
    requires Inv(s) && Enabled(s, step) && ChainRows(s.rows, c) && Foreign(s, step, c)
    ensures OutsideChange(s.rows, Next(s, step).rows, c)
  {
    assert RowsOk(Next(s, step).rows) by {
      StepKeepsInv(s, step);
    }
    match step
    case PlanGeneration(_, plans, _, _) => ForeignReserveIsOutside(s.rows, OverlappedIds(s.rows, plans), c);
    case ReserveOverlaps(ids) => ForeignReserveIsOutside(s.rows, ids, c);
    case RecordRemovals(task, _) => ForeignRowsAreOutside(s.rows, s.flights[task].blueprints, c);
    case RecordApplies(task, _) => ForeignRowsAreOutside(s.rows, s.flights[task].applies, c);
    case Receive(p) => ForeignCallbackIsOutside(s.rows, p, c);
    case Replay(p) => ForeignUpdateIsOutside(s.rows, p, c);
    case _ =>
  }

  lemma DeliverKeepsRowsOk(rows: seq<Row>, p: Callback)
    requires RowsOk(rows)
    requires p.id < |rows| && p.source.Some? ==> p.source == rows[p.id].instr.source
    ensures RowsOk(Deliver(rows, p))
  {
    var rows' := Deliver(rows, p);
    if Classify(rows, p) == Updated {
      assert RowOk(rows, p.id);
      forall i | 0 <= i < |rows| ensures RowShrinks(rows[i], rows'[i]) {
        assert RowOk(rows, i);
        if p.success && rows[p.id].instr.remove && i == rows[p.id].instr.source.value {
          SourceRowShrinks(rows[i], Elems(rows[p.id].instr.dates));
        }
      }
      forall i | 0 <= i < |rows'| ensures RowOk(rows', i) {
        assert RowOk(rows, i) && RowShrinks(rows[i], rows'[i]);
        if rows[i].instr.remove {
          assert RowShrinks(rows[rows[i].instr.source.value], rows'[rows[i].instr.source.value]);
        }
      }
      forall i, j | 0 <= i < j < |rows'| ensures rows'[i].instr.uuid != rows'[j].instr.uuid {
        assert RowShrinks(rows[i], rows'[i]) && RowShrinks(rows[j], rows'[j]);
      }
    }
  }

  /** Deliveries to apply rows change statuses only, and touch no removal row. */
  lemma ApplyCallbackRows(rows: seq<Row>, p: Callback)
    requires Classify(rows, p) == Updated && !p.remove
    ensures forall i :: 0 <= i < |rows| ==>
                          && Deliver(rows, p)[i].instr == rows[i].instr
                          && (rows[i].instr.remove ==> Deliver(rows, p)[i] == rows[i])
  {
  }

  /** The callback of the chain's first unfinished row moves the saga on. */
  lemma FrontCallbackKeepsInv(s: Saga, p: Callback, c: Chain, k: nat)
    requires SagaInv(s, c, Running(k)) && k < |c.ids| && p.id == c.ids[k] && Classify(s.rows, p) == Updated
    requires Echoes(s.rows, p)
    ensures SagaInv(SagaNext(s, Answer(p), c), c, if p.success then Running(k + 1) else Failing(k))
  {
    var rows' := Deliver(s.rows, p);
    DeliverKeepsRowsOk(s.rows, p);
    ApplyCallbackRows(s.rows, p);
    assert ChainRows(rows', c);
    forall r | 0 <= r < |rows'| ensures !RemovesChainRow(rows'[r], c) {
      assert !RemovesChainRow(s.rows[r], c);
    }
    forall j | 0 <= j < |c.ids|
      ensures rows'[c.ids[j]].status ==
              if p.success then if j <= k then Applied else Processing else if j < k then Applied else Failed
    {
      assert j != k ==> c.ids[j] != c.ids[k];
    }
  }

  /** A rollback's callback settles its own row and, on success, retires exactly its source. */
  lemma RollbackCallbackRows(rows: seq<Row>, p: Callback, c: Chain, k: nat, j: nat)
    requires RowsOk(rows) && ChainRows(rows, c) && j < k <= |c.ids|
    requires Classify(rows, p) == Updated && Echoes(rows, p)
    requires rows[p.id].instr == RollbackOf(rows, c, j) && rows[c.ids[j]].status == Applied
    ensures var rows' := Deliver(rows, p);
            && rows'[p.id] == rows[p.id].(status := if p.success then Removed else Failed)
            && rows'[c.ids[j]] == rows[c.ids[j]].(status := if p.success then Removed else Applied)
            && forall i :: 0 <= i < |rows| && i != p.id && i != c.ids[j] ==> rows'[i] == rows[i]
  {
    assert RowOk(rows, p.id);
    var dates := rows[c.ids[j]].instr.dates;
    MinusEverything(dates, Elems(dates));
  }

  /** The chain's removal rows after row `p.id`, the rollback of index `j`, is settled. */
  lemma SettledRollbacks(rows: seq<Row>, rows': seq<Row>, c: Chain, k: nat, id: nat, j: nat, success: bool)
    requires RowsOk(rows) && ChainRows(rows, c) && j < k <= |c.ids| && id < |rows| == |rows'|
    requires rows[id].instr == RollbackOf(rows, c, j) && rows[id].status == Processing
    requires rows'[id] == rows[id].(status := if success then Removed else Failed)
    requires rows'[c.ids[j]] == rows[c.ids[j]].(status := if success then Removed else Applied)
    requires forall i :: 0 <= i < |rows| && i != id && i != c.ids[j] ==> rows'[i] == rows[i]
    requires forall r :: 0 <= r < |rows| && RemovesChainRow(rows[r], c) ==> IsRollback(rows, c, k, r)
    ensures ChainRows(rows', c)
    ensures forall r :: 0 <= r < |rows'| && RemovesChainRow(rows'[r], c) ==> IsRollback(rows', c, k, r)
  {
    assert forall i :: 0 <= i < |rows| ==> rows'[i].instr == rows[i].instr;
    forall r | 0 <= r < |rows'| && RemovesChainRow(rows'[r], c) ensures IsRollback(rows', c, k, r) {
      assert IsRollback(rows, c, k, r);
      var i :| 0 <= i < k && rows[r].instr == RollbackOf(rows, c, i)
               && (rows[r].status == Removed <==> rows[c.ids[i]].status == Removed);
      assert rows'[r].instr == RollbackOf(rows', c, i);
      assert r != id ==> i != j;
      assert i != j ==> c.ids[i] != c.ids[j];
      assert c.ids[i] != id;
    }
  }

  lemma SettledRollbackStands(rows: seq<Row>, rows': seq<Row>, c: Chain, k: nat, id: nat, j: nat, success: bool)
    requires RowsOk(rows) && ChainRows(rows, c) && j < k < |c.ids| && id < |rows| == |rows'|
    requires rows[id].instr == RollbackOf(rows, c, j) && rows[id].status == Processing
    requires rows'[id] == rows[id].(status := if success then Removed else Failed)
    requires rows'[c.ids[j]] == rows[c.ids[j]].(status := if success then Removed else Applied)
    requires forall i :: 0 <= i < |rows| && i != id && i != c.ids[j] ==> rows'[i] == rows[i]
    requires RollbacksStand(rows, c, k)
    ensures ChainRows(rows', c) && RollbacksStand(rows', c, k)
  {
    SettledRollbacks(rows, rows', c, k, id, j, success);
    forall i | 0 <= i < k ensures FindByUuid(rows', Rollback(c.chainId, c.ids[i]), |rows'|).Some? {
      StillFound(rows, rows', c, i);
    }
    forall i | 0 <= i < |c.ids| && i != j ensures rows'[c.ids[i]] == rows[c.ids[i]] {
      assert c.ids[i] != c.ids[j] && c.ids[i] != id;
    }
  }

  lemma RolledBackWith(s: Saga, rows': seq<Row>, c: Chain, k: nat)
    requires SagaInv(s, c, RolledBack(k)) && RowsOk(rows')
    requires ChainRows(rows', c) && RollbacksStand(rows', c, k)
    requires forall j :: 0 <= j < |c.ids| ==> rows'[c.ids[j]].instr == s.rows[c.ids[j]].instr
    ensures SagaInv(s.(rows := rows'), c, RolledBack(k))
  {
    SamePlan(s.rows, rows', s.plan.value, c, k);
  }

  lemma RollbackCallbackStands(rows: seq<Row>, p: Callback, c: Chain, k: nat)
    requires RowsOk(rows) && ChainRows(rows, c) && k < |c.ids| && RollbacksStand(rows, c, k)
    requires Classify(rows, p) == Updated && Echoes(rows, p) && RemovesChainRow(rows[p.id], c)
    ensures ChainRows(Deliver(rows, p), c) && RollbacksStand(Deliver(rows, p), c, k)
    ensures forall j :: 0 <= j < |c.ids| ==> Deliver(rows, p)[c.ids[j]].instr == rows[c.ids[j]].instr
  {
    assert IsRollback(rows, c, k, p.id);
    var j :| 0 <= j < k && rows[p.id].instr == RollbackOf(rows, c, j)
             && (rows[p.id].status == Removed <==> rows[c.ids[j]].status == Removed);
    RollbackCallbackRows(rows, p, c, k, j);
    SettledRollbackStands(rows, Deliver(rows, p), c, k, p.id, j, p.success);
  }

  lemma RollbackCallbackKeepsInv(s: Saga, p: Callback, c: Chain, k: nat)
    requires SagaInv(s, c, RolledBack(k)) && Classify(s.rows, p) == Updated && Echoes(s.rows, p)
    requires RemovesChainRow(s.rows[p.id], c)
    ensures SagaInv(s.(rows := Deliver(s.rows, p)), c, RolledBack(k))
  {
    RollbackCallbackStands(s.rows, p, c, k);
    DeliverKeepsRowsOk(s.rows, p);
    RolledBackWith(s, Deliver(s.rows, p), c, k);
  }

  lemma AnswerKeepsInv(s: Saga, p: Callback, c: Chain, phase: Phase) returns (phase': Phase)
    requires SagaInv(s, c, phase) && SagaEnabled(s, Answer(p), c)
    ensures SagaInv(SagaNext(s, Answer(p), c), c, phase')
  {
    phase' := phase;
    if Classify(s.rows, p) == Updated {
      if InChain(s.rows[p.id], c.booking, c.chainId) {
        var m :| 0 <= m < |c.ids| && c.ids[m] == p.id;
        assert phase.Running? && phase.k < |c.ids|;
        assert s.rows[c.ids[phase.k]].status == Processing;
        assert m == phase.k;
        FrontCallbackKeepsInv(s, p, c, phase.k);
        phase' := if p.success then Running(phase.k + 1) else Failing(phase.k);
      } else if RemovesChainRow(s.rows[p.id], c) {
        RollbackCallbackKeepsInv(s, p, c, phase.k);
      } else {
        DeliverKeepsRowsOk(s.rows, p);
        ForeignCallbackIsOutside(s.rows, p, c);
        OutsideKeepsInv(s, Deliver(s.rows, p), c, phase);
      }
    }
  }

  // ----- rollbacks -----

  lemma PlannedAreRollbacks(rows: seq<Row>, c: Chain, k: nat, b: Instruction) returns (j: nat)
    requires ChainRows(rows, c) && k < |c.ids|
    requires forall j :: 0 <= j < |c.ids| ==> (rows[c.ids[j]].status == Applied <==> j < k)
    requires b in RollbackBlueprints(rows, c.booking, c.chainId, k + 1)
    ensures j < k && b == RollbackOf(rows, c, j)
  {
    var plan := RollbackPlan(rows, c.booking, c.chainId, k + 1);
    var blueprints := RollbackBlueprints(rows, c.booking, c.chainId, k + 1);
    var i :| 0 <= i < |blueprints| && blueprints[i] == b;
    PlannedPlace(rows, c, k + 1, plan[i]);
    j :| 0 <= j < |c.ids| && c.ids[j] == plan[i].id;
  }

  lemma PlannedPlace(rows: seq<Row>, c: Chain, position: int, x: Placed)
    requires ChainRows(rows, c) && x in RollbackPlan(rows, c.booking, c.chainId, position)
    ensures x.id in c.ids && x.id < |rows| && rows[x.id].status == Applied
    ensures rows[x.id].instr.chain.Some? && x.position == rows[x.id].instr.chain.value.position
  {
    RollbackPlanMembers(rows, c.booking, c.chainId, position);
  }

  lemma RollbacksArePlanned(rows: seq<Row>, c: Chain, k: nat, j: nat)
    requires ChainRows(rows, c) && j < k < |c.ids| && rows[c.ids[j]].status == Applied
    ensures RollbackOf(rows, c, j) in RollbackBlueprints(rows, c.booking, c.chainId, k + 1)
  {
    var plan := RollbackPlan(rows, c.booking, c.chainId, k + 1);
    RollbackPlanMembers(rows, c.booking, c.chainId, k + 1);
    assert Placed(c.ids[j], j + 1) in plan;
    var i :| 0 <= i < |plan| && plan[i] == Placed(c.ids[j], j + 1);
    assert RollbackBlueprints(rows, c.booking, c.chainId, k + 1)[i] == RollbackOf(rows, c, j);
  }

  lemma RollbackPlanIsRight(rows: seq<Row>, c: Chain, k: nat)
    requires ChainRows(rows, c) && k < |c.ids|
    requires forall j :: 0 <= j < |c.ids| ==> (rows[c.ids[j]].status == Applied <==> j < k)
    ensures PlanIsRight(rows, RollbackBlueprints(rows, c.booking, c.chainId, k + 1), c, k)
  {
    var blueprints := RollbackBlueprints(rows, c.booking, c.chainId, k + 1);
    forall b | b in blueprints ensures exists j :: 0 <= j < k && b == RollbackOf(rows, c, j) {
      var j := PlannedAreRollbacks(rows, c, k, b);
    }
    forall j | 0 <= j < k ensures RollbackOf(rows, c, j) in blueprints {
      RollbacksArePlanned(rows, c, k, j);
    }
  }

  lemma PlannedSaga(s: Saga, c: Chain, k: nat)
    requires ChainRows(s.rows, c) && k < |c.ids| && s.failed == Some(c.ids[k])
    ensures SagaNext(s, PlanRollbacks, c) == s.(plan := Some(RollbackBlueprints(s.rows, c.booking, c.chainId, k + 1)))
  {
    assert s.rows[c.ids[k]].instr.chain.value.position == k + 1;
  }

  lemma RightPlanKeepsInv(s: Saga, c: Chain, k: nat, plan: seq<Instruction>)
    requires SagaInv(s, c, Failing(k)) && PlanIsRight(s.rows, plan, c, k)
    ensures SagaInv(s.(plan := Some(plan)), c, Failing(k))
  {
  }

  lemma PlanKeepsInv(s: Saga, c: Chain, phase: Phase)
    requires SagaInv(s, c, phase) && SagaEnabled(s, PlanRollbacks, c)
    ensures SagaInv(SagaNext(s, PlanRollbacks, c), c, phase)
  {
    assert phase.Failing?;
    FailingPlanKeepsInv(s, c, phase.k);
  }

  lemma FailingPlanKeepsInv(s: Saga, c: Chain, k: nat)
    requires SagaInv(s, c, Failing(k))
    ensures SagaInv(SagaNext(s, PlanRollbacks, c), c, Failing(k))
  {
    var plan := RollbackBlueprints(s.rows, c.booking, c.chainId, k + 1);
    assert SagaInv(s.(plan := Some(plan)), c, Failing(k)) by {
      RollbackPlanIsRight(s.rows, c, k);
      RightPlanKeepsInv(s, c, k, plan);
    }
    PlannedSaga(s, c, k);
  }

  ghost predicate RemovalOfOverride(rows: seq<Row>, x: Instruction) {
    && x.remove && x.source.Some? && x.source.value < |rows|
    && !rows[x.source.value].instr.remove && rows[x.source.value].instr.key == x.key
    && x.dates != [] && Distinct(x.dates)
    && (x.uuid.Rollback? ==> x.source == Some(x.uuid.sourceId))
  }

  lemma {:induction false} EnsureRowsKeepsRowsOk(rows: seq<Row>, xs: seq<Instruction>)
    requires RowsOk(rows)
    requires forall x :: x in xs ==> RemovalOfOverride(rows, x)
    ensures var rows' := EnsureRows(rows, xs);
            && RowsOk(rows') && |rows| <= |rows'|
            && (forall i :: 0 <= i < |rows| ==> rows'[i] == rows[i])
            && (forall i :: |rows| <= i < |rows'| ==> rows'[i].instr in xs && rows'[i].status == Processing)
    decreases |xs|
  {
    if xs == [] {
    } else {
      var rows1 := EnsureRow(rows, xs[0]);
      assert RemovalOfOverride(rows, xs[0]);
      forall i | 0 <= i < |rows1| ensures RowOk(rows1, i) {
        if i < |rows| {
          assert RowOk(rows, i);
        }
      }
      forall x | x in xs[1..] ensures RemovalOfOverride(rows1, x) {
        assert RemovalOfOverride(rows, x);
      }
      EnsureRowsKeepsRowsOk(rows1, xs[1..]);
    }
  }

  /** Rows appended for the plan are rollbacks of the chain and nothing else. */
  lemma AppendedRollbacks(rows: seq<Row>, rows': seq<Row>, c: Chain, k: nat, xs: seq<Instruction>)
    requires ChainRows(rows, c) && NoRemovals(rows, c) && k < |c.ids| && PlanIsRight(rows, xs, c, k)
    requires forall j :: 0 <= j < k ==> rows[c.ids[j]].status == Applied
    requires |rows| <= |rows'| && forall i :: 0 <= i < |rows| ==> rows'[i] == rows[i]
    requires forall i :: |rows| <= i < |rows'| ==> rows'[i].instr in xs && rows'[i].status == Processing
    ensures ChainRows(rows', c)
    ensures forall r :: 0 <= r < |rows'| && RemovesChainRow(rows'[r], c) ==> IsRollback(rows', c, k, r)
  {
    forall i | |rows| <= i < |rows'| ensures rows'[i].instr.remove {
      var j :| 0 <= j < k && rows'[i].instr == RollbackOf(rows, c, j);
    }
    assert ChainRows(rows', c);
    forall r | 0 <= r < |rows'| && RemovesChainRow(rows'[r], c) ensures IsRollback(rows', c, k, r) {
      assert r >= |rows|;
      var j :| 0 <= j < k && rows'[r].instr == RollbackOf(rows, c, j);
      assert rows'[r].instr == RollbackOf(rows', c, j);
    }
  }

  /** Appending the planned removals leaves the chain alone and adds nothing but its rollbacks. */
  lemma RecordedRollbackRows(rows: seq<Row>, c: Chain, k: nat, xs: seq<Instruction>)
    requires RowsOk(rows) && ChainRows(rows, c) && NoRemovals(rows, c) && k < |c.ids| && PlanIsRight(rows, xs, c, k)
    requires forall j :: 0 <= j < k ==> rows[c.ids[j]].status == Applied
    ensures var rows' := EnsureRows(rows, xs);
            && RowsOk(rows') && ChainRows(rows', c) && |rows| <= |rows'|
            && (forall i :: 0 <= i < |rows| ==> rows'[i] == rows[i])
            && (forall r :: 0 <= r < |rows'| && RemovesChainRow(rows'[r], c) ==> IsRollback(rows', c, k, r))
  {
    forall x | x in xs ensures RemovalOfOverride(rows, x) {
      var j :| 0 <= j < k && x == RollbackOf(rows, c, j);
      assert RowOk(rows, c.ids[j]);
    }
    EnsureRowsKeepsRowsOk(rows, xs);
    AppendedRollbacks(rows, EnsureRows(rows, xs), c, k, xs);
  }

  lemma AllRecorded(rows: seq<Row>, c: Chain, k: nat, xs: seq<Instruction>)
    requires ChainRows(rows, c) && k <= |c.ids| && PlanIsRight(rows, xs, c, k)
    ensures forall j :: 0 <= j < k ==>
                          FindByUuid(EnsureRows(rows, xs), Rollback(c.chainId, c.ids[j]), |EnsureRows(rows, xs)|).Some?
  {
    EnsureRowsRecordsAll(rows, xs);
    forall j | 0 <= j < k
      ensures FindByUuid(EnsureRows(rows, xs), Rollback(c.chainId, c.ids[j]), |EnsureRows(rows, xs)|).Some?
    {
      assert RollbackOf(rows, c, j) in xs;
    }
  }

  lemma FirstRecordKeepsInv(s: Saga, c: Chain, k: nat, checkpointed: bool)
    requires SagaInv(s, c, Failing(k)) && s.plan.Some?
    ensures SagaInv(SagaNext(s, RecordRollbacks(checkpointed), c), c, RolledBack(k))
  {
    var rows, xs := s.rows, s.plan.value;
    var rows' := EnsureRows(rows, xs);
    RecordedRollbackRows(rows, c, k, xs);
    AllRecorded(rows, c, k, xs);
    assert RollbacksStand(rows', c, k);
    SamePlan(rows, rows', xs, c, k);
  }

  lemma RecordKeepsInv(s: Saga, c: Chain, phase: Phase, checkpointed: bool)
    requires SagaInv(s, c, phase) && SagaEnabled(s, RecordRollbacks(checkpointed), c)
    ensures SagaInv(SagaNext(s, RecordRollbacks(checkpointed), c), c, RolledBack(phase.k))
  {
    match phase
    case Running(_) =>
    case Failing(k) => FirstRecordKeepsInv(s, c, k, checkpointed);
    case RolledBack(k) =>
      forall b | b in s.plan.value ensures FindByUuid(s.rows, b.uuid, |s.rows|).Some? {
        var j :| 0 <= j < k && b == RollbackOf(s.rows, c, j);
      }
      EnsureKnownRows(s.rows, s.plan.value);
  }

  // ----- the status transaction once more -----

  /** A chain callback whose checkpoint was lost changes nothing when its status transaction runs again. */
  lemma RerunIsNoop(s: Saga, p: Callback, c: Chain, phase: Phase)
    requires SagaInv(s, c, phase) && SagaEnabled(s, Rerun(p), c)
    ensures StatusUpdate(s.rows, p) == s.rows
  {
    var rows := s.rows;
    assert RowOk(rows, p.id);
    if RemovesChainRow(rows[p.id], c) {
      RerunRollback(s, p, c, phase);
    } else {
      RerunApply(s, p, c, phase);
    }
  }

  lemma RerunApply(s: Saga, p: Callback, c: Chain, phase: Phase)
    requires SagaInv(s, c, phase) && SagaEnabled(s, Rerun(p), c) && InChain(s.rows[p.id], c.booking, c.chainId)
    ensures StatusUpdate(s.rows, p) == s.rows
  {
    var rows := s.rows;
    var m :| 0 <= m < |c.ids| && c.ids[m] == p.id;
    forall i | 0 <= i < |rows|
      ensures p.success || FailRowDownstream(rows[i], c.booking, c.chainId, m + 1) == rows[i]
    {
      if InChain(rows[i], c.booking, c.chainId) {
        var k :| 0 <= k < |c.ids| && c.ids[k] == i;
        assert rows[i].status == Processing ==> phase.Running? && phase.k <= k;
      }
    }
    assert rows[p.id := rows[p.id].(status := StatusAfter(p))] == rows;
  }

  lemma RerunRollback(s: Saga, p: Callback, c: Chain, phase: Phase)
    requires SagaInv(s, c, phase) && SagaEnabled(s, Rerun(p), c) && RemovesChainRow(s.rows[p.id], c)
    ensures StatusUpdate(s.rows, p) == s.rows
  {
    var rows := s.rows;
    assert RowOk(rows, p.id) && IsRollback(rows, c, phase.k, p.id);
    assert rows[p.id := rows[p.id].(status := StatusAfter(p))] == rows;
  }

  // ----- whole sagas -----

  lemma SagaStepKeepsInv(s: Saga, step: SagaStep, c: Chain, phase: Phase) returns (phase': Phase)
    requires SagaInv(s, c, phase) && SagaEnabled(s, step, c)
    ensures SagaInv(SagaNext(s, step, c), c, phase')
  {
    phase' := phase;
    match step
    case Answer(p) => phase' := AnswerKeepsInv(s, p, c, phase);
    case Rerun(p) => RerunIsNoop(s, p, c, phase);
    case PlanRollbacks => PlanKeepsInv(s, c, phase);
    case RecordRollbacks(checkpointed) =>
      RecordKeepsInv(s, c, phase, checkpointed);
      phase' := RolledBack(phase.k);
    case Outside(rows) => OutsideKeepsInv(s, rows, c, phase);
  }

  lemma {:induction false} SagaRunKeepsInv(s: Saga, steps: seq<SagaStep>, t: Saga, c: Chain, phase: Phase)
    returns (phase': Phase)
    requires SagaInv(s, c, phase) && SagaRun(s, steps, t, c)
    ensures SagaInv(t, c, phase')
    decreases |steps|
  {
    phase' := phase;
    if steps == [] {
    } else {
      phase' := SagaStepKeepsInv(s, steps[0], c, phase);
      phase' := SagaRunKeepsInv(SagaNext(s, steps[0], c), steps[1..], t, c, phase');
    }
  }

  /** A freshly recorded chain: every row waits for its callback and nothing removes any of them. */
  ghost predicate FreshChain(rows: seq<Row>, c: Chain) {
    && RowsOk(rows) && ChainRows(rows, c) && NoRemovals(rows, c)
    && forall j :: 0 <= j < |c.ids| ==> rows[c.ids[j]].status == Processing
  }

  ghost predicate AppliedPrefix(rows: seq<Row>, c: Chain, k: nat)
    requires ChainRows(rows, c)
  {
    forall j :: 0 <= j < |c.ids| ==> rows[c.ids[j]].status == if j < k then Applied else Processing
  }

  ghost predicate FailedFrom(rows: seq<Row>, c: Chain, k: nat)
    requires ChainRows(rows, c)
  {
    forall j :: 0 <= j < |c.ids| ==>
                  if j < k then rows[c.ids[j]].status in {Applied, Removed} else rows[c.ids[j]].status == Failed
  }

  /**
   Every state a chain can reach: an applied prefix while nothing has failed; after a failure at
   `k`, everything from `k` on has failed and nothing before it was left `processing`.
   */
  lemma SagaPrefixes(rows: seq<Row>, c: Chain, steps: seq<SagaStep>, t: Saga)
    requires FreshChain(rows, c) && SagaRun(Saga(rows, None, None, false), steps, t, c)
    ensures ChainRows(t.rows, c)
    ensures t.failed.None? ==> exists k :: 0 <= k <= |c.ids| && AppliedPrefix(t.rows, c, k)
    ensures t.failed.Some? ==> exists k :: 0 <= k < |c.ids| && t.failed.value == c.ids[k] && FailedFrom(t.rows, c, k)
  {
    var phase := SagaRunKeepsInv(Saga(rows, None, None, false), steps, t, c, Running(0));
    if phase.Running? {
      assert AppliedPrefix(t.rows, c, phase.k);
    } else {
      assert FailedFrom(t.rows, c, phase.k);
    }
  }

  /** Once the rollbacks are recorded, each row before the failure has exactly one, for all its dates. */
  lemma RollbacksAreExact(rows: seq<Row>, c: Chain, steps: seq<SagaStep>, t: Saga, k: nat, j: nat)
    requires FreshChain(rows, c) && SagaRun(Saga(rows, None, None, false), steps, t, c)
    requires t.recorded && k < |c.ids| && t.failed == Some(c.ids[k]) && j < k
    ensures ChainRows(t.rows, c)
    ensures exists r :: 0 <= r < |t.rows| && t.rows[r].instr == RollbackOf(t.rows, c, j)
                        && forall i :: 0 <= i < |t.rows| && RemovesRow(t.rows[i], c.ids[j]) ==> i == r
  {
    var phase := SagaRunKeepsInv(Saga(rows, None, None, false), steps, t, c, Running(0));
    assert phase == RolledBack(k);
    var r := FindByUuid(t.rows, Rollback(c.chainId, c.ids[j]), |t.rows|).value;
    assert RowOk(t.rows, r) && RemovesChainRow(t.rows[r], c) && IsRollback(t.rows, c, k, r);
    forall i | 0 <= i < |t.rows| && RemovesRow(t.rows[i], c.ids[j]) ensures i == r {
      assert RemovesChainRow(t.rows[i], c) && IsRollback(t.rows, c, k, i);
      assert t.rows[i].instr.uuid == t.rows[r].instr.uuid;
    }
  }

  /** All or nothing: when the recorded rollbacks have succeeded, no row of the failed chain is active. */
  lemma NothingSurvivesRollback(rows: seq<Row>, c: Chain, steps: seq<SagaStep>, t: Saga, j: nat)
    requires FreshChain(rows, c) && SagaRun(Saga(rows, None, None, false), steps, t, c)
    requires t.recorded && t.failed.Some? && j < |c.ids|
    requires forall r :: 0 <= r < |t.rows| && RemovesChainRow(t.rows[r], c) ==> t.rows[r].status == Removed
    ensures c.ids[j] < |t.rows| && !Active(t.rows[c.ids[j]])
  {
    var phase := SagaRunKeepsInv(Saga(rows, None, None, false), steps, t, c, Running(0));
    if j < phase.k {
      var r := FindByUuid(t.rows, Rollback(c.chainId, c.ids[j]), |t.rows|).value;
      assert RowOk(t.rows, r) && RemovesChainRow(t.rows[r], c) && IsRollback(t.rows, c, phase.k, r);
    }
  }

  // ----- why the order matters -----

  function ExampleChainRow(status: Status, position: nat): Row {
    Row(status, Instruction(Random(position), Key(1, 1, position, "listing"), [1], false, None,
                            Some(ChainRef("chain", position))))
  }

  /** If position 3 answers before position 2 fails, it stays applied and no rollback names it. */
  lemma OutOfOrderAnswerSurvives()
    ensures var rows := [ExampleChainRow(Applied, 1), ExampleChainRow(Processing, 2), ExampleChainRow(Processing, 3)];
            var early := Deliver(rows, Callback(2, Random(3), false, true, None));
            var failed := Deliver(early, Callback(1, Random(2), false, false, None));
            && failed[2].status == Applied
            && forall b :: b in RollbackBlueprints(failed, 1, "chain", 2) ==> b.source == Some(0)
  {
    var rows := [ExampleChainRow(Applied, 1), ExampleChainRow(Processing, 2), ExampleChainRow(Processing, 3)];
    var early := Deliver(rows, Callback(2, Random(3), false, true, None));
    assert early == [ExampleChainRow(Applied, 1), ExampleChainRow(Processing, 2), ExampleChainRow(Applied, 3)];
    var failed := Deliver(early, Callback(1, Random(2), false, false, None));
    assert failed == [ExampleChainRow(Applied, 1), ExampleChainRow(Failed, 2), ExampleChainRow(Applied, 3)];
    RollbackPlanMembers(failed, 1, "chain", 2);
    var plan, blueprints := RollbackPlan(failed, 1, "chain", 2), RollbackBlueprints(failed, 1, "chain", 2);
    forall b | b in blueprints ensures b.source == Some(0) {
      var i :| 0 <= i < |blueprints| && blueprints[i] == b;
      assert plan[i] in plan;
    }
  }

  /** If position 2 fails while position 1 still waits, nothing is rolled back and position 1 applies later. */
  lemma EarlierAnswerSurvives()
    ensures var rows := [ExampleChainRow(Processing, 1), ExampleChainRow(Processing, 2)];
            var failed := Deliver(rows, Callback(1, Random(2), false, false, None));
            && failed[1].status == Failed
            && RollbackBlueprints(failed, 1, "chain", 2) == []
            && Deliver(failed, Callback(0, Random(1), false, true, None))[0].status == Applied
  {
    var rows := [ExampleChainRow(Processing, 1), ExampleChainRow(Processing, 2)];
    var failed := Deliver(rows, Callback(1, Random(2), false, false, None));
    assert failed == [ExampleChainRow(Processing, 1), ExampleChainRow(Failed, 2)];
    var plan := RollbackPlan(failed, 1, "chain", 2);
    assert |plan| > 0 ==> plan[0] in plan;
    RollbackPlanMembers(failed, 1, "chain", 2);
  }

  /**
   A reservation puts an answered row back to `processing`.  If position 2 fails in that time, nothing is
   rolled back, and when the removal the row was reserved for fails, position 1 is `applied` again.
   */
  lemma ReservedAnswerSurvives()
    ensures var rows := [ExampleChainRow(Processing, 1), ExampleChainRow(Processing, 2)];
            var answered := Deliver(rows, Callback(0, Random(1), false, true, None));
            var trim := Removal(rows[0].instr, 0, [1], Random(3));
            var reserved := EnsureRow(Reserve(answered, {0}), trim);
            var failed := Deliver(reserved, Callback(1, Random(2), false, false, None));
            && answered[0].status == Applied && failed[1].status == Failed
            && RollbackBlueprints(failed, 1, "chain", 2) == []
            && Deliver(failed, Callback(2, Random(3), true, false, None))[0].status == Applied
  {
    var rows := [ExampleChainRow(Processing, 1), ExampleChainRow(Processing, 2)];
    var answered := Deliver(rows, Callback(0, Random(1), false, true, None));
    assert answered == [ExampleChainRow(Applied, 1), ExampleChainRow(Processing, 2)];
    var trim := Removal(rows[0].instr, 0, [1], Random(3));
    var waiting := Reserve(answered, {0});
    assert waiting == rows;
    assert FindByUuid(waiting, Random(3), 2).None?;
    var reserved := EnsureRow(waiting, trim);
    assert reserved == rows + [Row(Processing, trim)];
    var failed := Deliver(reserved, Callback(1, Random(2), false, false, None));
    assert failed == [ExampleChainRow(Processing, 1), ExampleChainRow(Failed, 2), Row(Processing, trim)];
    var plan := RollbackPlan(failed, 1, "chain", 2);
    assert |plan| > 0 ==> plan[0] in plan;
    RollbackPlanMembers(failed, 1, "chain", 2);
  }

  /** Some blueprint planned after the failure at `position` removes row `i`. */
  ghost predicate RolledBackRow(rows: seq<Row>, booking: int, chainId: string, position: int, i: nat) {
    exists b :: b in RollbackBlueprints(rows, booking, chainId, position) && b.source == Some(i)
  }

  lemma RolledBackRowIff(rows: seq<Row>, booking: int, chainId: string, position: int, i: nat)
    requires i < |rows| && InChain(rows[i], booking, chainId)
    ensures RolledBackRow(rows, booking, chainId, position, i) <==>
            rows[i].instr.chain.value.position < position && rows[i].status == Applied
  {
    var plan, blueprints := RollbackPlan(rows, booking, chainId, position),
                            RollbackBlueprints(rows, booking, chainId, position);
    RollbackPlanMembers(rows, booking, chainId, position);
    if RolledBackRow(rows, booking, chainId, position, i) {
      var b :| b in blueprints && b.source == Some(i);
      var j: nat :| j < |blueprints| && blueprints[j] == b;
      assert plan[j] in plan;
    }
    if rows[i].instr.chain.value.position < position && rows[i].status == Applied {
      var x := Placed(i, rows[i].instr.chain.value.position);
      assert x in plan;
      var j: nat :| j < |plan| && plan[j] == x;
      assert blueprints[j] in blueprints;
    }
  }

  /** What a chain row may be, by its place, when position `failed` fails. */
  predicate InOrderAt(r: Row, failed: int)
    requires r.instr.chain.Some?
  {
    var position := r.instr.chain.value.position;
    && (position < failed ==> r.status != Processing)
    && (position == failed ==> !Active(r))
    && (position > failed ==> r.status != Applied)
  }

  /**
   A failure leaves no chain row active and unaccounted for by a rollback exactly when no earlier row is
   `processing`, waiting or reserved, no other row at its position is active, and no later row is
   `applied`; and the same holds of each row by itself.
   */
  lemma FailureIsUndoneIff(rows: seq<Row>, p: Callback)
    requires Classify(rows, p) == Updated && !p.success && !p.remove && rows[p.id].instr.chain.Some?
    ensures var rows', booking, place := Deliver(rows, p), rows[p.id].instr.key.booking, rows[p.id].instr.chain.value;
            (forall i :: 0 <= i < |rows'| && InChain(rows'[i], booking, place.chainId) && Active(rows'[i]) ==>
                           RolledBackRow(rows', booking, place.chainId, place.position, i))
            <==>
            (forall i :: 0 <= i < |rows| && i != p.id && InChain(rows[i], booking, place.chainId) ==>
                           InOrderAt(rows[i], place.position))
    ensures var rows', booking, place := Deliver(rows, p), rows[p.id].instr.key.booking, rows[p.id].instr.chain.value;
            forall i :: 0 <= i < |rows| && i != p.id && InChain(rows[i], booking, place.chainId) ==>
                          ((Active(rows'[i]) ==> RolledBackRow(rows', booking, place.chainId, place.position, i)) <==>
                           InOrderAt(rows[i], place.position))
  {
    var rows', booking, place := Deliver(rows, p), rows[p.id].instr.key.booking, rows[p.id].instr.chain.value;
    forall i | 0 <= i < |rows| && InChain(rows[i], booking, place.chainId)
      ensures InChain(rows'[i], booking, place.chainId)
      ensures (Active(rows'[i]) ==> RolledBackRow(rows', booking, place.chainId, place.position, i)) <==>
              (i == p.id || InOrderAt(rows[i], place.position))
    {
      RolledBackRowIff(rows', booking, place.chainId, place.position, i);
    }
    assert forall i :: 0 <= i < |rows| ==> rows'[i].instr == rows[i].instr;
  }
}
