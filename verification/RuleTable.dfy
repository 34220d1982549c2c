/** The statements the worker runs against `booking_applied_rules`, on a table updated in place. */
module RuleTable {
  import opened Collections
  import opened BookingRules
  import opened InstructionProtocol
  import opened ProtocolInvariant
  import opened RuleMeanings

  class Table {
    var rows: seq<Row>

    constructor ()
      ensures rows == []
    {
      rows := [];
    }

    method FindOverlaps(key: Key, dates: seq<Date>) returns (r: Result<seq<Overlap>, string>)
      ensures r.Err? <==> dates == []
      ensures r.Ok? ==> r.value == OverlapsBelow(rows, key, Elems(dates), |rows|)
      ensures r.Ok? ==>
                forall o :: o in r.value ==>
                              && o.id < |rows| && o.instr == rows[o.id].instr
                              && rows[o.id].status in {Applied, Processing} && !o.instr.remove && o.instr.key == key
                              && o.dates != [] && forall d :: d in o.dates <==> d in o.instr.dates && d in dates
      ensures r.Ok? ==> forall i, d ::
                          && 0 <= i < |rows| && rows[i].status in {Applied, Processing} && !rows[i].instr.remove
                          && rows[i].instr.key == key && d in rows[i].instr.dates && d in dates
                          ==> exists k :: 0 <= k < |r.value| && r.value[k].id == i
      ensures r.Ok? ==> forall k, l :: 0 <= k < l < |r.value| ==> r.value[k].id < r.value[l].id
    {
      if dates == [] {
        return Err("instruction.dates must be a non-empty array");
      }
      var requested := Elems(dates);
      var overlaps := [];
      for id := 0 to |rows|
        invariant overlaps == OverlapsBelow(rows, key, requested, id)
      {
        var row := rows[id];
        if row.instr.key == key && Active(row) && !row.instr.remove {
          var intersection := Keep(row.instr.dates, requested);
          if intersection != [] {
            overlaps := overlaps + [Overlap(id, row.instr, intersection)];
          }
        }
      }
      OverlapsMean(rows, key, dates);
      r := Ok(overlaps);
    }

    method ReserveOverlapRows(ids: set<nat>)
      modifies this
      ensures rows == Reserve(old(rows), ids)
      ensures |rows| == |old(rows)|
      ensures forall i :: 0 <= i < |rows| ==>
                            rows[i] == if i in ids && old(rows)[i].status in {Applied, Processing}
                                       then old(rows)[i].(status := Processing) else old(rows)[i]
    {
      for id := 0 to |rows|
        invariant |rows| == |old(rows)|
        invariant forall i :: 0 <= i < |rows| ==>
                  rows[i] == if i < id then ReserveRow(old(rows)[i], i in ids) else old(rows)[i]
      {
        if id in ids && Active(rows[id]) {
          rows := rows[id := rows[id].(status := Processing)];
        }
      }
    }

    /** Collects, per source row, the dates its overlaps name. */
    static method MergeOverlaps(overlaps: seq<Overlap>, merged: map<nat, set<Date>>) returns (r: map<nat, set<Date>>)
      requires forall a, b :: 0 <= a < b < |overlaps| ==> overlaps[a].id != overlaps[b].id
      ensures Merges(overlaps, merged, r)
    {
      r := merged;
      for k := 0 to |overlaps|
        invariant Merges(overlaps[..k], merged, r)
      {
        var o := overlaps[k];
        assert overlaps[..k + 1] == overlaps[..k] + [o];
        MergesOneMore(overlaps[..k], o, merged, r);
        r := r[o.id := (if o.id in r then r[o.id] else {}) + Elems(o.dates)];
      }
      assert overlaps[..|overlaps|] == overlaps;
    }

    /** One removal per overlapped row of `found`; the identifier for row `i` is the `i`-th drawn from `base` on. */
    static method BuildRemovals(found: seq<Row>, merged: map<nat, set<Date>>, base: nat, ghost plans: seq<Instruction>)
      returns (blueprints: seq<Instruction>)
      requires MergedAre(found, plans, merged)
      ensures blueprints == OverlapBlueprints(found, plans, base, |found|)
    {
      blueprints := [];
      for id := 0 to |found|
        invariant blueprints == OverlapBlueprints(found, plans, base, id)
      {
        if id in merged {
          var dates := Keep(found[id].instr.dates, merged[id]);
          if dates != [] {
            blueprints := blueprints + [Removal(found[id].instr, id, dates, Random(base + id))];
          }
          RequestedAreKept(found[id], plans);
        }
      }
    }

    /** The overlap transaction of a generation and the removal blueprints it checkpoints. */
    method PlanGeneration(plans: seq<Instruction>, base: nat) returns (blueprints: seq<Instruction>)
      requires forall p :: p in plans ==> p.dates != []
      modifies this
      ensures rows == Reserve(old(rows), OverlappedIds(old(rows), plans))
      ensures blueprints == OverlapBlueprints(old(rows), plans, base, |old(rows)|)
      ensures RequestedReserved(old(rows), plans, rows)
      ensures RequestedRemoved(old(rows), plans, blueprints)
    {
      var found := rows;
      var merged: map<nat, set<Date>> := map[];
      for k := 0 to |plans|
        invariant rows == found
        invariant MergedAre(found, plans[..k], merged)
      {
        assert plans[k] in plans;
        var overlaps := FindOverlaps(plans[k].key, plans[k].dates);
        var next := MergeOverlaps(overlaps.value, merged);
        MergeStep(found, plans[..k], plans[k], overlaps.value, merged, next);
        assert plans[..k] + [plans[k]] == plans[..k + 1];
        merged := next;
      }
      assert plans[..|plans|] == plans;
      assert merged.Keys == OverlappedIds(found, plans);
      ReserveOverlapRows(merged.Keys);
      PlanMeans(found, plans, base);
      blueprints := BuildRemovals(found, merged, base, plans);
    }

    /** The blueprints of a remove-bso task: newest selected row first. */
    method PlanBookingRemoval(booking: int, property: int, base: nat) returns (blueprints: seq<Instruction>)
      ensures blueprints == BookingBlueprints(rows, booking, property, base, |rows|)
      ensures forall b :: b in blueprints ==>
                            && b.source.Some? && b.source.value < |rows|
                            && rows[b.source.value].status == Applied && !rows[b.source.value].instr.remove
                            && rows[b.source.value].instr.key.booking == booking
                            && rows[b.source.value].instr.key.property == property
                            && b == rows[b.source.value].instr.(uuid := b.uuid, remove := true, source := b.source)
      ensures SourcesDescend(blueprints)
      ensures forall i :: 0 <= i < |rows| && rows[i].status == Applied && !rows[i].instr.remove
                          && rows[i].instr.key.booking == booking && rows[i].instr.key.property == property
                          ==> exists k :: 0 <= k < |blueprints| && blueprints[k].source == Some(i)
    {
      blueprints := [];
      for id := 0 to |rows|
        invariant blueprints == BookingBlueprints(rows, booking, property, base, id)
      {
        if SelectedForRemoval(rows[id], booking, property) {
          blueprints := [Removal(rows[id].instr, id, rows[id].instr.dates, Random(base + id))] + blueprints;
        }
      }
      BookingPlanMeans(rows, booking, property, base);
    }

    method EnsureInstructionRow(instr: Instruction) returns (id: nat)
      modifies this
      ensures rows == EnsureRow(old(rows), instr)
      ensures FindByUuid(rows, instr.uuid, |rows|) == Some(id)
      ensures rows == if HasUuid(old(rows), instr.uuid) then old(rows) else old(rows) + [Row(Processing, instr)]
    {
      UuidIsFound(rows, instr.uuid);
      var n := |rows|;
      while n > 0
        invariant 0 <= n <= |rows| && FindByUuid(rows, instr.uuid, |rows|) == FindByUuid(rows, instr.uuid, n)
      {
        n := n - 1;
        if rows[n].instr.uuid == instr.uuid {
          return n;
        }
      }
      id := |rows|;
      rows := rows + [Row(Processing, instr)];
    }

    /** One recording transaction: every instruction gets its row, once. */
    method RecordInstructions(instrs: seq<Instruction>) returns (ids: seq<nat>)
      modifies this
      ensures rows == EnsureRows(old(rows), instrs)
      ensures |rows| >= |old(rows)| && rows[..|old(rows)|] == old(rows)
      ensures forall r :: r in rows[|old(rows)|..] ==> r.status == Processing && r.instr in instrs
      ensures |ids| == |instrs|
      ensures forall k :: 0 <= k < |ids| ==> ids[k] < |rows| && rows[ids[k]].instr.uuid == instrs[k].uuid
    {
      ids := [];
      for k := 0 to |instrs|
        invariant |ids| == k
        invariant EnsureRows(rows, instrs[k..]) == EnsureRows(old(rows), instrs)
        invariant IdsOf(ids, rows, instrs)
      {
        EnsureNextRow(rows, instrs, k);
        ghost var before := rows;
        var id := EnsureInstructionRow(instrs[k]);
        OneMoreId(before, instrs, ids, id);
        ids := ids + [id];
      }
      assert instrs[|instrs|..] == [];
      RecordedRows(old(rows), instrs);
    }

    method SetInstructionStatus(id: nat, status: Status)
      requires id < |rows|
      modifies this
      ensures rows == old(rows)[id := old(rows)[id].(status := status)]
    {
      rows := rows[id := rows[id].(status := status)];
    }

    method SetSourceAfterRemoval(source: nat, removalDates: seq<Date>)
      modifies this
      ensures rows == SourceAfterRemoval(old(rows), source, Elems(removalDates))
      ensures |rows| == |old(rows)|
      ensures forall i :: 0 <= i < |rows| && i != source ==> rows[i] == old(rows)[i]
      ensures source < |rows| ==>
                if old(rows)[source].status in {Applied, Processing}
                then Trimmed(old(rows)[source], removalDates, rows[source])
                else rows[source] == old(rows)[source]
    {
      if source >= |rows| {
        return;
      }
      var row := rows[source];
      if row.status != Applied && row.status != Processing {
        return;
      }
      TrimmedSource(row, removalDates);
      var remaining := Minus(row.instr.dates, Elems(removalDates));
      if remaining != [] {
        rows := rows[source := Row(Applied, row.instr.(dates := remaining))];
      } else {
        rows := rows[source := row.(status := Removed)];
      }
    }

    method RestoreSourceApplied(source: nat)
      modifies this
      ensures rows == RestoreSource(old(rows), source)
      ensures rows == if source < |old(rows)| && old(rows)[source].status == Processing
                      then old(rows)[source := old(rows)[source].(status := Applied)] else old(rows)
    {
      if source < |rows| && rows[source].status == Processing {
        rows := rows[source := rows[source].(status := Applied)];
      }
    }

    method FetchChainApplyRows(booking: int, chainId: string) returns (placed: seq<Placed>)
      ensures placed == SortBy(ChainRowsBelow(rows, booking, chainId, |rows|), PositionLe)
      ensures forall x :: x in placed <==>
                          && x.id < |rows| && !rows[x.id].instr.remove && rows[x.id].instr.key.booking == booking
                          && rows[x.id].instr.chain == Some(ChainRef(chainId, x.position))
      ensures forall k, l :: 0 <= k < l < |placed| ==>
                               || placed[k].position < placed[l].position
                               || (placed[k].position == placed[l].position && placed[k].id < placed[l].id)
    {
      ChainRowsMean(rows, booking, chainId);
      ChainRowsAscend(rows, booking, chainId);
      var found := [];
      for id := 0 to |rows|
        invariant found == ChainRowsBelow(rows, booking, chainId, id)
      {
        if InChain(rows[id], booking, chainId) {
          found := found + [Placed(id, rows[id].instr.chain.value.position)];
        }
      }
      placed := SortBy(found, PositionLe);
    }

    /** Fails the rows of `placed` beyond `position` that still wait for a callback. */
    method FailPlaced(placed: seq<Placed>, position: int) returns (failed: seq<nat>)
      requires forall j :: 0 <= j < |placed| ==> placed[j].id < |rows|
      modifies this
      ensures |rows| == |old(rows)|
      ensures forall i :: 0 <= i < |rows| ==>
                            rows[i] == if FailsAt(placed, position, i) && old(rows)[i].status == Processing
                                       then old(rows)[i].(status := Failed) else old(rows)[i]
      ensures forall i :: i in failed <==>
                          0 <= i < |rows| && old(rows)[i].status == Processing && rows[i].status == Failed
    {
      failed := [];
      for k := 0 to |placed|
        invariant |rows| == |old(rows)|
        invariant forall i :: 0 <= i < |rows| ==>
                                rows[i] == if FailsAt(placed[..k], position, i) && old(rows)[i].status == Processing
                                           then old(rows)[i].(status := Failed) else old(rows)[i]
        invariant forall i :: i in failed <==>
                              0 <= i < |rows| && old(rows)[i].status == Processing && rows[i].status == Failed
      {
        var x := placed[k];
        assert placed[..k + 1] == placed[..k] + [x];
        FailsAtOneMore(placed[..k], x, position);
        if x.position > position && rows[x.id].status == Processing {
          SetInstructionStatus(x.id, Failed);
          failed := failed + [x.id];
        }
      }
      assert placed[..|placed|] == placed;
    }

    method MarkDependencyFailed(booking: int, chainId: string, position: int) returns (failed: seq<nat>)
      modifies this
      ensures rows == FailDownstream(old(rows), booking, chainId, position)
      ensures |rows| == |old(rows)|
      ensures forall i :: 0 <= i < |rows| ==>
                            rows[i] == if Downstream(old(rows)[i], booking, chainId, position)
                                          && old(rows)[i].status == Processing
                                       then old(rows)[i].(status := Failed) else old(rows)[i]
      ensures forall i :: i in failed <==>
                          && 0 <= i < |rows|
                          && old(rows)[i].status == Processing && rows[i].status == Failed
    {
      var placed := FetchChainApplyRows(booking, chainId);
      ChainRowsPlaced(rows, booking, chainId);
      failed := FailPlaced(placed, position);
      forall i | 0 <= i < |rows| ensures rows[i] == FailRowDownstream(old(rows)[i], booking, chainId, position) {
        if InChain(old(rows)[i], booking, chainId) {
          var j := PlaceOf(old(rows), booking, chainId, i);
          assert placed[j].id == i;
        }
      }
    }

    method BuildRollbacks(chainId: string, ordered: seq<Placed>) returns (blueprints: seq<Instruction>)
      requires forall x :: x in ordered ==> x.id < |rows|
      ensures blueprints == RollbackRemovals(rows, chainId, ordered)
    {
      blueprints := [];
      for k := 0 to |ordered|
        invariant |blueprints| == k
        invariant forall j :: 0 <= j < k ==> blueprints[j] == RollbackRemoval(rows, chainId, ordered[j])
      {
        blueprints := blueprints + [RollbackRemoval(rows, chainId, ordered[k])];
      }
    }

    method PrepareRollbackBlueprints(booking: int, chainId: string, failedPosition: int)
      returns (blueprints: seq<Instruction>)
      ensures blueprints == RollbackBlueprints(rows, booking, chainId, failedPosition)
      ensures forall b :: b in blueprints ==>
                            && b.source.Some? && b.source.value < |rows|
                            && RollsBack(b, b.source.value, rows[b.source.value], booking, chainId, failedPosition)
      ensures forall k, l :: 0 <= k < l < |blueprints| ==> PlannedEarlier(blueprints[k], blueprints[l])
      ensures forall i :: 0 <= i < |rows| && RolledBack(rows[i], booking, chainId, failedPosition) ==>
                            exists k :: 0 <= k < |blueprints| && blueprints[k].source == Some(i)
    {
      RollbacksMean(rows, booking, chainId, failedPosition);
      AllRollbacks(rows, booking, chainId, failedPosition);
      var placed := FetchChainApplyRows(booking, chainId);
      var sources := RollbackSources(rows, placed, failedPosition);
      blueprints := BuildRollbacks(chainId, SortBy(sources, PositionGe));
    }

    /** `handle_instruction_result` up to the committed status transaction. */
    method HandleInstructionResult(p: Callback) returns (outcome: Outcome)
      modifies this
      ensures outcome == Classify(old(rows), p)
      ensures rows == Deliver(old(rows), p)
      ensures outcome == RowMissing <==> p.id >= |old(rows)|
      ensures outcome == UuidMismatch <==> p.id < |old(rows)| && old(rows)[p.id].instr.uuid != p.uuid
      ensures outcome == RemoveMismatch <==>
              && p.id < |old(rows)| && old(rows)[p.id].instr.uuid == p.uuid
              && old(rows)[p.id].instr.remove != p.remove
      ensures outcome == Updated <==>
              && p.id < |old(rows)| && old(rows)[p.id].instr.uuid == p.uuid
              && old(rows)[p.id].instr.remove == p.remove && old(rows)[p.id].status == Processing
      ensures outcome != Updated ==> rows == old(rows)
      ensures outcome == Updated ==> CallbackActed(old(rows), p, rows)
    {
      OutcomeMeans(rows, p);
      if Classify(rows, p) == Updated {
        CallbackMeans(rows, p);
      }
      if p.id >= |rows| {
        return RowMissing;
      }
      var row := rows[p.id];
      if row.instr.uuid != p.uuid {
        return UuidMismatch;
      }
      if row.instr.remove != p.remove {
        return RemoveMismatch;
      }
      if row.status != Processing {
        return Noop;
      }
      var source := if p.source.Some? then p.source else row.instr.source;
      if p.success && !row.instr.remove {
        SetInstructionStatus(p.id, Applied);
      } else if p.success {
        SetInstructionStatus(p.id, Removed);
        if source.Some? {
          SetSourceAfterRemoval(source.value, row.instr.dates);
        }
      } else {
        SetInstructionStatus(p.id, Failed);
        if row.instr.remove && source.Some? {
          RestoreSourceApplied(source.value);
        }
        if !row.instr.remove && row.instr.chain.Some? {
          var _ := MarkDependencyFailed(row.instr.key.booking, row.instr.chain.value.chainId,
              row.instr.chain.value.position);
        }
      }
      outcome := Updated;
    }
  }

  lemma EnsureNextRow(rows: seq<Row>, instrs: seq<Instruction>, k: nat)
    requires k < |instrs|
    ensures EnsureRows(rows, instrs[k..]) == EnsureRows(EnsureRow(rows, instrs[k]), instrs[k + 1..])
  {
    assert instrs[k..][0] == instrs[k] && instrs[k..][1..] == instrs[k + 1..];
  }

  /** `ids` are rows of the first instructions. */
  ghost predicate IdsOf(ids: seq<nat>, rows: seq<Row>, instrs: seq<Instruction>) {
    && |ids| <= |instrs|
    && forall j :: 0 <= j < |ids| ==> ids[j] < |rows| && rows[ids[j]].instr.uuid == instrs[j].uuid
  }

  /** The ids found so far stay the ids of their instructions when one more row is recorded. */
  lemma OneMoreId(rows: seq<Row>, instrs: seq<Instruction>, ids: seq<nat>, id: nat)
    requires IdsOf(ids, rows, instrs) && |ids| < |instrs|
    requires var rows' := EnsureRow(rows, instrs[|ids|]);
             FindByUuid(rows', instrs[|ids|].uuid, |rows'|) == Some(id)
    ensures IdsOf(ids + [id], EnsureRow(rows, instrs[|ids|]), instrs)
  {
  }

  /** Row `i` is placed beyond `position`. */
  ghost predicate FailsAt(placed: seq<Placed>, position: int, i: int) {
    exists j :: 0 <= j < |placed| && placed[j].id == i && placed[j].position > position
  }

  lemma FailsAtOneMore(placed: seq<Placed>, x: Placed, position: int)
    ensures forall i :: FailsAt(placed + [x], position, i) <==>
                        FailsAt(placed, position, i) || (x.id == i && x.position > position)
  {
    forall i | FailsAt(placed, position, i) || (x.id == i && x.position > position)
      ensures FailsAt(placed + [x], position, i)
    {
      if FailsAt(placed, position, i) {
        var j :| 0 <= j < |placed| && placed[j].id == i && placed[j].position > position;
        assert (placed + [x])[j] == placed[j];
      } else {
        assert (placed + [x])[|placed|] == x;
      }
    }
  }

  lemma ChainRowsPlaced(rows: seq<Row>, booking: int, chainId: string)
    ensures var placed := SortBy(ChainRowsBelow(rows, booking, chainId, |rows|), PositionLe);
            forall j :: 0 <= j < |placed| ==>
                          && placed[j].id < |rows|
                          && InChain(rows[placed[j].id], booking, chainId)
                          && placed[j].position == rows[placed[j].id].instr.chain.value.position
  {
    var placed := SortBy(ChainRowsBelow(rows, booking, chainId, |rows|), PositionLe);
    forall j | 0 <= j < |placed|
      ensures placed[j].id < |rows| && InChain(rows[placed[j].id], booking, chainId)
              && placed[j].position == rows[placed[j].id].instr.chain.value.position
    {
      assert placed[j] in placed;
    }
  }

  lemma PlaceOf(rows: seq<Row>, booking: int, chainId: string, i: nat) returns (j: nat)
    requires i < |rows| && InChain(rows[i], booking, chainId)
    ensures var placed := SortBy(ChainRowsBelow(rows, booking, chainId, |rows|), PositionLe);
            j < |placed| && placed[j].id == i
  {
    var placed := SortBy(ChainRowsBelow(rows, booking, chainId, |rows|), PositionLe);
    ChainRowsMembers(rows, booking, chainId, |rows|);
    assert Placed(i, rows[i].instr.chain.value.position) in placed;
    j :| 0 <= j < |placed| && placed[j] == Placed(i, rows[i].instr.chain.value.position);
  }

  // ----- merging the overlaps of several plans -----

  /** `merged` names each overlapped row with exactly the dates the plans request of it. */
  ghost predicate MergedAre(rows: seq<Row>, plans: seq<Instruction>, merged: map<nat, set<Date>>) {
    && (forall i: nat :: i in merged <==> i < |rows| && Overlapped(rows[i], plans))
    && (forall i :: i in merged ==> merged[i] == RequestedDates(rows[i], plans))
  }

  lemma RequestedByOneMore(r: Row, plans: seq<Instruction>, p: Instruction)
    ensures RequestedDates(r, plans + [p]) ==
            RequestedDates(r, plans) + (if p.key == r.instr.key then Elems(Keep(r.instr.dates, Elems(p.dates))) else {})
  {
    var more := if p.key == r.instr.key then Elems(Keep(r.instr.dates, Elems(p.dates))) else {};
    forall d | d in RequestedDates(r, plans + [p]) ensures d in RequestedDates(r, plans) + more {
      var q :| q in plans + [p] && q.key == r.instr.key && d in q.dates && d in r.instr.dates;
      assert q in plans || q == p;
    }
    forall d | d in RequestedDates(r, plans) + more ensures d in RequestedDates(r, plans + [p]) {
      if d in RequestedDates(r, plans) {
        var q :| q in plans && q.key == r.instr.key && d in q.dates && d in r.instr.dates;
        assert q in plans + [p];
      } else {
        assert p in plans + [p];
      }
    }
  }

  ghost predicate Merges(overlaps: seq<Overlap>, merged: map<nat, set<Date>>, next: map<nat, set<Date>>) {
    && (forall i :: i in next <==> i in merged || exists o :: o in overlaps && o.id == i)
    && (forall i :: i in merged && (forall o :: o in overlaps ==> o.id != i) ==> next[i] == merged[i])
    && (forall o :: o in overlaps ==> next[o.id] == (if o.id in merged then merged[o.id] else {}) + Elems(o.dates))
  }

  lemma MergesOneMore(overlaps: seq<Overlap>, o: Overlap, merged: map<nat, set<Date>>, r: map<nat, set<Date>>)
    requires Merges(overlaps, merged, r) && forall a :: 0 <= a < |overlaps| ==> overlaps[a].id != o.id
    ensures Merges(overlaps + [o], merged, r[o.id := (if o.id in r then r[o.id] else {}) + Elems(o.dates)])
  {
    assert forall q :: q in overlaps + [o] <==> q in overlaps || q == o;
    assert forall q :: q in overlaps ==> q.id != o.id;
  }

  lemma MergeAt(rows: seq<Row>, plans: seq<Instruction>, p: Instruction, overlaps: seq<Overlap>,
                merged: map<nat, set<Date>>, next: map<nat, set<Date>>, i: nat)
    requires MergedAre(rows, plans, merged) && i < |rows|
    requires overlaps == OverlapsBelow(rows, p.key, Elems(p.dates), |rows|)
    requires Merges(overlaps, merged, next)
    ensures i in next <==> Overlapped(rows[i], plans + [p])
    ensures i in next ==> next[i] == RequestedDates(rows[i], plans + [p])
  {
    RequestedByOneMore(rows[i], plans, p);
    MergeOneRow(rows, p, overlaps, i);
    if o :| o in overlaps && o.id == i {
      assert next[o.id] == (if i in merged then merged[i] else {}) + Elems(o.dates);
    }
  }

  lemma MergeStep(rows: seq<Row>, plans: seq<Instruction>, p: Instruction, overlaps: seq<Overlap>,
                  merged: map<nat, set<Date>>, next: map<nat, set<Date>>)
    requires MergedAre(rows, plans, merged)
    requires overlaps == OverlapsBelow(rows, p.key, Elems(p.dates), |rows|)
    requires Merges(overlaps, merged, next)
    ensures MergedAre(rows, plans + [p], next)
  {
    OverlapsMembers(rows, p.key, Elems(p.dates), |rows|);
    forall i | i in next ensures i < |rows| {
    }
    forall i: nat | i < |rows|
      ensures (i in next <==> Overlapped(rows[i], plans + [p]))
              && (i in next ==> next[i] == RequestedDates(rows[i], plans + [p]))
    {
      MergeAt(rows, plans, p, overlaps, merged, next, i);
    }
  }

  /** Whether plan `p` overlaps row `i`, and with which dates, read off its overlaps. */
  lemma MergeOneRow(rows: seq<Row>, p: Instruction, overlaps: seq<Overlap>, i: nat)
    requires overlaps == OverlapsBelow(rows, p.key, Elems(p.dates), |rows|) && i < |rows|
    ensures var shared := if p.key == rows[i].instr.key then Elems(Keep(rows[i].instr.dates, Elems(p.dates))) else {};
            && ((exists o :: o in overlaps && o.id == i) <==> Active(rows[i]) && !rows[i].instr.remove && shared != {})
            && forall o :: o in overlaps && o.id == i ==> Elems(o.dates) == shared
  {
    OverlapsMembers(rows, p.key, Elems(p.dates), |rows|);
    var kept := Keep(rows[i].instr.dates, Elems(p.dates));
    assert kept != [] ==> kept[0] in Elems(kept);
    if Overlaps(rows[i], p.key, Elems(p.dates)) {
      assert Overlap(i, rows[i].instr, kept) in overlaps;
    }
  }
}
