/** The plan a generation checkpoints is one the dispatch handler can deliver. */
module GenerationPlan {
  import opened Collections
  import opened BookingRules
  import opened DispatchPlan
  import opened ProtocolInvariant
  import opened ProtocolTheorems
  import opened RuleMeanings

  function OverlapIds(overlaps: seq<Overlap>): (r: seq<nat>)
    ensures |r| == |overlaps|
    ensures forall k :: 0 <= k < |r| ==> r[k] == overlaps[k].id
  {
    seq(|overlaps|, k requires 0 <= k < |overlaps| => overlaps[k].id)
  }

  /** `instruction_plans` with the overlaps each of them found; entries are already in chain order. */
  function PlannedApplies(rows: seq<Row>, plans: seq<Instruction>): (r: seq<Apply>)
    ensures |r| == |plans|
    ensures forall k :: 0 <= k < |r| ==>
                          r[k] == Apply(plans[k], k + 1,
                                        OverlapIds(OverlapsBelow(rows, plans[k].key, Elems(plans[k].dates), |rows|)))
  {
    seq(|plans|, k requires 0 <= k < |plans| =>
      Apply(plans[k], k + 1, OverlapIds(OverlapsBelow(rows, plans[k].key, Elems(plans[k].dates), |rows|))))
  }

  function CheckpointedPlan(rows: seq<Row>, task: nat, booking: int, plans: seq<Instruction>, base: nat): Plan {
    Plan(task, booking, OverlapBlueprints(rows, plans, base, |rows|), PlannedApplies(rows, plans))
  }

  lemma SharedNightIsRequested(r: Row, plans: seq<Instruction>, p: Instruction)
    requires p in plans && Overlaps(r, p.key, Elems(p.dates))
    ensures RequestedDates(r, plans) != {}
  {
    var d := Keep(r.instr.dates, Elems(p.dates))[0];
    assert d in Keep(r.instr.dates, Elems(p.dates));
    assert d in RequestedDates(r, plans);
  }

  lemma SharedNightIsKept(r: Row, dates: seq<Date>)
    ensures Keep(r.instr.dates, Elems(dates)) != [] <==> exists d :: d in r.instr.dates && d in dates
  {
    var kept := Keep(r.instr.dates, Elems(dates));
    if kept != [] {
      var d := kept[0];
      assert d in kept && d in r.instr.dates && d in dates;
    }
    if d :| d in r.instr.dates && d in dates {
      assert d in kept;
    }
  }

  /** An apply's overlaps are the active overrides of its listing that share a night with it. */
  lemma PlannedOverlaps(rows: seq<Row>, plans: seq<Instruction>, k: nat, s: nat)
    requires k < |plans|
    ensures s in PlannedApplies(rows, plans)[k].overlaps <==>
            && s < |rows| && rows[s].status in {Applied, Processing} && !rows[s].instr.remove
            && rows[s].instr.key == plans[k].key
            && exists d :: d in rows[s].instr.dates && d in plans[k].dates
  {
    var p := plans[k];
    var overlaps := OverlapsBelow(rows, p.key, Elems(p.dates), |rows|);
    var ids := OverlapIds(overlaps);
    OverlapsMembers(rows, p.key, Elems(p.dates), |rows|);
    if s in ids {
      var j :| 0 <= j < |ids| && ids[j] == s;
      assert overlaps[j] in overlaps && overlaps[j].id == s;
    }
    if s < |rows| {
      SharedNightIsKept(rows[s], p.dates);
      if Overlaps(rows[s], p.key, Elems(p.dates)) {
        var o := Overlap(s, rows[s].instr, Keep(rows[s].instr.dates, Elems(p.dates)));
        assert o in overlaps;
        var j :| 0 <= j < |overlaps| && overlaps[j] == o;
        assert ids[j] == s;
      }
    }
  }

  /** Every source an apply overlapped has exactly one removal in the plan. */
  lemma OverlapsAreRemoved(rows: seq<Row>, plans: seq<Instruction>, base: nat, k: nat, s: nat)
    requires k < |plans| && s in PlannedApplies(rows, plans)[k].overlaps
    ensures HasSource(OverlapBlueprints(rows, plans, base, |rows|), s)
  {
    var p := plans[k];
    var overlaps := OverlapsBelow(rows, p.key, Elems(p.dates), |rows|);
    var i :| 0 <= i < |overlaps| && OverlapIds(overlaps)[i] == s;
    OverlapsMembers(rows, p.key, Elems(p.dates), |rows|);
    assert overlaps[i] in overlaps;
    assert Overlaps(rows[s], p.key, Elems(p.dates)) by {
      assert overlaps[i].id == s;
    }
    SharedNightIsRequested(rows[s], plans, p);
    OverlapBlueprintsMembers(rows, plans, base, |rows|);
    assert OverlapBlueprint(rows, plans, base, s) in OverlapBlueprints(rows, plans, base, |rows|);
  }

  lemma CheckpointedPlanIsOk(rows: seq<Row>, task: nat, booking: int, plans: seq<Instruction>, base: nat)
    requires forall p :: p in plans ==> p.uuid.Random? && p.uuid.serial < base
    requires forall i, j :: 0 <= i < j < |plans| ==> plans[i].uuid != plans[j].uuid
    ensures PlanOk(CheckpointedPlan(rows, task, booking, plans, base))
  {
    var removals := OverlapBlueprints(rows, plans, base, |rows|);
    OverlapBlueprintsMembers(rows, plans, base, |rows|);
    OverlapBlueprintUuids(rows, plans, base, |rows|);
    forall j | 0 <= j < |removals|
      ensures removals[j].source.Some? && removals[j].uuid == Random(base + removals[j].source.value)
    {
      assert removals[j] in removals;
    }
    forall k | 0 <= k < |plans| ensures plans[k].uuid.Random? && plans[k].uuid.serial < base {
      assert plans[k] in plans;
    }
    forall k, s | 0 <= k < |plans| && s in PlannedApplies(rows, plans)[k].overlaps
      ensures HasSource(removals, s)
    {
      OverlapsAreRemoved(rows, plans, base, k, s);
    }
  }
}
