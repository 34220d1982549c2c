/** Every step of the instruction protocol keeps the invariant `Inv`. */
module ProtocolInvariant {
  import opened Collections
  import opened BookingRules
  import opened InstructionProtocol

  // ----- statements that only shrink rows -----

  ghost predicate RowShrinks(r: Row, r': Row) {
    && r'.instr == r.instr.(dates := r'.instr.dates)
    && r'.instr.dates != [] && Distinct(r'.instr.dates)
    && (forall d :: d in r'.instr.dates ==> d in r.instr.dates)
    && (Active(r') ==> Active(r))
    && (r.instr.remove ==> r'.instr == r.instr && r'.status != Applied)
  }

  ghost predicate Shrinks(rows: seq<Row>, rows': seq<Row>) {
    |rows| == |rows'| && forall i :: 0 <= i < |rows| ==> RowShrinks(rows[i], rows'[i])
  }

  lemma ShrinksKeepsRemovals(rows: seq<Row>, rows': seq<Row>, i: nat, d: Date)
    requires Shrinks(rows, rows') && HasRemoval(rows, i, d)
    ensures HasRemoval(rows', i, d)
  {
    var r :| 0 <= r < |rows| && rows[r].instr.remove && rows[r].instr.source == Some(i) && d in rows[r].instr.dates;
    assert RowShrinks(rows[r], rows'[r]);
  }

  lemma ShrinksKeepsFlight(rows: seq<Row>, rows': seq<Row>, f: Flight)
    requires Shrinks(rows, rows') && FlightOk(rows, f)
    ensures FlightOk(rows', f)
  {
    forall b | b in f.blueprints ensures BlueprintOk(rows', b) {
      assert BlueprintOk(rows, b);
      assert RowShrinks(rows[b.source.value], rows'[b.source.value]);
      forall r | 0 <= r < |rows'| && rows'[r].instr.uuid == b.uuid
        ensures rows'[r].instr.remove && rows'[r].instr.source == b.source
                && (b.uuid.Random? ==> rows'[r].instr.dates == b.dates)
      {
        assert RowShrinks(rows[r], rows'[r]);
      }
    }
    forall a | a in f.applies ensures ApplyOk(rows', a) && Covered(rows', f, a) {
      assert ApplyOk(rows, a) && Covered(rows, f, a);
      forall r | 0 <= r < |rows'| && rows'[r].instr.uuid == a.uuid
        ensures !rows'[r].instr.remove && rows'[r].instr.key == a.key
                && forall d :: d in rows'[r].instr.dates ==> d in a.dates
      {
        assert RowShrinks(rows[r], rows'[r]);
      }
      forall i, d |
        && 0 <= i < |rows'|
        && Active(rows'[i]) && !rows'[i].instr.remove
        && rows'[i].instr.key == a.key && rows'[i].instr.uuid != a.uuid
        && d in rows'[i].instr.dates && d in a.dates
        ensures if f.removalsRecorded then HasRemoval(rows', i, d) else HasBlueprint(f.blueprints, i, d)
      {
        assert RowShrinks(rows[i], rows'[i]);
        if f.removalsRecorded {
          ShrinksKeepsRemovals(rows, rows', i, d);
        }
      }
    }
  }

  lemma ShrinksKeepsRows(rows: seq<Row>, rows': seq<Row>)
    requires Shrinks(rows, rows') && RowsOk(rows) && Accounted(rows)
    ensures RowsOk(rows') && Accounted(rows')
  {
    forall i | 0 <= i < |rows'| ensures RowOk(rows', i) {
      assert RowOk(rows, i) && RowShrinks(rows[i], rows'[i]);
      if rows[i].instr.remove {
        assert RowShrinks(rows[rows[i].instr.source.value], rows'[rows[i].instr.source.value]);
      }
    }
    forall i, j | 0 <= i < j < |rows'| ensures rows'[i].instr.uuid != rows'[j].instr.uuid {
      assert RowShrinks(rows[i], rows'[i]) && RowShrinks(rows[j], rows'[j]);
    }
    forall i, j, d |
      && 0 <= i < j < |rows'|
      && Active(rows'[i]) && !rows'[i].instr.remove
      && Active(rows'[j]) && !rows'[j].instr.remove
      && rows'[i].instr.key == rows'[j].instr.key
      && d in rows'[i].instr.dates && d in rows'[j].instr.dates
      ensures HasRemoval(rows', i, d)
    {
      assert RowShrinks(rows[i], rows'[i]) && RowShrinks(rows[j], rows'[j]);
      ShrinksKeepsRemovals(rows, rows', i, d);
    }
  }

  lemma ShrinksKeepsInv(s: State, rows': seq<Row>)
    requires Inv(s) && Shrinks(s.rows, rows') && RemovalsTookEffect(rows')
    ensures Inv(s.(rows := rows'))
  {
    ShrinksKeepsRows(s.rows, rows');
    forall t | t in s.flights ensures FlightOk(rows', s.flights[t]) {
      ShrinksKeepsFlight(s.rows, rows', s.flights[t]);
    }
  }

  // ----- appended rows -----

  lemma AppendKeepsRemovals(rows: seq<Row>, x: Row, i: nat, d: Date)
    requires HasRemoval(rows, i, d)
    ensures HasRemoval(rows + [x], i, d)
  {
    var r :| 0 <= r < |rows| && rows[r].instr.remove && rows[r].instr.source == Some(i) && d in rows[r].instr.dates;
    assert (rows + [x])[r] == rows[r];
  }

  lemma AppendKeepsRowsOk(rows: seq<Row>, x: Row)
    requires RowsOk(rows) && RemovalsTookEffect(rows)
    requires forall i :: 0 <= i < |rows| ==> rows[i].instr.uuid != x.instr.uuid
    requires x.status == Processing
    requires RowOk(rows + [x], |rows|)
    ensures RowsOk(rows + [x]) && RemovalsTookEffect(rows + [x])
  {
    var rows' := rows + [x];
    forall i | 0 <= i < |rows'| ensures RowOk(rows', i) {
      if i < |rows| {
        assert RowOk(rows, i);
      }
    }
    forall r, i, d |
      && 0 <= r < |rows'| && 0 <= i < |rows'|
      && rows'[r].instr.remove && rows'[r].instr.source == Some(i) && rows'[r].status == Removed
      && Active(rows'[i]) && d in rows'[r].instr.dates
      ensures d !in rows'[i].instr.dates
    {
      assert r < |rows| && RowOk(rows, r);
    }
  }

  /** A removal row may be appended at any time. */
  lemma AppendRemovalKeepsInv(s: State, t: nat, b: Instruction)
    requires Inv(s) && t in s.flights && b in s.flights[t].blueprints
    requires FindByUuid(s.rows, b.uuid, |s.rows|).None?
    ensures Inv(s.(rows := s.rows + [Row(Processing, b)]))
  {
    var rows, x := s.rows, Row(Processing, b);
    var rows' := rows + [x];
    assert FlightOk(rows, s.flights[t]) && BlueprintOk(rows, b) && Planned(s.flights[t], b);
    AppendKeepsRowsOk(rows, x);
    forall i, j, d |
      && 0 <= i < j < |rows'|
      && Active(rows'[i]) && !rows'[i].instr.remove
      && Active(rows'[j]) && !rows'[j].instr.remove
      && rows'[i].instr.key == rows'[j].instr.key
      && d in rows'[i].instr.dates && d in rows'[j].instr.dates
      ensures HasRemoval(rows', i, d)
    {
      assert j < |rows|;
      AppendKeepsRemovals(rows, x, i, d);
    }
    forall u | u in s.flights ensures FlightOk(rows', s.flights[u]) {
      AppendRemovalKeepsFlight(s, t, b, u);
    }
  }

  lemma AppendRemovalKeepsFlight(s: State, t: nat, b: Instruction, u: nat)
    requires Inv(s) && t in s.flights && b in s.flights[t].blueprints && u in s.flights
    ensures FlightOk(s.rows + [Row(Processing, b)], s.flights[u])
  {
    var rows, f, x := s.rows, s.flights[u], Row(Processing, b);
    var rows' := rows + [x];
    assert FlightOk(rows, s.flights[t]) && BlueprintOk(rows, b) && Planned(s.flights[t], b);
    assert FlightOk(rows, f);
    forall b' | b' in f.blueprints ensures BlueprintOk(rows', b') {
      assert BlueprintOk(rows, b') && Planned(f, b');
    }
    forall a | a in f.applies ensures ApplyOk(rows', a) && Covered(rows', f, a) {
      assert ApplyOk(rows, a) && Covered(rows, f, a) && Planned(f, a);
      RemovalKeepsCovered(rows, x, f, a);
    }
  }

  lemma RemovalKeepsCovered(rows: seq<Row>, x: Row, f: Flight, a: Instruction)
    requires Covered(rows, f, a) && x.instr.remove
    ensures Covered(rows + [x], f, a)
  {
    var rows' := rows + [x];
    forall i, d |
      && 0 <= i < |rows'|
      && Active(rows'[i]) && !rows'[i].instr.remove
      && rows'[i].instr.key == a.key && rows'[i].instr.uuid != a.uuid
      && d in rows'[i].instr.dates && d in a.dates
      ensures if f.removalsRecorded then HasRemoval(rows', i, d) else HasBlueprint(f.blueprints, i, d)
    {
      assert i < |rows|;
      if f.removalsRecorded {
        AppendKeepsRemovals(rows, x, i, d);
      }
    }
  }

  /** An apply row may be appended once the removals of its generation are recorded. */
  lemma AppendApplyKeepsInv(s: State, t: nat, a: Instruction)
    requires Inv(s) && t in s.flights && a in s.flights[t].applies && s.flights[t].removalsRecorded
    requires FindByUuid(s.rows, a.uuid, |s.rows|).None?
    ensures Inv(s.(rows := s.rows + [Row(Processing, a)]))
  {
    var rows, x := s.rows, Row(Processing, a);
    var rows' := rows + [x];
    assert FlightOk(rows, s.flights[t]) && ApplyOk(rows, a) && Covered(rows, s.flights[t], a);
    AppendKeepsRowsOk(rows, x);
    forall i, j, d |
      && 0 <= i < j < |rows'|
      && Active(rows'[i]) && !rows'[i].instr.remove
      && Active(rows'[j]) && !rows'[j].instr.remove
      && rows'[i].instr.key == rows'[j].instr.key
      && d in rows'[i].instr.dates && d in rows'[j].instr.dates
      ensures HasRemoval(rows', i, d)
    {
      assert rows'[i] == rows[i];
      AppendKeepsRemovals(rows, x, i, d);
    }
    forall u | u in s.flights ensures FlightOk(rows', s.flights[u]) {
      AppendApplyKeepsFlight(s, t, a, u);
    }
  }

  lemma AppendApplyKeepsFlight(s: State, t: nat, a: Instruction, u: nat)
    requires Inv(s) && t in s.flights && a in s.flights[t].applies && u in s.flights
    requires FindByUuid(s.rows, a.uuid, |s.rows|).None?
    ensures FlightOk(s.rows + [Row(Processing, a)], s.flights[u])
  {
    var rows, f := s.rows, s.flights[u];
    assert FlightOk(rows, s.flights[t]) && ApplyOk(rows, a) && Planned(s.flights[t], a);
    assert FlightOk(rows, f);
    forall b | b in f.blueprints ensures BlueprintOk(rows + [Row(Processing, a)], b) {
      assert BlueprintOk(rows, b) && Planned(f, b);
      BlueprintAfterApply(rows, a, b);
    }
    forall a' | a' in f.applies
      ensures ApplyOk(rows + [Row(Processing, a)], a') && Covered(rows + [Row(Processing, a)], f, a')
    {
      assert ApplyOk(rows, a') && Planned(f, a');
      ApplyAfterApply(rows, a, a');
      AppendApplyKeepsCovered(s, t, a, u, a');
    }
  }

  lemma BlueprintAfterApply(rows: seq<Row>, a: Instruction, b: Instruction)
    requires BlueprintOk(rows, b) && b.uuid != a.uuid
    ensures BlueprintOk(rows + [Row(Processing, a)], b)
  {
  }

  lemma ApplyAfterApply(rows: seq<Row>, a: Instruction, a': Instruction)
    requires ApplyOk(rows, a') && WellFormedApply(a) && (a'.uuid == a.uuid ==> a' == a)
    ensures ApplyOk(rows + [Row(Processing, a)], a')
  {
  }

  lemma AppendApplyKeepsCovered(s: State, t: nat, a: Instruction, u: nat, a': Instruction)
    requires Inv(s) && t in s.flights && a in s.flights[t].applies
    requires u in s.flights && a' in s.flights[u].applies
    ensures Covered(s.rows + [Row(Processing, a)], s.flights[u], a')
  {
    var rows, f, x := s.rows, s.flights[u], Row(Processing, a);
    var rows' := rows + [x];
    assert FlightOk(rows, f) && Covered(rows, f, a');
    forall i, d |
      && 0 <= i < |rows'|
      && Active(rows'[i]) && !rows'[i].instr.remove
      && rows'[i].instr.key == a'.key && rows'[i].instr.uuid != a'.uuid
      && d in rows'[i].instr.dates && d in a'.dates
      ensures if f.removalsRecorded then HasRemoval(rows', i, d) else HasBlueprint(f.blueprints, i, d)
    {
      if i < |rows| {
        assert rows'[i] == rows[i];
        if f.removalsRecorded {
          AppendKeepsRemovals(rows, x, i, d);
        }
      } else {
        assert t == u;
        DisjointAnyOrder(f.applies, a, a', d);
        assert false;
      }
    }
  }

  lemma DisjointAnyOrder(plans: seq<Instruction>, a: Instruction, b: Instruction, d: Date)
    requires SameListingDisjoint(plans) && a in plans && b in plans && a.key == b.key && a != b
    ensures !(d in a.dates && d in b.dates)
  {
    var i :| 0 <= i < |plans| && plans[i] == a;
    var j :| 0 <= j < |plans| && plans[j] == b;
    assert i < j || j < i;
  }

  // ----- recording -----

  lemma EnsureRowKeepsUuid(rows: seq<Row>, x: Instruction, u: Uuid)
    requires FindByUuid(rows, u, |rows|).Some?
    ensures FindByUuid(EnsureRow(rows, x), u, |EnsureRow(rows, x)|).Some?
  {
    var i := FindByUuid(rows, u, |rows|).value;
    assert EnsureRow(rows, x)[i] == rows[i];
  }

  lemma {:induction false} EnsureRowsKeepsUuid(rows: seq<Row>, xs: seq<Instruction>, u: Uuid)
    requires FindByUuid(rows, u, |rows|).Some?
    ensures FindByUuid(EnsureRows(rows, xs), u, |EnsureRows(rows, xs)|).Some?
    decreases |xs|
  {
    if xs == [] {
    } else {
      EnsureRowKeepsUuid(rows, xs[0], u);
      EnsureRowsKeepsUuid(EnsureRow(rows, xs[0]), xs[1..], u);
    }
  }

  lemma {:induction false} EnsureRowsRecordsAll(rows: seq<Row>, xs: seq<Instruction>)
    ensures forall x :: x in xs ==> FindByUuid(EnsureRows(rows, xs), x.uuid, |EnsureRows(rows, xs)|).Some?
    decreases |xs|
  {
    if xs == [] {
    } else {
      var rows' := EnsureRow(rows, xs[0]);
      assert FindByUuid(rows', xs[0].uuid, |rows'|).Some?;
      EnsureRowsKeepsUuid(rows', xs[1..], xs[0].uuid);
      EnsureRowsRecordsAll(rows', xs[1..]);
    }
  }

  lemma {:induction false} EnsureKnownRows(rows: seq<Row>, xs: seq<Instruction>)
    requires forall x :: x in xs ==> FindByUuid(rows, x.uuid, |rows|).Some?
    ensures EnsureRows(rows, xs) == rows
    decreases |xs|
  {
    if xs == [] {
    } else {
      EnsureKnownRows(rows, xs[1..]);
    }
  }

  /** Recording the same instructions again changes nothing. */
  lemma EnsureRowsAgain(rows: seq<Row>, xs: seq<Instruction>)
    ensures EnsureRows(EnsureRows(rows, xs), xs) == EnsureRows(rows, xs)
  {
    EnsureRowsRecordsAll(rows, xs);
    EnsureKnownRows(EnsureRows(rows, xs), xs);
  }

  lemma EnsureRemovalKeepsInv(s: State, t: nat, b: Instruction)
    requires Inv(s) && t in s.flights && b in s.flights[t].blueprints
    ensures Inv(s.(rows := EnsureRow(s.rows, b)))
  {
    if FindByUuid(s.rows, b.uuid, |s.rows|).None? {
      assert EnsureRow(s.rows, b) == s.rows + [Row(Processing, b)];
      AppendRemovalKeepsInv(s, t, b);
    } else {
      assert s.(rows := EnsureRow(s.rows, b)) == s;
    }
  }

  lemma EnsureApplyKeepsInv(s: State, t: nat, a: Instruction)
    requires Inv(s) && t in s.flights && a in s.flights[t].applies && s.flights[t].removalsRecorded
    ensures Inv(s.(rows := EnsureRow(s.rows, a)))
  {
    if FindByUuid(s.rows, a.uuid, |s.rows|).None? {
      AppendApplyKeepsInv(s, t, a);
    } else {
      assert s.(rows := EnsureRow(s.rows, a)) == s;
    }
  }

  lemma {:induction false} RecordRemovalsKeepsInv(s: State, t: nat, xs: seq<Instruction>)
    requires Inv(s) && t in s.flights
    requires forall x :: x in xs ==> x in s.flights[t].blueprints
    ensures Inv(s.(rows := EnsureRows(s.rows, xs)))
    decreases |xs|
  {
    if xs == [] {
    } else {
      EnsureRemovalKeepsInv(s, t, xs[0]);
      RecordRemovalsKeepsInv(s.(rows := EnsureRow(s.rows, xs[0])), t, xs[1..]);
    }
  }

  lemma {:induction false} RecordAppliesKeepsInv(s: State, t: nat, xs: seq<Instruction>)
    requires Inv(s) && t in s.flights && s.flights[t].removalsRecorded
    requires forall x :: x in xs ==> x in s.flights[t].applies
    ensures Inv(s.(rows := EnsureRows(s.rows, xs)))
    decreases |xs|
  {
    if xs == [] {
    } else {
      EnsureApplyKeepsInv(s, t, xs[0]);
      RecordAppliesKeepsInv(s.(rows := EnsureRow(s.rows, xs[0])), t, xs[1..]);
    }
  }

  lemma RecordedBlueprint(rows: seq<Row>, f: Flight, b: Instruction, d: Date)
    requires b in f.blueprints && BlueprintOk(rows, b) && b.uuid.Random? && d in b.dates
    requires FindByUuid(rows, b.uuid, |rows|).Some?
    ensures HasRemoval(rows, b.source.value, d)
  {
    var r := FindByUuid(rows, b.uuid, |rows|).value;
    assert rows[r].instr.remove && rows[r].instr.source == b.source && d in rows[r].instr.dates;
  }

  /** The checkpoint after the removal rows: from here on recorded rows stand for the blueprints. */
  lemma CheckpointRemovalsKeepsFlight(rows: seq<Row>, f: Flight)
    requires FlightOk(rows, f) && !f.removalsRecorded
    requires forall b :: b in f.blueprints ==> FindByUuid(rows, b.uuid, |rows|).Some?
    ensures FlightOk(rows, f.(removalsRecorded := true))
  {
    forall a, i, d | a in f.applies && 0 <= i < |rows| && d in a.dates && HasBlueprint(f.blueprints, i, d)
      ensures HasRemoval(rows, i, d)
    {
      var b :| b in f.blueprints && b.source == Some(i) && d in b.dates;
      RecordedBlueprint(rows, f, b, d);
    }
    forall a | a in f.applies ensures Covered(rows, f.(removalsRecorded := true), a) {
      assert Covered(rows, f, a);
    }
  }

  lemma RemoveFlightKeepsInv(s: State, t: nat)
    requires Inv(s)
    ensures Inv(s.(flights := s.flights - {t}))
  {
  }

  lemma RecordRemovalsStepKeepsInv(s: State, t: nat, checkpointed: bool)
    requires Inv(s) && Enabled(s, RecordRemovals(t, checkpointed))
    ensures Inv(Next(s, RecordRemovals(t, checkpointed)))
  {
    var f := s.flights[t];
    var rows' := EnsureRows(s.rows, f.blueprints);
    RecordRemovalsKeepsInv(s, t, f.blueprints);
    if checkpointed {
      EnsureRowsRecordsAll(s.rows, f.blueprints);
      assert FlightOk(rows', f);
      CheckpointRemovalsKeepsFlight(rows', f);
      SameFlightUpToStage(s.flights, t);
    }
  }

  lemma SameFlightUpToStage(flights: map<nat, Flight>, t: nat)
    requires ListingsExclusive(flights) && UuidsExclusive(flights) && t in flights
    ensures ListingsExclusive(flights[t := flights[t].(removalsRecorded := true)])
    ensures UuidsExclusive(flights[t := flights[t].(removalsRecorded := true)])
  {
    var flights' := flights[t := flights[t].(removalsRecorded := true)];
    forall u, v, x, y |
      && u in flights' && v in flights' && Planned(flights'[u], x) && Planned(flights'[v], y)
      && x.uuid == y.uuid && x.uuid.Random?
      ensures x == y
    {
      assert Planned(flights[u], x) && Planned(flights[v], y);
    }
  }

  lemma RecordAppliesStepKeepsInv(s: State, t: nat, checkpointed: bool)
    requires Inv(s) && Enabled(s, RecordApplies(t, checkpointed))
    ensures Inv(Next(s, RecordApplies(t, checkpointed)))
  {
    var f := s.flights[t];
    RecordAppliesKeepsInv(s, t, f.applies);
    if checkpointed {
      RemoveFlightKeepsInv(s.(rows := EnsureRows(s.rows, f.applies)), t);
    }
  }

  // ----- reservations and callbacks -----

  lemma ReserveShrinks(rows: seq<Row>, ids: set<nat>)
    requires RowsOk(rows) && RemovalsTookEffect(rows)
    ensures Shrinks(rows, Reserve(rows, ids)) && RemovalsTookEffect(Reserve(rows, ids))
  {
    forall i | 0 <= i < |rows| ensures RowShrinks(rows[i], Reserve(rows, ids)[i]) {
      assert RowOk(rows, i);
    }
  }

  lemma SourceRowShrinks(r: Row, removed: set<Date>)
    requires r.instr.dates != [] && Distinct(r.instr.dates) && !r.instr.remove
    ensures RowShrinks(r, SourceRowAfterRemoval(r, removed))
  {
    MinusDistinct(r.instr.dates, removed);
  }

  /** What the status transaction for a successful removal does, row by row. */
  lemma RemovalRows(rows: seq<Row>, p: Callback, source: nat)
    requires RowsOk(rows) && MayReplay(rows, p) && p.success && p.remove
    requires rows[p.id].instr.source == Some(source)
    ensures source < p.id && !rows[source].instr.remove
    ensures var rows' := StatusUpdate(rows, p);
            && rows'[p.id] == rows[p.id].(status := Removed)
            && rows'[source] == SourceRowAfterRemoval(rows[source], Elems(rows[p.id].instr.dates))
            && forall r :: 0 <= r < |rows| && r != p.id && r != source ==> rows'[r] == rows[r]
  {
    assert RowOk(rows, p.id);
  }

  lemma RemovalShrinks(rows: seq<Row>, p: Callback)
    requires RowsOk(rows) && RemovalsTookEffect(rows) && MayReplay(rows, p) && p.success && p.remove
    ensures Shrinks(rows, StatusUpdate(rows, p)) && RemovalsTookEffect(StatusUpdate(rows, p))
  {
    var rows' := StatusUpdate(rows, p);
    assert RowOk(rows, p.id);
    var source := rows[p.id].instr.source.value;
    var removed := Elems(rows[p.id].instr.dates);
    RemovalRows(rows, p, source);
    forall i | 0 <= i < |rows| ensures RowShrinks(rows[i], rows'[i]) {
      assert RowOk(rows, i);
      if i == source {
        SourceRowShrinks(rows[i], removed);
      }
    }
    forall r, i, d |
      && 0 <= r < |rows'| && 0 <= i < |rows'|
      && rows'[r].instr.remove && rows'[r].instr.source == Some(i) && rows'[r].status == Removed
      && Active(rows'[i]) && d in rows'[r].instr.dates
      ensures d !in rows'[i].instr.dates
    {
      assert RowShrinks(rows[r], rows'[r]) && RowShrinks(rows[i], rows'[i]);
      if r == p.id {
        assert d in removed;
      } else {
        assert rows'[r] == rows[r] by { assert RowOk(rows, r); }
      }
    }
  }

  lemma OtherUpdateShrinks(rows: seq<Row>, p: Callback)
    requires RowsOk(rows) && RemovalsTookEffect(rows) && MayReplay(rows, p) && !(p.success && p.remove)
    ensures Shrinks(rows, StatusUpdate(rows, p)) && RemovalsTookEffect(StatusUpdate(rows, p))
  {
    var rows' := StatusUpdate(rows, p);
    assert RowOk(rows, p.id);
    forall i | 0 <= i < |rows|
      ensures RowShrinks(rows[i], rows'[i]) && rows'[i].instr == rows[i].instr
              && (rows'[i].status == Removed ==> rows[i].status == Removed)
    {
      assert RowOk(rows, i);
    }
  }

  /** The status transaction keeps the invariant, also when it runs again after a crash. */
  lemma ReplayKeepsInv(s: State, p: Callback)
    requires Inv(s) && MayReplay(s.rows, p)
    ensures Inv(s.(rows := StatusUpdate(s.rows, p)))
  {
    if p.success && p.remove {
      RemovalShrinks(s.rows, p);
    } else {
      OtherUpdateShrinks(s.rows, p);
    }
    ShrinksKeepsInv(s, StatusUpdate(s.rows, p));
  }

  lemma DeliverKeepsInv(s: State, p: Callback)
    requires Inv(s) && Enabled(s, Receive(p))
    ensures Inv(Next(s, Receive(p)))
  {
    if Classify(s.rows, p) == Updated {
      ReplayKeepsInv(s, p);
    }
  }

  // ----- planning -----

  function OverlapBlueprint(rows: seq<Row>, plans: seq<Instruction>, base: nat, i: nat): Instruction
    requires i < |rows|
  {
    Removal(rows[i].instr, i, Keep(rows[i].instr.dates, RequestedDates(rows[i], plans)), Random(base + i))
  }

  lemma {:induction false} OverlapBlueprintsMembers(rows: seq<Row>, plans: seq<Instruction>, base: nat, n: nat)
    requires n <= |rows|
    ensures forall b :: b in OverlapBlueprints(rows, plans, base, n) <==>
                        exists i: nat :: i < n && Overlapped(rows[i], plans)
                            && b == OverlapBlueprint(rows, plans, base, i)
  {
    if n == 0 {
    } else {
      OverlapBlueprintsMembers(rows, plans, base, n - 1);
    }
  }

  lemma NewFlightKeepsInv(s: State, t: nat, f: Flight)
    requires Inv(s) && t !in s.flights
    requires FlightOk(s.rows, f)
    requires forall u, a, b :: u in s.flights && a in s.flights[u].applies && b in f.applies ==> a.key != b.key
    requires forall x :: Planned(f, x) && x.uuid.Random? ==> !UsedUuid(s, x.uuid)
    requires forall x, y :: Planned(f, x) && Planned(f, y) && x.uuid == y.uuid && x.uuid.Random? ==> x == y
    ensures Inv(s.(flights := s.flights[t := f]))
  {
    var flights' := s.flights[t := f];
    forall u, v, x, y |
      && u in flights' && v in flights' && Planned(flights'[u], x) && Planned(flights'[v], y)
      && x.uuid == y.uuid && x.uuid.Random?
      ensures x == y
    {
      assert u != t ==> flights'[u] == s.flights[u] && UsedUuid(s, x.uuid);
      assert v != t ==> flights'[v] == s.flights[v] && UsedUuid(s, y.uuid);
    }
  }

  /** A removal planned for an existing override under a fresh identifier. */
  lemma FreshBlueprintOk(rows: seq<Row>, i: nat, dates: seq<Date>, uuid: Uuid)
    requires RowsOk(rows) && i < |rows| && !rows[i].instr.remove && dates != [] && Distinct(dates)
    requires uuid.Random? && FindByUuid(rows, uuid, |rows|).None?
    ensures BlueprintOk(rows, Removal(rows[i].instr, i, dates, uuid))
  {
  }

  lemma OverlapBlueprintIsOk(s: State, plans: seq<Instruction>, base: nat, i: nat)
    requires Inv(s) && FreshFrom(s, plans, base) && i < |s.rows| && Overlapped(s.rows[i], plans)
    ensures BlueprintOk(s.rows, OverlapBlueprint(s.rows, plans, base, i))
    ensures !UsedUuid(s, Random(base + i))
  {
    var rows := s.rows;
    var requested := RequestedDates(rows[i], plans);
    assert RowOk(rows, i);
    KeepDistinct(rows[i].instr.dates, requested);
    var d :| d in requested;
    assert d in Keep(rows[i].instr.dates, requested);
    assert !UsedUuid(s, Random(base + i));
    FreshBlueprintOk(rows, i, Keep(rows[i].instr.dates, requested), Random(base + i));
  }

  lemma PlanCovers(rows: seq<Row>, plans: seq<Instruction>, base: nat, a: Instruction)
    requires a in plans
    ensures Covered(rows, Flight(OverlapBlueprints(rows, plans, base, |rows|), plans, false), a)
  {
    var blueprints := OverlapBlueprints(rows, plans, base, |rows|);
    OverlapBlueprintsMembers(rows, plans, base, |rows|);
    forall i, d |
      && 0 <= i < |rows|
      && Active(rows[i]) && !rows[i].instr.remove && rows[i].instr.key == a.key
      && d in rows[i].instr.dates && d in a.dates
      ensures HasBlueprint(blueprints, i, d)
    {
      assert d in RequestedDates(rows[i], plans);
      var b := OverlapBlueprint(rows, plans, base, i);
      assert b in blueprints && b.source == Some(i) && d in b.dates;
    }
  }

  lemma PlanApplyOk(s: State, a: Instruction)
    requires WellFormedApply(a) && !UsedUuid(s, a.uuid)
    ensures ApplyOk(s.rows, a)
  {
  }

  lemma PlannedUuidsDiffer(rows: seq<Row>, plans: seq<Instruction>, base: nat, x: Instruction, y: Instruction)
    requires forall p :: p in plans ==> p.uuid.Random? && p.uuid.serial < base
    requires forall i, j :: 0 <= i < j < |plans| ==> plans[i].uuid != plans[j].uuid
    requires x in OverlapBlueprints(rows, plans, base, |rows|) || x in plans
    requires y in OverlapBlueprints(rows, plans, base, |rows|) || y in plans
    requires x.uuid == y.uuid
    ensures x == y
  {
    OverlapBlueprintsMembers(rows, plans, base, |rows|);
    if x in plans && y in plans {
      var i :| 0 <= i < |plans| && plans[i] == x;
      var j :| 0 <= j < |plans| && plans[j] == y;
      assert i == j;
    }
  }

  /** What a generation plans is sound, and its identifiers are new and distinct. */
  lemma GenerationFlightIsOk(s: State, t: nat, plans: seq<Instruction>, base: nat, f: Flight)
    requires Inv(s) && Enabled(s, PlanGeneration(t, plans, base, true))
    requires f == Flight(OverlapBlueprints(s.rows, plans, base, |s.rows|), plans, false)
    ensures FlightOk(s.rows, f)
    ensures forall u, a, b :: u in s.flights && a in s.flights[u].applies && b in f.applies ==> a.key != b.key
    ensures forall x :: Planned(f, x) ==> !UsedUuid(s, x.uuid)
    ensures forall x, y :: Planned(f, x) && Planned(f, y) && x.uuid == y.uuid ==> x == y
  {
    OverlapBlueprintsMembers(s.rows, plans, base, |s.rows|);
    forall b | b in f.blueprints ensures BlueprintOk(s.rows, b) && b.uuid.Random? && !UsedUuid(s, b.uuid) {
      var i: nat :| i < |s.rows| && Overlapped(s.rows[i], plans) && b == OverlapBlueprint(s.rows, plans, base, i);
      OverlapBlueprintIsOk(s, plans, base, i);
    }
    forall a | a in plans ensures ApplyOk(s.rows, a) && Covered(s.rows, f, a) {
      PlanApplyOk(s, a);
      PlanCovers(s.rows, plans, base, a);
    }
    forall x, y | Planned(f, x) && Planned(f, y) && x.uuid == y.uuid ensures x == y {
      PlannedUuidsDiffer(s.rows, plans, base, x, y);
    }
  }

  lemma GenerationPlanKeepsInv(s: State, t: nat, plans: seq<Instruction>, base: nat, checkpointed: bool)
    requires Inv(s) && Enabled(s, PlanGeneration(t, plans, base, checkpointed))
    ensures Inv(Next(s, PlanGeneration(t, plans, base, checkpointed)))
  {
    var ids := OverlappedIds(s.rows, plans);
    var rows' := Reserve(s.rows, ids);
    ReserveShrinks(s.rows, ids);
    ShrinksKeepsInv(s, rows');
    if checkpointed {
      var f := Flight(OverlapBlueprints(s.rows, plans, base, |s.rows|), plans, false);
      GenerationFlightIsOk(s, t, plans, base, f);
      ShrinksKeepsFlight(s.rows, rows', f);
      var s' := s.(rows := rows');
      forall x | Planned(f, x) ensures !UsedUuid(s', x.uuid) {
        SameUuidsUsed(s, rows', x.uuid);
      }
      NewFlightKeepsInv(s', t, f);
    }
  }

  /** Finding overlaps without having reserved them yet. */
  lemma SearchKeepsInv(s: State, t: nat, plans: seq<Instruction>, base: nat)
    requires Inv(s) && Enabled(s, SearchOverlaps(t, plans, base))
    ensures Inv(Next(s, SearchOverlaps(t, plans, base)))
  {
    var f := Flight(OverlapBlueprints(s.rows, plans, base, |s.rows|), plans, false);
    GenerationFlightIsOk(s, t, plans, base, f);
    NewFlightKeepsInv(s, t, f);
  }

  /** Reserving rows found some time ago, or any other rows. */
  lemma ReserveKeepsInv(s: State, ids: set<nat>)
    requires Inv(s)
    ensures Inv(s.(rows := Reserve(s.rows, ids)))
  {
    ReserveShrinks(s.rows, ids);
    ShrinksKeepsInv(s, Reserve(s.rows, ids));
  }

  lemma SameUuidsUsed(s: State, rows': seq<Row>, u: Uuid)
    requires Shrinks(s.rows, rows') && !UsedUuid(s, u)
    ensures !UsedUuid(s.(rows := rows'), u)
  {
    forall i | 0 <= i < |rows'| ensures rows'[i].instr.uuid != u {
      assert RowShrinks(s.rows[i], rows'[i]);
    }
  }

  function BookingBlueprint(rows: seq<Row>, base: nat, i: nat): Instruction
    requires i < |rows|
  {
    Removal(rows[i].instr, i, rows[i].instr.dates, Random(base + i))
  }

  lemma {:induction false} BookingBlueprintsMembers(rows: seq<Row>, booking: int, property: int, base: nat, n: nat)
    requires n <= |rows|
    ensures forall b :: b in BookingBlueprints(rows, booking, property, base, n) <==>
                        exists i: nat :: i < n && SelectedForRemoval(rows[i], booking, property)
                            && b == BookingBlueprint(rows, base, i)
  {
    if n == 0 {
    } else {
      BookingBlueprintsMembers(rows, booking, property, base, n - 1);
    }
  }

  lemma BookingPlanKeepsInv(s: State, t: nat, booking: int, property: int, base: nat)
    requires Inv(s) && Enabled(s, PlanBookingRemoval(t, booking, property, base))
    ensures Inv(Next(s, PlanBookingRemoval(t, booking, property, base)))
  {
    var blueprints := BookingBlueprints(s.rows, booking, property, base, |s.rows|);
    BookingBlueprintsMembers(s.rows, booking, property, base, |s.rows|);
    forall b | b in blueprints ensures BlueprintOk(s.rows, b) && !UsedUuid(s, b.uuid) {
      var i: nat :| i < |s.rows| && SelectedForRemoval(s.rows[i], booking, property)
                    && b == BookingBlueprint(s.rows, base, i);
      BookingBlueprintIsOk(s, base, i);
    }
    NewFlightKeepsInv(s, t, Flight(blueprints, [], false));
  }

  lemma BookingBlueprintIsOk(s: State, base: nat, i: nat)
    requires RowsOk(s.rows) && FreshFrom(s, [], base) && i < |s.rows| && !s.rows[i].instr.remove
    ensures BlueprintOk(s.rows, BookingBlueprint(s.rows, base, i))
    ensures !UsedUuid(s, BookingBlueprint(s.rows, base, i).uuid)
  {
    assert RowOk(s.rows, i);
    assert !UsedUuid(s, Random(base + i));
    FreshBlueprintOk(s.rows, i, s.rows[i].instr.dates, Random(base + i));
  }

  lemma RollbackPlanKeepsInv(s: State, t: nat, failedId: nat)
    requires Inv(s) && Enabled(s, PlanRollback(t, failedId))
    ensures Inv(Next(s, PlanRollback(t, failedId)))
  {
    var failed := s.rows[failedId].instr;
    var booking, chainId, position := failed.key.booking, failed.chain.value.chainId, failed.chain.value.position;
    var plan := RollbackPlan(s.rows, booking, chainId, position);
    var blueprints := RollbackBlueprints(s.rows, booking, chainId, position);
    forall b | b in blueprints ensures BlueprintOk(s.rows, b) && b.uuid.Rollback? {
      var k :| 0 <= k < |blueprints| && blueprints[k] == b;
      assert b == RollbackRemoval(s.rows, chainId, plan[k]);
      assert RowOk(s.rows, plan[k].id);
      RollbackPlanMembers(s.rows, booking, chainId, position);
      assert plan[k] in plan;
      forall r | 0 <= r < |s.rows| && s.rows[r].instr.uuid == b.uuid
        ensures s.rows[r].instr.remove && s.rows[r].instr.source == b.source
      {
        assert RowOk(s.rows, r);
      }
    }
    NewFlightKeepsInv(s, t, Flight(blueprints, [], false));
  }

  /** The rollback plan names the chain's applied rows before the failed position, and no others. */
  lemma RollbackPlanMembers(rows: seq<Row>, booking: int, chainId: string, position: int)
    ensures forall x :: x in RollbackPlan(rows, booking, chainId, position) <==>
                        && x.id < |rows|
                        && InChain(rows[x.id], booking, chainId)
                        && x.position == rows[x.id].instr.chain.value.position
                        && x.position < position
                        && rows[x.id].status == Applied
  {
    ChainRowsMembers(rows, booking, chainId, |rows|);
  }

  lemma {:induction false} ChainRowsMembers(rows: seq<Row>, booking: int, chainId: string, n: nat)
    requires n <= |rows|
    ensures forall x :: x in ChainRowsBelow(rows, booking, chainId, n) <==>
                        && x.id < n
                        && InChain(rows[x.id], booking, chainId)
                        && x.position == rows[x.id].instr.chain.value.position
  {
    if n == 0 {
    } else {
      ChainRowsMembers(rows, booking, chainId, n - 1);
    }
  }

  // ----- every step, every run -----

  lemma StepKeepsInv(s: State, step: Step)
    requires Inv(s) && Enabled(s, step)
    ensures Inv(Next(s, step))
  {
    match step
    case PlanGeneration(task, plans, base, checkpointed) => GenerationPlanKeepsInv(s, task, plans, base, checkpointed);
    case SearchOverlaps(task, plans, base) => SearchKeepsInv(s, task, plans, base);
    case ReserveOverlaps(ids) => ReserveKeepsInv(s, ids);
    case PlanBookingRemoval(task, booking, property, base) => BookingPlanKeepsInv(s, task, booking, property, base);
    case PlanRollback(task, failedId) => RollbackPlanKeepsInv(s, task, failedId);
    case RecordRemovals(task, checkpointed) => RecordRemovalsStepKeepsInv(s, task, checkpointed);
    case RecordApplies(task, checkpointed) => RecordAppliesStepKeepsInv(s, task, checkpointed);
    case Receive(p) => DeliverKeepsInv(s, p);
    case Replay(p) => ReplayKeepsInv(s, p);
    case Abandon(task) => RemoveFlightKeepsInv(s, task);
  }

  lemma {:induction false} RunKeepsInv(s: State, steps: seq<Step>, t: State)
    requires Inv(s) && Run(s, steps, t)
    ensures Inv(t)
    decreases |steps|
  {
    if steps == [] {
    } else {
      StepKeepsInv(s, steps[0]);
      RunKeepsInv(Next(s, steps[0]), steps[1..], t);
    }
  }
}
