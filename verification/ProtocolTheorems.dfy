/** What the invariant means for whole runs of the instruction protocol. */
module ProtocolTheorems {
  import opened Collections
  import opened BookingRules
  import opened InstructionProtocol
  import opened ProtocolInvariant
  import opened RuleMeanings

  const START := State([], map[])

  // ----- overlap accounting -----

  /** A removal of row `i` naming `d` that is still pending, or that has failed. */
  ghost predicate UnsettledRemoval(rows: seq<Row>, i: nat, d: Date) {
    exists r :: 0 <= r < |rows| && rows[r].instr.remove && rows[r].instr.source == Some(i) && d in rows[r].instr.dates
                && (rows[r].status == Processing || rows[r].status == Failed)
  }

  ghost predicate Override(r: Row) {
    Active(r) && !r.instr.remove
  }

  lemma SharedNightsAreAccounted(steps: seq<Step>, t: State, i: nat, j: nat, d: Date)
    requires Run(START, steps, t)
    requires i < j < |t.rows| && Override(t.rows[i]) && Override(t.rows[j])
    requires t.rows[i].instr.key == t.rows[j].instr.key
    requires d in t.rows[i].instr.dates && d in t.rows[j].instr.dates
    ensures UnsettledRemoval(t.rows, i, d)
  {
    RunKeepsInv(START, steps, t);
    assert HasRemoval(t.rows, i, d);
    var r :| 0 <= r < |t.rows| && t.rows[r].instr.remove && t.rows[r].instr.source == Some(i)
        && d in t.rows[r].instr.dates;
    assert RowOk(t.rows, r);
  }

  lemma SettledListingsAreDisjoint(steps: seq<Step>, t: State)
    requires Run(START, steps, t)
    requires forall r :: 0 <= r < |t.rows| && t.rows[r].instr.remove ==> t.rows[r].status == Removed
    ensures forall i, j, d ::
              && 0 <= i < j < |t.rows| && Override(t.rows[i]) && Override(t.rows[j])
              && t.rows[i].instr.key == t.rows[j].instr.key && d in t.rows[i].instr.dates
              ==> d !in t.rows[j].instr.dates
  {
    forall i, j, d |
      && 0 <= i < j < |t.rows| && Override(t.rows[i]) && Override(t.rows[j])
      && t.rows[i].instr.key == t.rows[j].instr.key && d in t.rows[i].instr.dates
      ensures d !in t.rows[j].instr.dates
    {
      if d in t.rows[j].instr.dates {
        SharedNightsAreAccounted(steps, t, i, j, d);
        assert false;
      }
    }
  }

  // ----- what a row can become -----

  /** The dates of row `i` that successful removals have taken. */
  ghost function Taken(rows: seq<Row>, i: nat): set<Date> {
    set r, d | 0 <= r < |rows| && rows[r].instr.remove && rows[r].instr.source == Some(i)
               && rows[r].status == Removed && d in rows[r].instr.dates :: d
  }

  /** What a row may become: `taken` are the dates successful removals have taken from it. */
  ghost predicate Becomes(r: Row, r': Row, taken: set<Date>) {
    && r'.instr == r.instr.(dates := r'.instr.dates)
    && r'.instr.dates != []
    && r'.instr.dates == Keep(r.instr.dates, Elems(r'.instr.dates))
    && (r.status == Removed || r.status == Failed ==> r' == r)
    && (r.instr.remove ==> r'.instr == r.instr && r'.status != Applied)
    && (!r.instr.remove && r'.status != Failed ==> EffectiveDates(r') == Minus(EffectiveDates(r), taken))
  }

  ghost predicate RowEvolves(rows: seq<Row>, rows': seq<Row>, i: nat)
    requires i < |rows| <= |rows'|
  {
    Becomes(rows[i], rows'[i], Taken(rows', i))
  }

  ghost predicate Evolves(rows: seq<Row>, rows': seq<Row>) {
    |rows| <= |rows'| && forall i :: 0 <= i < |rows| ==> RowEvolves(rows, rows', i)
  }

  lemma TakenGrows(rows: seq<Row>, rows': seq<Row>, i: nat)
    requires Evolves(rows, rows')
    ensures Taken(rows, i) <= Taken(rows', i)
  {
    forall d | d in Taken(rows, i) ensures d in Taken(rows', i) {
      var r :| 0 <= r < |rows| && rows[r].instr.remove && rows[r].instr.source == Some(i)
               && rows[r].status == Removed && d in rows[r].instr.dates;
      assert RowEvolves(rows, rows', r);
    }
  }

  lemma EvolvesTransitive(a: seq<Row>, b: seq<Row>, c: seq<Row>)
    requires Evolves(a, b) && Evolves(b, c)
    ensures Evolves(a, c)
  {
    forall i | 0 <= i < |a| ensures RowEvolves(a, c, i) {
      assert RowEvolves(a, b, i) && RowEvolves(b, c, i);
      var x, y, z := a[i], b[i], c[i];
      KeepKeep(x.instr.dates, Elems(y.instr.dates), Elems(z.instr.dates));
      KeepExtensional(x.instr.dates, Elems(y.instr.dates) * Elems(z.instr.dates), Elems(z.instr.dates));
      TakenGrows(b, c, i);
      MinusMinus(EffectiveDates(x), Taken(b, i), Taken(c, i));
      assert Taken(b, i) + Taken(c, i) == Taken(c, i);
    }
  }

  lemma KeepsItself(s: seq<Date>)
    ensures Keep(s, Elems(s)) == s
  {
    KeepEverything(s, Elems(s));
  }

  /** Nothing taken so far is left on an active row. */
  lemma NothingMoreTaken(rows: seq<Row>, i: nat)
    requires RemovalsTookEffect(rows) && i < |rows|
    ensures Minus(EffectiveDates(rows[i]), Taken(rows, i)) == EffectiveDates(rows[i])
  {
    MinusNothing(EffectiveDates(rows[i]), Taken(rows, i));
  }

  lemma StatusBecomes(r: Row, r': Row, taken: set<Date>)
    requires r'.instr == r.instr && r.instr.dates != [] && Minus(EffectiveDates(r), taken) == EffectiveDates(r)
    requires r.status == Removed || r.status == Failed ==> r' == r
    requires r'.status == Removed ==> r.status == Removed || r.instr.remove
    requires r.instr.remove ==> r'.status != Applied
    ensures Becomes(r, r', taken)
  {
    KeepsItself(r.instr.dates);
  }

  /** A successful removal of the dates `removed` retires them from its source. */
  lemma SourceBecomes(r: Row, removed: set<Date>, taken: set<Date>)
    requires !r.instr.remove && r.instr.dates != [] && Minus(EffectiveDates(r), taken) == EffectiveDates(r)
    ensures Becomes(r, SourceRowAfterRemoval(r, removed), taken + removed)
  {
    KeepsItself(r.instr.dates);
    MinusIsKeep(r.instr.dates, removed);
    MinusMinus(EffectiveDates(r), taken, removed);
  }

  /** A change that removes no removal row's date and trims no row. */
  lemma StatusesEvolve(rows: seq<Row>, rows': seq<Row>)
    requires RowsOk(rows) && RemovalsTookEffect(rows) && |rows| <= |rows'|
    requires forall i :: 0 <= i < |rows| ==>
                           && rows'[i].instr == rows[i].instr
                           && (rows[i].status == Removed || rows[i].status == Failed ==> rows'[i] == rows[i])
                           && (rows'[i].status == Removed ==> rows[i].status == Removed)
                           && (rows[i].instr.remove ==> rows'[i].status != Applied)
    requires forall i :: |rows| <= i < |rows'| ==> rows'[i].status == Processing
    ensures Evolves(rows, rows')
  {
    forall i | 0 <= i < |rows| ensures RowEvolves(rows, rows', i) {
      assert RowOk(rows, i);
      assert Taken(rows', i) == Taken(rows, i);
      NothingMoreTaken(rows, i);
      StatusBecomes(rows[i], rows'[i], Taken(rows, i));
    }
  }

  lemma {:induction false} EnsureRowsAppends(rows: seq<Row>, xs: seq<Instruction>)
    ensures |rows| <= |EnsureRows(rows, xs)|
    ensures EnsureRows(rows, xs)[..|rows|] == rows
    ensures forall i :: |rows| <= i < |EnsureRows(rows, xs)| ==> EnsureRows(rows, xs)[i].status == Processing
    decreases |xs|
  {
    if xs == [] {
    } else {
      EnsureRowsAppends(EnsureRow(rows, xs[0]), xs[1..]);
    }
  }

  lemma RecordingEvolves(rows: seq<Row>, xs: seq<Instruction>)
    requires RowsOk(rows) && RemovalsTookEffect(rows)
    ensures Evolves(rows, EnsureRows(rows, xs))
  {
    EnsureRowsAppends(rows, xs);
    var rows' := EnsureRows(rows, xs);
    forall i | 0 <= i < |rows| ensures rows'[i] == rows[i] && (rows[i].instr.remove ==> rows'[i].status != Applied) {
      assert rows'[..|rows|][i] == rows[i] && RowOk(rows, i);
    }
    StatusesEvolve(rows, rows');
  }

  lemma TakenAfterRemoval(rows: seq<Row>, p: Callback, source: nat)
    requires RowsOk(rows) && MayReplay(rows, p) && p.success && p.remove
    requires rows[p.id].instr.source == Some(source)
    ensures Taken(StatusUpdate(rows, p), source) == Taken(rows, source) + Elems(rows[p.id].instr.dates)
    ensures forall i: nat :: i != source ==> Taken(StatusUpdate(rows, p), i) == Taken(rows, i)
  {
    RemovalRows(rows, p, source);
    var rows' := StatusUpdate(rows, p);
    forall d | d in Taken(rows, source) + Elems(rows[p.id].instr.dates) ensures d in Taken(rows', source) {
      if d in Taken(rows, source) {
        var r :| 0 <= r < |rows| && rows[r].instr.remove && rows[r].instr.source == Some(source)
                 && rows[r].status == Removed && d in rows[r].instr.dates;
        assert rows'[r] == rows[r];
      } else {
        assert rows'[p.id].status == Removed && d in rows'[p.id].instr.dates;
      }
    }
  }

  lemma SourceRowEvolves(rows: seq<Row>, p: Callback, source: nat)
    requires RowsOk(rows) && RemovalsTookEffect(rows) && MayReplay(rows, p) && p.success && p.remove
    requires rows[p.id].instr.source == Some(source)
    ensures source < |rows| && RowEvolves(rows, StatusUpdate(rows, p), source)
  {
    RemovalRows(rows, p, source);
    TakenAfterRemoval(rows, p, source);
    assert RowOk(rows, source);
    NothingMoreTaken(rows, source);
    SourceBecomes(rows[source], Elems(rows[p.id].instr.dates), Taken(rows, source));
  }

  lemma RemovalEvolves(rows: seq<Row>, p: Callback)
    requires RowsOk(rows) && RemovalsTookEffect(rows) && MayReplay(rows, p) && p.success && p.remove
    ensures Evolves(rows, StatusUpdate(rows, p))
  {
    assert RowOk(rows, p.id);
    var source := rows[p.id].instr.source.value;
    RemovalRows(rows, p, source);
    TakenAfterRemoval(rows, p, source);
    forall i | 0 <= i < |rows| ensures RowEvolves(rows, StatusUpdate(rows, p), i) {
      if i == source {
        SourceRowEvolves(rows, p, source);
      } else {
        assert RowOk(rows, i);
        NothingMoreTaken(rows, i);
        StatusBecomes(rows[i], StatusUpdate(rows, p)[i], Taken(rows, i));
      }
    }
  }

  /** The status transaction, run for the first time or once more after a crash. */
  lemma StatusUpdateEvolves(rows: seq<Row>, p: Callback)
    requires RowsOk(rows) && RemovalsTookEffect(rows) && MayReplay(rows, p)
    ensures Evolves(rows, StatusUpdate(rows, p))
  {
    forall i | 0 <= i < |rows| ensures rows[i].instr.remove ==> rows[i].status != Applied {
      assert RowOk(rows, i);
    }
    if p.success && p.remove {
      RemovalEvolves(rows, p);
    } else {
      assert RowOk(rows, p.id);
      StatusesEvolve(rows, StatusUpdate(rows, p));
    }
  }

  lemma DeliverEvolves(rows: seq<Row>, p: Callback)
    requires RowsOk(rows) && RemovalsTookEffect(rows)
    requires Echoes(rows, p)
    ensures Evolves(rows, Deliver(rows, p))
  {
    if Classify(rows, p) == Updated {
      StatusUpdateEvolves(rows, p);
    } else {
      forall i | 0 <= i < |rows| ensures rows[i].instr.remove ==> rows[i].status != Applied {
        assert RowOk(rows, i);
      }
      StatusesEvolve(rows, rows);
    }
  }

  lemma StepEvolves(s: State, step: Step)
    requires Inv(s) && Enabled(s, step)
    ensures Evolves(s.rows, Next(s, step).rows)
  {
    forall i | 0 <= i < |s.rows| ensures s.rows[i].instr.remove ==> s.rows[i].status != Applied {
      assert RowOk(s.rows, i);
    }
    match step
    case PlanGeneration(task, plans, base, _) => StatusesEvolve(s.rows, Reserve(s.rows, OverlappedIds(s.rows, plans)));
    case SearchOverlaps(_, _, _) => StatusesEvolve(s.rows, s.rows);
    case ReserveOverlaps(ids) => StatusesEvolve(s.rows, Reserve(s.rows, ids));
    case PlanBookingRemoval(_, _, _, _) => StatusesEvolve(s.rows, s.rows);
    case PlanRollback(_, _) => StatusesEvolve(s.rows, s.rows);
    case RecordRemovals(task, _) => RecordingEvolves(s.rows, s.flights[task].blueprints);
    case RecordApplies(task, _) => RecordingEvolves(s.rows, s.flights[task].applies);
    case Receive(p) => DeliverEvolves(s.rows, p);
    case Replay(p) => StatusUpdateEvolves(s.rows, p);
    case Abandon(_) => StatusesEvolve(s.rows, s.rows);
  }

  /**
   The lifecycle of a row over any run: identity never changes, dates only shrink to a non-empty
   subsequence, `removed` and `failed` are final, removal rows keep their dates and are never
   applied, and an override that has not failed covers its dates minus what successful removals took.
   */
  lemma {:induction false} RunEvolves(s: State, steps: seq<Step>, t: State)
    requires Inv(s) && Run(s, steps, t)
    ensures Evolves(s.rows, t.rows)
    decreases |steps|
  {
    if steps == [] {
      forall i | 0 <= i < |s.rows| ensures s.rows[i].instr.remove ==> s.rows[i].status != Applied {
        assert RowOk(s.rows, i);
      }
      StatusesEvolve(s.rows, s.rows);
    } else {
      StepEvolves(s, steps[0]);
      StepKeepsInv(s, steps[0]);
      RunEvolves(Next(s, steps[0]), steps[1..], t);
      EvolvesTransitive(s.rows, Next(s, steps[0]).rows, t.rows);
    }
  }

  /** Whatever the interleaving, the set of dates taken by successful removals decides what is left. */
  lemma RemovalsAreConfluent(s: State, steps1: seq<Step>, t1: State, steps2: seq<Step>, t2: State, i: nat)
    requires Inv(s) && Run(s, steps1, t1) && Run(s, steps2, t2)
    requires i < |s.rows| && !s.rows[i].instr.remove
    requires forall d :: d in s.rows[i].instr.dates ==> (d in Taken(t1.rows, i) <==> d in Taken(t2.rows, i))
    ensures |s.rows| <= |t1.rows| && |s.rows| <= |t2.rows|
    ensures t1.rows[i].status != Failed && t2.rows[i].status != Failed ==>
              EffectiveDates(t1.rows[i]) == EffectiveDates(t2.rows[i]) ==
                  Minus(EffectiveDates(s.rows[i]), Taken(t1.rows, i))
  {
    RunEvolves(s, steps1, t1);
    RunEvolves(s, steps2, t2);
    assert RowEvolves(s.rows, t1.rows, i) && RowEvolves(s.rows, t2.rows, i);
    MinusExtensional(EffectiveDates(s.rows[i]), Taken(t1.rows, i), Taken(t2.rows, i));
  }

  lemma SettledRowStays(rows: seq<Row>, rows': seq<Row>, i: nat)
    requires Evolves(rows, rows') && i < |rows| && Final(rows[i])
    ensures i < |rows'| && rows'[i] == rows[i]
  {
    assert RowEvolves(rows, rows', i);
  }

  /** Once a removal callback has taken effect, no later callback for that row has any. */
  lemma RemovalCallbackActsOnce(s: State, p: Callback, steps: seq<Step>, t: State, q: Callback)
    requires Inv(s) && Enabled(s, Receive(p)) && Classify(s.rows, p) == Updated && p.remove
    requires Run(Next(s, Receive(p)), steps, t)
    requires q.id == p.id
    ensures Deliver(t.rows, q) == t.rows
  {
    var s' := Next(s, Receive(p));
    assert Evolves(s'.rows, t.rows) by {
      StepKeepsInv(s, Receive(p));
      RunEvolves(s', steps, t);
    }
    assert RowOk(s.rows, p.id);
    SettledRowStays(s'.rows, t.rows, p.id);
  }

  // ----- remove-bso -----

  /**
   If every removal one remove-bso task recorded succeeds, every override of the booking on the property that
   was applied when it planned ends inactive, whatever happens between planning (`s`), recording (`mid`) and the
   end (`t`).  None of its removals is of another booking or property.
   */
  lemma BookingRemovalCompletes(
    s: State, task: nat, booking: int, property: int, base: nat,
    steps1: seq<Step>, mid: State, checkpointed: bool, steps2: seq<Step>, t: State, i: nat)
    requires Inv(s) && Enabled(s, PlanBookingRemoval(task, booking, property, base))
    requires Run(Next(s, PlanBookingRemoval(task, booking, property, base)), steps1, mid)
    requires task in mid.flights
             && mid.flights[task] == Flight(BookingBlueprints(s.rows, booking, property, base, |s.rows|), [], false)
    requires Run(Next(mid, RecordRemovals(task, checkpointed)), steps2, t)
    requires forall b, r :: b in mid.flights[task].blueprints && 0 <= r < |t.rows| && t.rows[r].instr.uuid == b.uuid ==>
                              t.rows[r].status == Removed
    requires i < |s.rows| && s.rows[i].status == Applied && !s.rows[i].instr.remove
    requires s.rows[i].instr.key.booking == booking && s.rows[i].instr.key.property == property
    ensures i < |t.rows| && t.rows[i].status !in {Applied, Processing}
    ensures forall b :: b in mid.flights[task].blueprints ==>
                          && b.source.Some? && b.source.value < |s.rows|
                          && s.rows[b.source.value].instr.key.booking == booking
                          && s.rows[b.source.value].instr.key.property == property
  {
    BookingBlueprintsMean(s.rows, booking, property, base, |s.rows|);
    BookingRemovalRetires(s, task, booking, property, base, steps1, mid, checkpointed, steps2, t, i);
  }

  lemma BookingRemovalRetires(
    s: State, task: nat, booking: int, property: int, base: nat,
    steps1: seq<Step>, mid: State, checkpointed: bool, steps2: seq<Step>, t: State, i: nat)
    requires Inv(s) && Enabled(s, PlanBookingRemoval(task, booking, property, base))
    requires Run(Next(s, PlanBookingRemoval(task, booking, property, base)), steps1, mid)
    requires task in mid.flights
             && mid.flights[task] == Flight(BookingBlueprints(s.rows, booking, property, base, |s.rows|), [], false)
    requires Run(Next(mid, RecordRemovals(task, checkpointed)), steps2, t)
    requires forall b, r :: b in mid.flights[task].blueprints && 0 <= r < |t.rows| && t.rows[r].instr.uuid == b.uuid ==>
                              t.rows[r].status == Removed
    requires i < |s.rows| && SelectedForRemoval(s.rows[i], booking, property)
    ensures i < |t.rows| && !Active(t.rows[i])
  {
    var plan, record := PlanBookingRemoval(task, booking, property, base), RecordRemovals(task, checkpointed);
    StepKeepsInv(s, plan);
    RunKeepsInv(Next(s, plan), steps1, mid);
    assert Evolves(s.rows, t.rows) && Evolves(Next(mid, record).rows, t.rows) by {
      RunEvolves(Next(s, plan), steps1, mid);
      StepAndRunEvolve(mid, record, steps2, t);
      EvolvesTransitive(s.rows, mid.rows, t.rows);
    }
    var b := BookingBlueprint(s.rows, base, i);
    BookingBlueprintsMembers(s.rows, booking, property, base, |s.rows|);
    assert b in mid.flights[task].blueprints;
    RecordedRemovalRetires(s.rows, mid, task, checkpointed, t.rows, b, i);
  }

  /** A recorded full-date removal of row `i` that has succeeded leaves the row inactive. */
  lemma RecordedRemovalRetires(
    rows0: seq<Row>, mid: State, task: nat, checkpointed: bool, rows2: seq<Row>, b: Instruction, i: nat)
    requires Inv(mid) && Enabled(mid, RecordRemovals(task, checkpointed)) && b in mid.flights[task].blueprints
    requires i < |rows0| && Active(rows0[i]) && !rows0[i].instr.remove
    requires b.uuid.Random? && b.source == Some(i) && b.dates == rows0[i].instr.dates
    requires Evolves(rows0, rows2) && Evolves(Next(mid, RecordRemovals(task, checkpointed)).rows, rows2)
    requires forall r :: 0 <= r < |rows2| && rows2[r].instr.uuid == b.uuid ==> rows2[r].status == Removed
    ensures !Active(rows2[i])
  {
    var r := RecordedRemoval(mid, task, b, checkpointed);
    var rows1 := Next(mid, RecordRemovals(task, checkpointed)).rows;
    assert rows2[r].instr.uuid == b.uuid by {
      assert RowEvolves(rows1, rows2, r);
    }
    FullRemovalRetires(rows0, rows1, rows2, i, r);
  }

  lemma StepAndRunEvolve(s: State, step: Step, steps: seq<Step>, t: State)
    requires Inv(s) && Enabled(s, step) && Run(Next(s, step), steps, t)
    ensures Evolves(s.rows, t.rows) && Evolves(Next(s, step).rows, t.rows)
  {
    StepKeepsInv(s, step);
    StepEvolves(s, step);
    RunEvolves(Next(s, step), steps, t);
    EvolvesTransitive(s.rows, Next(s, step).rows, t.rows);
  }

  lemma RecordedRemoval(s: State, task: nat, b: Instruction, checkpointed: bool) returns (r: nat)
    requires Inv(s) && Enabled(s, RecordRemovals(task, checkpointed))
    requires b in s.flights[task].blueprints && b.uuid.Random?
    ensures var rows := Next(s, RecordRemovals(task, checkpointed)).rows;
            r < |rows| && rows[r].instr.uuid == b.uuid && rows[r].instr.remove
            && rows[r].instr.source == b.source && rows[r].instr.dates == b.dates
  {
    var blueprints := s.flights[task].blueprints;
    var rows := EnsureRows(s.rows, blueprints);
    EnsureRowsRecordsAll(s.rows, blueprints);
    r := FindByUuid(rows, b.uuid, |rows|).value;
    RecordRemovalsKeepsInv(s, task, blueprints);
    assert FlightOk(rows, s.flights[task]) && BlueprintOk(rows, b);
  }

  /** A successful removal recorded for all the dates row `i` had earlier leaves nothing of it. */
  lemma FullRemovalRetires(rows0: seq<Row>, rows1: seq<Row>, rows2: seq<Row>, i: nat, r: nat)
    requires Evolves(rows0, rows2) && Evolves(rows1, rows2)
    requires i < |rows0| && Active(rows0[i]) && !rows0[i].instr.remove
    requires r < |rows1| && rows1[r].instr.remove && rows1[r].instr.source == Some(i)
    requires rows1[r].instr.dates == rows0[i].instr.dates && rows2[r].status == Removed
    ensures !Active(rows2[i])
  {
    assert RowEvolves(rows1, rows2, r) && RowEvolves(rows0, rows2, i);
    forall d | d in rows0[i].instr.dates ensures d in Taken(rows2, i) {
      assert rows2[r].instr == rows1[r].instr;
    }
    MinusEverything(EffectiveDates(rows0[i]), Taken(rows2, i));
  }

  // ----- redelivery and replay -----

  /** Delivering any callback twice in a row is delivering it once. */
  lemma RedeliveryIsNoop(rows: seq<Row>, p: Callback)
    ensures Deliver(Deliver(rows, p), p) == Deliver(rows, p)
  {
    var rows' := Deliver(rows, p);
    if Classify(rows, p) == Updated {
      assert rows'[p.id].status != Processing;
    }
  }

  /** A crash right after the status transaction may run it again at once: nothing changes. */
  lemma ImmediateReplayIsNoop(rows: seq<Row>, p: Callback)
    requires RowsOk(rows) && Classify(rows, p) == Updated
    requires p.source.Some? ==> p.source == rows[p.id].instr.source
    ensures StatusUpdate(StatusUpdate(rows, p), p) == StatusUpdate(rows, p)
  {
    assert RowOk(rows, p.id);
    var rows' := StatusUpdate(rows, p);
    var row := rows[p.id].instr;
    assert rows'[p.id].instr == row;
    if p.success && row.remove {
      var source, removed := row.source.value, Elems(row.dates);
      var once := SourceRowAfterRemoval(rows[source], removed);
      MinusMinus(rows[source].instr.dates, removed, removed);
      assert removed + removed == removed;
      assert SourceRowAfterRemoval(once, removed) == once;
      assert rows'[source] == once;
    }
    assert StatusUpdate(rows', p) == rows';
  }

  function ExampleKey(): Key { Key(1, 1, 1, "listing") }

  function ExampleRow(status: Status, serial: nat, remove: bool, source: Option<nat>): Row {
    Row(status, Instruction(Random(serial), ExampleKey(), [1, 2], remove, source, None))
  }

  /**
   The status transaction trusts the status loaded in an earlier transaction.  Replayed after
   another callback got in between, it brings a removed override back: the protocol needs a
   callback's load and update to be one atomic step.
   */
  lemma LateReplayResurrects()
    ensures var apply := Callback(0, Random(0), false, true, None);
            var removal := Callback(1, Random(1), true, true, Some(0));
            var rows := [ExampleRow(Processing, 0, false, None), ExampleRow(Processing, 1, true, Some(0))];
            && RowsOk(rows)
            && Deliver(Deliver(rows, apply), removal)[0].status == Removed
            && StatusUpdate(Deliver(Deliver(rows, apply), removal), apply)[0].status == Applied
  {
    var apply := Callback(0, Random(0), false, true, None);
    var removal := Callback(1, Random(1), true, true, Some(0));
    var rows := [ExampleRow(Processing, 0, false, None), ExampleRow(Processing, 1, true, Some(0))];
    assert RowOk(rows, 0) && RowOk(rows, 1);
    var rows1 := Deliver(rows, apply);
    assert rows1 == [ExampleRow(Applied, 0, false, None), ExampleRow(Processing, 1, true, Some(0))];
    var dates := ExampleRow(Applied, 0, false, None).instr.dates;
    MinusEverything(dates, Elems(dates));
    var rows2 := Deliver(rows1, removal);
    assert rows2[0] == ExampleRow(Removed, 0, false, None);
  }

  /**
   Exactly when the status transaction, run against whatever the table holds by then, leaves every
   removed and failed row alone: its own row must not have become final with another outcome.
   */
  lemma StaleUpdateKeepsFinalIff(rows: seq<Row>, p: Callback)
    requires RowsOk(rows) && p.id < |rows| && rows[p.id].instr.remove == p.remove
    requires p.source.Some? ==> p.source == rows[p.id].instr.source
    ensures (forall i :: 0 <= i < |rows| && Final(rows[i]) ==> StatusUpdate(rows, p)[i] == rows[i]) <==>
            !Final(rows[p.id]) || rows[p.id].status == StatusAfter(p)
  {
    assert RowOk(rows, p.id);
    var rows' := StatusUpdate(rows, p);
    assert rows'[p.id].status == StatusAfter(p);
    forall i | 0 <= i < |rows| && i != p.id && Final(rows[i]) ensures rows'[i] == rows[i] {
    }
    assert rows[p.id].status == StatusAfter(p) ==> rows'[p.id] == rows[p.id];
  }

  /** A callback, first or redelivered, changes the table exactly when its row is waiting for it. */
  lemma CallbackActsIff(rows: seq<Row>, p: Callback)
    requires RowsOk(rows) && Echoes(rows, p)
    ensures Deliver(rows, p) == rows <==> Classify(rows, p) != Updated
  {
    if Classify(rows, p) == Updated {
      assert RowOk(rows, p.id);
      assert Deliver(rows, p)[p.id].status == StatusAfter(p);
    }
  }

  /** A reservation reopens an applied row: its apply callback, redelivered after one, acts a second time. */
  lemma LateApplyRedeliveryActs()
    ensures var p := Callback(0, Random(0), false, true, None);
            var rows := [ExampleRow(Processing, 0, false, None)];
            var once := Deliver(rows, p);
            && RowsOk(rows) && once != rows
            && Deliver(once, p) == once
            && Deliver(Reserve(once, {0}), p) != Reserve(once, {0})
  {
    var p := Callback(0, Random(0), false, true, None);
    var rows := [ExampleRow(Processing, 0, false, None)];
    assert RowOk(rows, 0);
    var once := Deliver(rows, p);
    assert once[0] == ExampleRow(Applied, 0, false, None) && rows[0] == ExampleRow(Processing, 0, false, None);
    assert Deliver(Reserve(once, {0}), p)[0].status == Applied && Reserve(once, {0})[0].status == Processing;
  }

  // ----- one generation, one listing twice -----

  function NewRows(xs: seq<Instruction>): (r: seq<Row>)
    ensures |r| == |xs|
    ensures forall i :: 0 <= i < |xs| ==> r[i] == Row(Processing, xs[i])
  {
    seq(|xs|, i requires 0 <= i < |xs| => Row(Processing, xs[i]))
  }

  ghost predicate FreshFor(rows: seq<Row>, xs: seq<Instruction>) {
    forall i, k :: 0 <= i < |rows| && 0 <= k < |xs| ==> rows[i].instr.uuid != xs[k].uuid
  }

  lemma {:induction false} EnsureFreshRows(rows: seq<Row>, xs: seq<Instruction>)
    requires FreshFor(rows, xs)
    requires forall i, j :: 0 <= i < j < |xs| ==> xs[i].uuid != xs[j].uuid
    ensures EnsureRows(rows, xs) == rows + NewRows(xs)
    decreases |xs|
  {
    if xs == [] {
    } else {
      var rows' := rows + [Row(Processing, xs[0])];
      assert EnsureRow(rows, xs[0]) == rows';
      StillFresh(rows, xs);
      EnsureFreshRows(rows', xs[1..]);
      NewRowsCons(rows, xs);
    }
  }

  lemma StillFresh(rows: seq<Row>, xs: seq<Instruction>)
    requires xs != [] && FreshFor(rows, xs)
    requires forall i, j :: 0 <= i < j < |xs| ==> xs[i].uuid != xs[j].uuid
    ensures FreshFor(rows + [Row(Processing, xs[0])], xs[1..])
  {
  }

  lemma NewRowsCons(rows: seq<Row>, xs: seq<Instruction>)
    requires xs != []
    ensures rows + NewRows(xs) == rows + [Row(Processing, xs[0])] + NewRows(xs[1..])
  {
  }

  lemma {:induction false} OverlapBlueprintUuids(rows: seq<Row>, plans: seq<Instruction>, base: nat, n: nat)
    requires n <= |rows|
    ensures forall i, j :: 0 <= i < j < |OverlapBlueprints(rows, plans, base, n)| ==>
                             OverlapBlueprints(rows, plans, base, n)[i].uuid !=
                             OverlapBlueprints(rows, plans, base, n)[j].uuid
  {
    if n == 0 {
    } else {
      OverlapBlueprintUuids(rows, plans, base, n - 1);
      OverlapBlueprintsMembers(rows, plans, base, n - 1);
      var earlier := OverlapBlueprints(rows, plans, base, n - 1);
      forall i | 0 <= i < |earlier| ensures earlier[i].uuid != Random(base + n - 1) {
        assert earlier[i] in earlier;
      }
    }
  }

  /** A generation that runs from planning to its last checkpoint without interruption. */
  function Generate(s: State, task: nat, plans: seq<Instruction>, base: nat): State {
    Next(Next(Next(s, PlanGeneration(task, plans, base, true)), RecordRemovals(task, true)), RecordApplies(task, true))
  }

  lemma BlueprintsAreFresh(s: State, task: nat, plans: seq<Instruction>, base: nat)
    requires Admissible(s, task, plans, base)
    ensures FreshFor(Reserve(s.rows, OverlappedIds(s.rows, plans)), OverlapBlueprints(s.rows, plans, base, |s.rows|))
    ensures FreshFor(Reserve(s.rows, OverlappedIds(s.rows, plans)), plans)
    ensures FreshFor(NewRows(OverlapBlueprints(s.rows, plans, base, |s.rows|)), plans)
  {
    var blueprints := OverlapBlueprints(s.rows, plans, base, |s.rows|);
    OverlapBlueprintsMembers(s.rows, plans, base, |s.rows|);
    forall i | 0 <= i < |s.rows| ensures UsedUuid(s, s.rows[i].instr.uuid) {
    }
    forall k | 0 <= k < |blueprints| ensures blueprints[k].uuid.Random? && blueprints[k].uuid.serial >= base {
      assert blueprints[k] in blueprints;
    }
    forall k | 0 <= k < |plans| ensures !UsedUuid(s, plans[k].uuid) && plans[k].uuid.serial < base {
      assert plans[k] in plans;
    }
  }

  lemma GenerateUnfolds(s: State, task: nat, plans: seq<Instruction>, base: nat)
    ensures Generate(s, task, plans, base).rows ==
            EnsureRows(EnsureRows(Reserve(s.rows, OverlappedIds(s.rows, plans)),
                                  OverlapBlueprints(s.rows, plans, base, |s.rows|)), plans)
  {
    var blueprints := OverlapBlueprints(s.rows, plans, base, |s.rows|);
    var s1 := Next(s, PlanGeneration(task, plans, base, true));
    assert s1.flights[task] == Flight(blueprints, plans, false);
    RecordingUnfolds(s1, task, Flight(blueprints, plans, false));
  }

  lemma RecordingUnfolds(s: State, task: nat, f: Flight)
    requires task in s.flights && s.flights[task] == f
    ensures Next(Next(s, RecordRemovals(task, true)), RecordApplies(task, true)).rows ==
            EnsureRows(EnsureRows(s.rows, f.blueprints), f.applies)
  {
    var s' := Next(s, RecordRemovals(task, true));
    assert s'.rows == EnsureRows(s.rows, f.blueprints) && s'.flights[task].applies == f.applies;
  }

  lemma EnsureTwoBatches(rows: seq<Row>, xs: seq<Instruction>, ys: seq<Instruction>)
    requires FreshFor(rows, xs) && FreshFor(rows, ys) && FreshFor(NewRows(xs), ys)
    requires forall i, j :: 0 <= i < j < |xs| ==> xs[i].uuid != xs[j].uuid
    requires forall i, j :: 0 <= i < j < |ys| ==> ys[i].uuid != ys[j].uuid
    ensures EnsureRows(EnsureRows(rows, xs), ys) == rows + NewRows(xs) + NewRows(ys)
  {
    EnsureFreshRows(rows, xs);
    assert FreshFor(rows + NewRows(xs), ys);
    EnsureFreshRows(rows + NewRows(xs), ys);
  }

  lemma GenerateRows(s: State, task: nat, plans: seq<Instruction>, base: nat)
    requires Admissible(s, task, plans, base)
    ensures Generate(s, task, plans, base).rows ==
            Reserve(s.rows, OverlappedIds(s.rows, plans))
            + NewRows(OverlapBlueprints(s.rows, plans, base, |s.rows|)) + NewRows(plans)
  {
    BlueprintsAreFresh(s, task, plans, base);
    OverlapBlueprintUuids(s.rows, plans, base, |s.rows|);
    GenerateUnfolds(s, task, plans, base);
    EnsureTwoBatches(Reserve(s.rows, OverlappedIds(s.rows, plans)), OverlapBlueprints(s.rows, plans, base, |s.rows|),
        plans);
  }

  /** A removal row among old rows and blueprints of old rows has an old source. */
  lemma NoRemovalOfNewApply(rows: seq<Row>, xs: seq<Instruction>, ys: seq<Instruction>, i: nat, d: Date)
    requires forall r :: 0 <= r < |rows| && rows[r].instr.remove ==>
                           rows[r].instr.source.Some? && rows[r].instr.source.value < |rows|
    requires forall x :: x in xs ==> x.source.Some? && x.source.value < |rows|
    requires forall y :: y in ys ==> !y.remove
    ensures !HasRemoval(rows + NewRows(xs) + NewRows(ys), |rows| + |xs| + i, d)
  {
    var all := rows + NewRows(xs) + NewRows(ys);
    forall r | 0 <= r < |all| && all[r].instr.remove ensures all[r].instr.source != Some(|rows| + |xs| + i) {
      if |rows| <= r < |rows| + |xs| {
        assert all[r].instr == xs[r - |rows|] && xs[r - |rows|] in xs;
      }
    }
  }

  lemma ClashIsUnaccounted(rows: seq<Row>, xs: seq<Instruction>, ys: seq<Instruction>, i: nat, j: nat, d: Date)
    requires forall r :: 0 <= r < |rows| && rows[r].instr.remove ==>
                           rows[r].instr.source.Some? && rows[r].instr.source.value < |rows|
    requires forall x :: x in xs ==> x.source.Some? && x.source.value < |rows|
    requires forall y :: y in ys ==> !y.remove
    requires i < j < |ys| && ys[i].key == ys[j].key && d in ys[i].dates && d in ys[j].dates
    ensures !Accounted(rows + NewRows(xs) + NewRows(ys))
  {
    var all, first := rows + NewRows(xs) + NewRows(ys), |rows| + |xs|;
    NoRemovalOfNewApply(rows, xs, ys, i, d);
    assert ys[i] in ys && ys[j] in ys;
    assert all[first + i] == Row(Processing, ys[i]) && all[first + j] == Row(Processing, ys[j]);
  }

  lemma OldSources(s: State, plans: seq<Instruction>, base: nat)
    requires RowsOk(s.rows)
    ensures var rows := Reserve(s.rows, OverlappedIds(s.rows, plans));
            && |rows| == |s.rows|
            && (forall r :: 0 <= r < |rows| && rows[r].instr.remove ==>
                              rows[r].instr.source.Some? && rows[r].instr.source.value < |rows|)
    ensures forall x :: x in OverlapBlueprints(s.rows, plans, base, |s.rows|) ==>
            x.source.Some? && x.source.value < |s.rows|
  {
    OverlapBlueprintsMembers(s.rows, plans, base, |s.rows|);
    var rows := Reserve(s.rows, OverlappedIds(s.rows, plans));
    forall r | 0 <= r < |rows| && rows[r].instr.remove
      ensures rows[r].instr.source.Some? && rows[r].instr.source.value < |rows|
    {
      assert rows[r].instr == s.rows[r].instr && RowOk(s.rows, r);
    }
  }

  /**
   The chain validator lets a chain name one listing twice (`ChainEntries.RepeatedListingIsAccepted`).
   An uninterrupted generation keeps the accounting exactly when entries for the same listing request disjoint nights.
   */
  lemma GenerationIsAccountedIff(s: State, task: nat, plans: seq<Instruction>, base: nat)
    requires Inv(s) && Admissible(s, task, plans, base)
    ensures Accounted(Generate(s, task, plans, base).rows) <==> SameListingDisjoint(plans)
  {
    if SameListingDisjoint(plans) {
      var plan, record := PlanGeneration(task, plans, base, true), RecordRemovals(task, true);
      StepKeepsInv(s, plan);
      StepKeepsInv(Next(s, plan), record);
      StepKeepsInv(Next(Next(s, plan), record), RecordApplies(task, true));
    } else {
      var i, j, d :| 0 <= i < j < |plans| && plans[i].key == plans[j].key && d in plans[i].dates && d in plans[j].dates;
      GenerateRows(s, task, plans, base);
      OldSources(s, plans, base);
      ClashIsUnaccounted(Reserve(s.rows, OverlappedIds(s.rows, plans)),
                         OverlapBlueprints(s.rows, plans, base, |s.rows|), plans, i, j, d);
    }
  }

  /** Two plans of one generation for the same listing and night. */
  function ClashingPlans(): seq<Instruction> {
    [Instruction(Random(0), ExampleKey(), [1], false, None, Some(ChainRef("chain", 2))),
     Instruction(Random(1), ExampleKey(), [1], false, None, Some(ChainRef("chain", 3)))]
  }

  /** Such a generation may start on the empty table, and leaves a shared night unaccounted for. */
  lemma ClashingGeneration()
    ensures Admissible(START, 0, ClashingPlans(), 2)
    ensures !Accounted(Generate(START, 0, ClashingPlans(), 2).rows)
  {
    var plans := ClashingPlans();
    assert plans[0].dates[0] == 1 && plans[1].dates[0] == 1;
    assert 1 in plans[0].dates && 1 in plans[1].dates;
    assert !SameListingDisjoint(plans);
    GenerationIsAccountedIff(START, 0, plans, 2);
  }
}
