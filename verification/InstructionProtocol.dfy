/**
 Runs of the instruction protocol: any interleaving of generations, remove-bso tasks, rollbacks,
 callbacks and crashes over one `booking_applied_rules` table.

 A `Flight` is what a task has durably checkpointed between planning and finishing.  A step is one
 committed transaction, with or without the checkpoint that follows it: a crash between the two is
 the step with `checkpointed == false`, after which the task plans or records again.  A callback is
 `Receive`, and its status transaction run once more after such a crash is `Replay`.

 The transaction that finds overlaps and reserves them takes no lock before it reserves.  `PlanGeneration`
 is that transaction undisturbed; `SearchOverlaps` and, any time later, `ReserveOverlaps` are its two
 halves with anything in between.
 */
module InstructionProtocol {
  import opened Collections
  import opened BookingRules

  datatype Flight = Flight(blueprints: seq<Instruction>, applies: seq<Instruction>, removalsRecorded: bool)

  datatype State = State(rows: seq<Row>, flights: map<nat, Flight>)

  datatype Step =
    | PlanGeneration(task: nat, plans: seq<Instruction>, base: nat, checkpointed: bool)
    | SearchOverlaps(task: nat, plans: seq<Instruction>, base: nat)
    | ReserveOverlaps(ids: set<nat>)
    | PlanBookingRemoval(task: nat, booking: int, property: int, base: nat)
    | PlanRollback(task: nat, failedId: nat)
    | RecordRemovals(task: nat, checkpointed: bool)
    | RecordApplies(task: nat, checkpointed: bool)
    | Receive(callback: Callback)
    | Replay(callback: Callback)
    | Abandon(task: nat)

  // ----- what the environment guarantees -----

  ghost predicate WellFormedApply(a: Instruction) {
    !a.remove && a.source.None? && a.uuid.Random? && a.dates != [] && Distinct(a.dates)
  }

  /** Plans for one listing never request the same night twice. */
  ghost predicate SameListingDisjoint(plans: seq<Instruction>) {
    forall i, j, d :: 0 <= i < j < |plans| && plans[i].key == plans[j].key && d in plans[i].dates ==>
                        d !in plans[j].dates
  }

  ghost predicate Planned(f: Flight, x: Instruction) {
    x in f.blueprints || x in f.applies
  }

  ghost predicate UsedUuid(s: State, u: Uuid) {
    || (exists i :: 0 <= i < |s.rows| && s.rows[i].instr.uuid == u)
    || (exists t, x :: t in s.flights && Planned(s.flights[t], x) && x.uuid == u)
  }

  /** `uuid4` draws from `base` upwards: no identifier used so far, nor one of `plans`, reaches it. */
  ghost predicate FreshFrom(s: State, plans: seq<Instruction>, base: nat) {
    && (forall n: nat :: UsedUuid(s, Random(n)) ==> n < base)
    && (forall p :: p in plans ==> p.uuid.Random? && p.uuid.serial < base)
  }

  /** No generation in flight applies to one of these listings. */
  ghost predicate ListingsIdle(s: State, plans: seq<Instruction>) {
    forall t, a, p :: t in s.flights && a in s.flights[t].applies && p in plans ==> a.key != p.key
  }

  /** A generation the worker may start: well-formed plans, fresh identifiers, idle listings. */
  ghost predicate Admissible(s: State, task: nat, plans: seq<Instruction>, base: nat) {
    && task !in s.flights
    && plans != []
    && (forall p :: p in plans ==> WellFormedApply(p) && !UsedUuid(s, p.uuid))
    && (forall i, j :: 0 <= i < j < |plans| ==> plans[i].uuid != plans[j].uuid)
    && FreshFrom(s, plans, base)
    && ListingsIdle(s, plans)
  }

  /** The external worker hands back the source recorded for the row, if it names one. */
  ghost predicate Echoes(rows: seq<Row>, p: Callback) {
    p.id < |rows| && p.source.Some? ==> p.source == rows[p.id].instr.source
  }

  /**
   A status transaction that committed just before a crash runs again, on the status loaded before it.
   Its own row must not have become final with another outcome in between.
   */
  ghost predicate MayReplay(rows: seq<Row>, p: Callback) {
    && p.id < |rows|
    && rows[p.id].instr.uuid == p.uuid && rows[p.id].instr.remove == p.remove
    && Echoes(rows, p)
    && (Final(rows[p.id]) ==> rows[p.id].status == StatusAfter(p))
  }

  ghost predicate Enabled(s: State, step: Step) {
    match step
    case PlanGeneration(task, plans, base, _) =>
      Admissible(s, task, plans, base) && SameListingDisjoint(plans)
    case SearchOverlaps(task, plans, base) =>
      Admissible(s, task, plans, base) && SameListingDisjoint(plans)
    case ReserveOverlaps(_) => true
    case PlanBookingRemoval(task, _, _, base) =>
      task !in s.flights && FreshFrom(s, [], base)
    case PlanRollback(task, failedId) =>
      && task !in s.flights
      && failedId < |s.rows|
      && s.rows[failedId].status == Failed
      && !s.rows[failedId].instr.remove
      && s.rows[failedId].instr.chain.Some?
    case RecordRemovals(task, _) =>
      task in s.flights && !s.flights[task].removalsRecorded
    case RecordApplies(task, _) =>
      task in s.flights && s.flights[task].removalsRecorded
    case Receive(p) =>
      Echoes(s.rows, p)
    case Replay(p) =>
      MayReplay(s.rows, p)
    case Abandon(task) =>
      task in s.flights
  }

  // ----- the steps -----

  function OverlappedIds(rows: seq<Row>, plans: seq<Instruction>): set<nat> {
    set i: nat | i < |rows| && Overlapped(rows[i], plans)
  }

  function Next(s: State, step: Step): State {
    match step
    case PlanGeneration(task, plans, base, checkpointed) =>
      var reserved := Reserve(s.rows, OverlappedIds(s.rows, plans));
      if checkpointed
      then State(reserved, s.flights[task := Flight(OverlapBlueprints(s.rows, plans, base, |s.rows|), plans, false)])
      else State(reserved, s.flights)
    case SearchOverlaps(task, plans, base) =>
      s.(flights := s.flights[task := Flight(OverlapBlueprints(s.rows, plans, base, |s.rows|), plans, false)])
    case ReserveOverlaps(ids) =>
      s.(rows := Reserve(s.rows, ids))
    case PlanBookingRemoval(task, booking, property, base) =>
      s.(flights := s.flights[task := Flight(BookingBlueprints(s.rows, booking, property, base, |s.rows|), [], false)])
    case PlanRollback(task, failedId) =>
      if failedId < |s.rows| && s.rows[failedId].instr.chain.Some? then
        var failed := s.rows[failedId].instr;
        var blueprints := RollbackBlueprints(s.rows, failed.key.booking, failed.chain.value.chainId,
                                             failed.chain.value.position);
        s.(flights := s.flights[task := Flight(blueprints, [], false)])
      else s
    case RecordRemovals(task, checkpointed) =>
      if task !in s.flights then s else
        var f := s.flights[task];
        State(EnsureRows(s.rows, f.blueprints),
              if checkpointed then s.flights[task := f.(removalsRecorded := true)] else s.flights)
    case RecordApplies(task, checkpointed) =>
      if task !in s.flights then s else
        State(EnsureRows(s.rows, s.flights[task].applies),
              if checkpointed then s.flights - {task} else s.flights)
    case Receive(p) =>
      s.(rows := Deliver(s.rows, p))
    case Replay(p) =>
      if p.id < |s.rows| then s.(rows := StatusUpdate(s.rows, p)) else s
    case Abandon(task) =>
      s.(flights := s.flights - {task})
  }

  ghost predicate Run(s: State, steps: seq<Step>, t: State)
    decreases |steps|
  {
    if steps == [] then s == t
    else Enabled(s, steps[0]) && Run(Next(s, steps[0]), steps[1..], t)
  }

  // ----- the invariant -----

  /** Some removal row of `i` names date `d`. */
  ghost predicate HasRemoval(rows: seq<Row>, i: nat, d: Date) {
    exists r :: 0 <= r < |rows| && rows[r].instr.remove && rows[r].instr.source == Some(i) && d in rows[r].instr.dates
  }

  ghost predicate HasBlueprint(blueprints: seq<Instruction>, i: nat, d: Date) {
    exists b :: b in blueprints && b.source == Some(i) && d in b.dates
  }

  ghost predicate RowOk(rows: seq<Row>, i: nat)
    requires i < |rows|
  {
    var x := rows[i].instr;
    && x.dates != [] && Distinct(x.dates)
    && (!x.remove ==> x.source.None?)
    && (x.remove ==>
          && rows[i].status != Applied
          && x.source.Some? && x.source.value < i
          && !rows[x.source.value].instr.remove
          && rows[x.source.value].instr.key == x.key)
    && (x.uuid.Rollback? ==> x.remove && x.source == Some(x.uuid.sourceId))
  }

  ghost predicate RowsOk(rows: seq<Row>) {
    && (forall i :: 0 <= i < |rows| ==> RowOk(rows, i))
    && (forall i, j :: 0 <= i < j < |rows| ==> rows[i].instr.uuid != rows[j].instr.uuid)
  }

  /** A successful removal has left none of its dates on an active source. */
  ghost predicate RemovalsTookEffect(rows: seq<Row>) {
    forall r, i, d ::
      && 0 <= r < |rows| && 0 <= i < |rows|
      && rows[r].instr.remove && rows[r].instr.source == Some(i) && rows[r].status == Removed
      && Active(rows[i]) && d in rows[r].instr.dates
      ==> d !in rows[i].instr.dates
  }

  /** Two active overrides of one listing share a night only if a removal of the older names it. */
  ghost predicate Accounted(rows: seq<Row>) {
    forall i, j, d ::
      && 0 <= i < j < |rows|
      && Active(rows[i]) && !rows[i].instr.remove
      && Active(rows[j]) && !rows[j].instr.remove
      && rows[i].instr.key == rows[j].instr.key
      && d in rows[i].instr.dates && d in rows[j].instr.dates
      ==> HasRemoval(rows, i, d)
  }

  ghost predicate BlueprintOk(rows: seq<Row>, b: Instruction) {
    && b.remove && b.dates != [] && Distinct(b.dates)
    && b.source.Some? && b.source.value < |rows|
    && !rows[b.source.value].instr.remove
    && rows[b.source.value].instr.key == b.key
    && (b.uuid.Rollback? ==> b.source == Some(b.uuid.sourceId))
    && forall r :: 0 <= r < |rows| && rows[r].instr.uuid == b.uuid ==>
                     && rows[r].instr.remove
                     && rows[r].instr.source == b.source
                     && (b.uuid.Random? ==> rows[r].instr.dates == b.dates)
  }

  ghost predicate ApplyOk(rows: seq<Row>, a: Instruction) {
    && WellFormedApply(a)
    && forall r :: 0 <= r < |rows| && rows[r].instr.uuid == a.uuid ==>
                     && !rows[r].instr.remove
                     && rows[r].instr.key == a.key
                     && forall d :: d in rows[r].instr.dates ==> d in a.dates
  }

  /** Every night the apply shares with an older override is named by a removal, planned or recorded. */
  ghost predicate Covered(rows: seq<Row>, f: Flight, a: Instruction) {
    forall i, d ::
      && 0 <= i < |rows|
      && Active(rows[i]) && !rows[i].instr.remove
      && rows[i].instr.key == a.key && rows[i].instr.uuid != a.uuid
      && d in rows[i].instr.dates && d in a.dates
      ==> if f.removalsRecorded then HasRemoval(rows, i, d) else HasBlueprint(f.blueprints, i, d)
  }

  ghost predicate FlightOk(rows: seq<Row>, f: Flight) {
    && (forall b :: b in f.blueprints ==> BlueprintOk(rows, b))
    && (forall b :: b in f.blueprints && f.applies != [] ==> b.uuid.Random?)
    && (forall a :: a in f.applies ==> ApplyOk(rows, a) && Covered(rows, f, a))
    && SameListingDisjoint(f.applies)
  }

  ghost predicate ListingsExclusive(flights: map<nat, Flight>) {
    forall t, u, a, b ::
      t in flights && u in flights && t != u && a in flights[t].applies && b in flights[u].applies
      ==> a.key != b.key
  }

  ghost predicate UuidsExclusive(flights: map<nat, Flight>) {
    forall t, u, x, y ::
      && t in flights && u in flights && Planned(flights[t], x) && Planned(flights[u], y)
      && x.uuid == y.uuid && x.uuid.Random?
      ==> x == y
  }

  ghost predicate Inv(s: State) {
    && RowsOk(s.rows)
    && RemovalsTookEffect(s.rows)
    && Accounted(s.rows)
    && (forall t :: t in s.flights ==> FlightOk(s.rows, s.flights[t]))
    && ListingsExclusive(s.flights)
    && UuidsExclusive(s.flights)
  }
}
