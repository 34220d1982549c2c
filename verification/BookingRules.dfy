/**
 The table `booking_applied_rules` and what each statement of the worker does to it.

 The table is the sequence of its rows in insertion order; a row's id is its position.
 A date is the day number of an ISO date, which the worker only compares.  `uuid4` draws a
 `Random` identifier, and the rollback `uuid5` is the pair it is computed from.
 */
module BookingRules {
  import opened Collections

  type Date = int

  datatype Key = Key(booking: int, property: int, platform: int, listing: string)

  datatype Uuid = Random(serial: nat) | Rollback(chainId: string, sourceId: nat)

  datatype ChainRef = ChainRef(chainId: string, position: int)

  datatype Instruction = Instruction(
    uuid: Uuid,
    key: Key,
    dates: seq<Date>,
    remove: bool,
    source: Option<nat>,
    chain: Option<ChainRef>)

  datatype Status = Processing | Applied | Removed | Failed

  datatype Row = Row(status: Status, instr: Instruction)

  predicate Active(r: Row) {
    r.status == Applied || r.status == Processing
  }

  /** The nights a row currently overrides. */
  function EffectiveDates(r: Row): seq<Date> {
    if Active(r) then r.instr.dates else []
  }

  // ----- overlaps and reservations -----

  /** Row `r` is one `_find_overlaps` selects for this listing and shares a requested date. */
  predicate Overlaps(r: Row, key: Key, dates: set<Date>) {
    && Active(r)
    && !r.instr.remove
    && r.instr.key == key
    && Keep(r.instr.dates, dates) != []
  }

  datatype Overlap = Overlap(id: nat, instr: Instruction, dates: seq<Date>)

  /** The overlaps among the first `n` rows, by ascending id. */
  function OverlapsBelow(rows: seq<Row>, key: Key, dates: set<Date>, n: nat): seq<Overlap>
    requires n <= |rows|
  {
    if n == 0 then [] else
      OverlapsBelow(rows, key, dates, n - 1) +
      (if Overlaps(rows[n - 1], key, dates)
       then [Overlap(n - 1, rows[n - 1].instr, Keep(rows[n - 1].instr.dates, dates))]
       else [])
  }

  function ReserveRow(r: Row, reserved: bool): Row {
    if reserved && Active(r) then r.(status := Processing) else r
  }

  function Reserve(rows: seq<Row>, ids: set<nat>): (r: seq<Row>)
    ensures |r| == |rows|
  {
    seq(|rows|, i requires 0 <= i < |rows| => ReserveRow(rows[i], i in ids))
  }

  // ----- planning removals -----

  function Removal(source: Instruction, sourceId: nat, dates: seq<Date>, uuid: Uuid): Instruction {
    source.(uuid := uuid, remove := true, source := Some(sourceId), dates := dates)
  }

  /** The dates of `r` that some plan requests on the same listing. */
  function RequestedDates(r: Row, plans: seq<Instruction>): set<Date> {
    set p, d | p in plans && p.key == r.instr.key && d in p.dates && d in r.instr.dates :: d
  }

  predicate Overlapped(r: Row, plans: seq<Instruction>) {
    Active(r) && !r.instr.remove && RequestedDates(r, plans) != {}
  }

  /** Removal blueprints for the overlapped rows among the first `n`, by ascending source id. */
  function OverlapBlueprints(rows: seq<Row>, plans: seq<Instruction>, base: nat, n: nat): seq<Instruction>
    requires n <= |rows|
  {
    if n == 0 then [] else
      OverlapBlueprints(rows, plans, base, n - 1) +
      (if Overlapped(rows[n - 1], plans)
       then [Removal(rows[n - 1].instr, n - 1,
                     Keep(rows[n - 1].instr.dates, RequestedDates(rows[n - 1], plans)), Random(base + n - 1))]
       else [])
  }

  /** Rows `find_booking_applied_instructions_active` yields for one booking. */
  predicate SelectedForRemoval(r: Row, booking: int, property: int) {
    && r.status == Applied
    && !r.instr.remove
    && r.instr.key.booking == booking
    && r.instr.key.property == property
  }

  /** Full-date removals of the selected rows among the first `n`, by descending source id. */
  function BookingBlueprints(rows: seq<Row>, booking: int, property: int, base: nat, n: nat): seq<Instruction>
    requires n <= |rows|
  {
    if n == 0 then [] else
      (if SelectedForRemoval(rows[n - 1], booking, property)
       then [Removal(rows[n - 1].instr, n - 1, rows[n - 1].instr.dates, Random(base + n - 1))]
       else []) +
      BookingBlueprints(rows, booking, property, base, n - 1)
  }

  // ----- recording instructions -----

  /** The latest of the first `n` rows that carries `uuid`. */
  function FindByUuid(rows: seq<Row>, uuid: Uuid, n: nat): (r: Option<nat>)
    requires n <= |rows|
    ensures r.None? ==> forall i :: 0 <= i < n ==> rows[i].instr.uuid != uuid
    ensures r.Some? ==> r.value < n && rows[r.value].instr.uuid == uuid
    ensures r.Some? ==> forall i :: r.value < i < n ==> rows[i].instr.uuid != uuid
  {
    if n == 0 then None
    else if rows[n - 1].instr.uuid == uuid then Some(n - 1)
    else FindByUuid(rows, uuid, n - 1)
  }

  function EnsureRow(rows: seq<Row>, instr: Instruction): seq<Row> {
    if FindByUuid(rows, instr.uuid, |rows|).Some? then rows else rows + [Row(Processing, instr)]
  }

  function EnsureRows(rows: seq<Row>, instrs: seq<Instruction>): seq<Row>
    decreases |instrs|
  {
    if instrs == [] then rows else EnsureRows(EnsureRow(rows, instrs[0]), instrs[1..])
  }

  // ----- callbacks -----

  datatype Callback = Callback(id: nat, uuid: Uuid, remove: bool, success: bool, source: Option<nat>)

  datatype Outcome = RowMissing | UuidMismatch | RemoveMismatch | Noop | Updated

  function Classify(rows: seq<Row>, p: Callback): Outcome {
    if p.id >= |rows| then RowMissing
    else if rows[p.id].instr.uuid != p.uuid then UuidMismatch
    else if rows[p.id].instr.remove != p.remove then RemoveMismatch
    else if rows[p.id].status != Processing then Noop
    else Updated
  }

  /** The source a removal callback acts on: the one it names, else the recorded one. */
  function CallbackSource(rows: seq<Row>, p: Callback): Option<nat>
    requires p.id < |rows|
  {
    if p.source.Some? then p.source else rows[p.id].instr.source
  }

  function SourceRowAfterRemoval(r: Row, removed: set<Date>): Row {
    if !Active(r) then r
    else
      var remaining := Minus(r.instr.dates, removed);
      if remaining != [] then Row(Applied, r.instr.(dates := remaining)) else r.(status := Removed)
  }

  function SourceAfterRemoval(rows: seq<Row>, source: nat, removed: set<Date>): (r: seq<Row>)
    ensures |r| == |rows|
  {
    if source >= |rows| then rows else rows[source := SourceRowAfterRemoval(rows[source], removed)]
  }

  function RestoreSource(rows: seq<Row>, source: nat): (r: seq<Row>)
    ensures |r| == |rows|
  {
    if source < |rows| && rows[source].status == Processing
    then rows[source := rows[source].(status := Applied)]
    else rows
  }

  /** `r` is an apply row of this booking's chain. */
  predicate InChain(r: Row, booking: int, chainId: string) {
    && !r.instr.remove
    && r.instr.key.booking == booking
    && r.instr.chain.Some?
    && r.instr.chain.value.chainId == chainId
  }

  function FailRowDownstream(r: Row, booking: int, chainId: string, position: int): Row {
    if InChain(r, booking, chainId) && r.instr.chain.value.position > position && r.status == Processing
    then r.(status := Failed)
    else r
  }

  function FailDownstream(rows: seq<Row>, booking: int, chainId: string, position: int): (r: seq<Row>)
    ensures |r| == |rows|
  {
    seq(|rows|, i requires 0 <= i < |rows| => FailRowDownstream(rows[i], booking, chainId, position))
  }

  /** The status transaction of a callback for a row loaded as `processing`. */
  function StatusUpdate(rows: seq<Row>, p: Callback): (r: seq<Row>)
    requires p.id < |rows|
    ensures |r| == |rows|
  {
    var row := rows[p.id];
    var source := CallbackSource(rows, p);
    if p.success && !row.instr.remove then
      rows[p.id := row.(status := Applied)]
    else if p.success then
      var marked := rows[p.id := row.(status := Removed)];
      if source.Some? then SourceAfterRemoval(marked, source.value, Elems(row.instr.dates)) else marked
    else
      var marked := rows[p.id := row.(status := Failed)];
      if row.instr.remove then
        if source.Some? then RestoreSource(marked, source.value) else marked
      else if row.instr.chain.Some? then
        FailDownstream(marked, row.instr.key.booking, row.instr.chain.value.chainId, row.instr.chain.value.position)
      else marked
  }

  /** What one callback does to the table, from any state. */
  function Deliver(rows: seq<Row>, p: Callback): (r: seq<Row>)
    ensures |r| == |rows|
  {
    if Classify(rows, p) == Updated then StatusUpdate(rows, p) else rows
  }

  /** The status a callback gives its own row. */
  function StatusAfter(p: Callback): Status {
    if !p.success then Failed else if p.remove then Removed else Applied
  }

  predicate Final(r: Row) {
    r.status == Removed || r.status == Failed
  }

  // ----- rollbacks -----

  datatype Placed = Placed(id: nat, position: int)

  predicate PositionLe(a: Placed, b: Placed) {
    a.position <= b.position
  }

  predicate PositionGe(a: Placed, b: Placed) {
    a.position >= b.position
  }

  /** The chain's apply rows among the first `n`, by ascending id. */
  function ChainRowsBelow(rows: seq<Row>, booking: int, chainId: string, n: nat): (r: seq<Placed>)
    requires n <= |rows|
    ensures forall x :: x in r ==>
                          && x.id < n
                          && InChain(rows[x.id], booking, chainId)
                          && x.position == rows[x.id].instr.chain.value.position
  {
    if n == 0 then [] else
      ChainRowsBelow(rows, booking, chainId, n - 1) +
      (if InChain(rows[n - 1], booking, chainId)
       then [Placed(n - 1, rows[n - 1].instr.chain.value.position)]
       else [])
  }

  predicate RollbackSource(rows: seq<Row>, x: Placed, failedPosition: int)
    requires x.id < |rows|
  {
    x.position < failedPosition && rows[x.id].status == Applied
  }

  function RollbackSources(rows: seq<Row>, placed: seq<Placed>, failedPosition: int): (r: seq<Placed>)
    requires forall x :: x in placed ==> x.id < |rows|
    ensures forall x :: x in r <==> x in placed && RollbackSource(rows, x, failedPosition)
  {
    if placed == [] then [] else
      (if RollbackSource(rows, placed[0], failedPosition) then [placed[0]] else []) +
      RollbackSources(rows, placed[1..], failedPosition)
  }

  function RollbackRemoval(rows: seq<Row>, chainId: string, x: Placed): Instruction
    requires x.id < |rows|
  {
    Removal(rows[x.id].instr, x.id, rows[x.id].instr.dates, Rollback(chainId, x.id))
  }

  function RollbackRemovals(rows: seq<Row>, chainId: string, placed: seq<Placed>): (r: seq<Instruction>)
    requires forall x :: x in placed ==> x.id < |rows|
    ensures |r| == |placed|
    ensures forall i :: 0 <= i < |r| ==> r[i] == RollbackRemoval(rows, chainId, placed[i])
  {
    if placed == [] then [] else
      [RollbackRemoval(rows, chainId, placed[0])] + RollbackRemovals(rows, chainId, placed[1..])
  }

  /** The rows a failure at `failedPosition` rolls back, last position first. */
  function RollbackPlan(rows: seq<Row>, booking: int, chainId: string, failedPosition: int): (r: seq<Placed>)
    ensures forall x :: x in r ==> x.id < |rows|
  {
    var ordered := SortBy(ChainRowsBelow(rows, booking, chainId, |rows|), PositionLe);
    SortBy(RollbackSources(rows, ordered, failedPosition), PositionGe)
  }

  /** Their full-date removals. */
  function RollbackBlueprints(rows: seq<Row>, booking: int, chainId: string, failedPosition: int): seq<Instruction> {
    RollbackRemovals(rows, chainId, RollbackPlan(rows, booking, chainId, failedPosition))
  }
}
