/** What the statements on `booking_applied_rules` mean for each row, in terms of the row's own fields. */
module RuleMeanings {
  import opened Collections
  import opened BookingRules
  import opened InstructionProtocol
  import opened ProtocolInvariant

  // ----- overlaps -----

  lemma {:induction false} OverlapsMembers(rows: seq<Row>, key: Key, dates: set<Date>, n: nat)
    requires n <= |rows|
    ensures forall o :: o in OverlapsBelow(rows, key, dates, n) <==>
                        && o.id < n && Overlaps(rows[o.id], key, dates)
                        && o == Overlap(o.id, rows[o.id].instr, Keep(rows[o.id].instr.dates, dates))
  {
    if n == 0 {
    } else {
      OverlapsMembers(rows, key, dates, n - 1);
    }
  }

  lemma {:induction false} OverlapsAreDistinct(rows: seq<Row>, key: Key, dates: set<Date>, n: nat)
    requires n <= |rows|
    ensures forall a :: 0 <= a < |OverlapsBelow(rows, key, dates, n)| ==> OverlapsBelow(rows, key, dates, n)[a].id < n
    ensures forall a, b :: 0 <= a < b < |OverlapsBelow(rows, key, dates, n)| ==>
                             OverlapsBelow(rows, key, dates, n)[a].id < OverlapsBelow(rows, key, dates, n)[b].id
  {
    if n == 0 {
    } else {
      OverlapsAreDistinct(rows, key, dates, n - 1);
    }
  }

  /** Every active override of the listing that shares a date is found. */
  lemma OverlapExists(rows: seq<Row>, key: Key, dates: seq<Date>, i: nat, d: Date)
    requires i < |rows| && rows[i].status in {Applied, Processing} && !rows[i].instr.remove && rows[i].instr.key == key
    requires d in rows[i].instr.dates && d in dates
    ensures exists k :: 0 <= k < |OverlapsBelow(rows, key, Elems(dates), |rows|)|
                        && OverlapsBelow(rows, key, Elems(dates), |rows|)[k].id == i
  {
    var found := OverlapsBelow(rows, key, Elems(dates), |rows|);
    OverlapsMembers(rows, key, Elems(dates), |rows|);
    var shared := Keep(rows[i].instr.dates, Elems(dates));
    assert d in shared;
    assert Overlap(i, rows[i].instr, shared) in found;
    var k :| 0 <= k < |found| && found[k] == Overlap(i, rows[i].instr, shared);
  }

  lemma OverlapsMean(rows: seq<Row>, key: Key, dates: seq<Date>)
    ensures var found := OverlapsBelow(rows, key, Elems(dates), |rows|);
            && (forall o :: o in found ==>
                              && o.id < |rows| && o.instr == rows[o.id].instr
                              && rows[o.id].status in {Applied, Processing} && !o.instr.remove && o.instr.key == key
                              && o.dates != [] && forall d :: d in o.dates <==> d in o.instr.dates && d in dates)
            && (forall i, d ::
                  && 0 <= i < |rows| && rows[i].status in {Applied, Processing} && !rows[i].instr.remove
                  && rows[i].instr.key == key && d in rows[i].instr.dates && d in dates
                  ==> exists k :: 0 <= k < |found| && found[k].id == i)
            && (forall k, l :: 0 <= k < l < |found| ==> found[k].id < found[l].id)
  {
    OverlapsMembers(rows, key, Elems(dates), |rows|);
    OverlapsAreDistinct(rows, key, Elems(dates), |rows|);
    forall i, d |
      && 0 <= i < |rows| && rows[i].status in {Applied, Processing} && !rows[i].instr.remove
      && rows[i].instr.key == key && d in rows[i].instr.dates && d in dates
      ensures exists k :: 0 <= k < |OverlapsBelow(rows, key, Elems(dates), |rows|)|
                          && OverlapsBelow(rows, key, Elems(dates), |rows|)[k].id == i
    {
      OverlapExists(rows, key, dates, i, d);
    }
  }

  // ----- planning a generation -----

  /** `r` is an active override, and some plan for its listing shares a night with it. */
  ghost predicate Requested(r: Row, plans: seq<Instruction>) {
    && r.status in {Applied, Processing} && !r.instr.remove
    && exists p, d :: p in plans && p.key == r.instr.key && d in p.dates && d in r.instr.dates
  }

  /** `b` removes from `r` exactly the nights plans for its listing request, and copies everything else. */
  ghost predicate TakesRequested(b: Instruction, r: Row, plans: seq<Instruction>) {
    && Requested(r, plans)
    && b == r.instr.(uuid := b.uuid, remove := true, source := b.source, dates := b.dates)
    && KeepsOrder(b.dates, r.instr.dates)
    && forall d :: d in b.dates <==>
                     d in r.instr.dates && exists p :: p in plans && p.key == r.instr.key && d in p.dates
  }

  lemma RequestedIsOverlapped(r: Row, plans: seq<Instruction>)
    ensures Overlapped(r, plans) <==> Requested(r, plans)
  {
    if p, d :| p in plans && p.key == r.instr.key && d in p.dates && d in r.instr.dates {
      assert d in RequestedDates(r, plans);
    }
    if RequestedDates(r, plans) != {} {
      var d :| d in RequestedDates(r, plans);
    }
  }

  /** Each blueprint names a source row, and later ones a later row. */
  ghost predicate SourcesAscend(b: seq<Instruction>) {
    && (forall k :: 0 <= k < |b| ==> b[k].source.Some?)
    && forall k, l :: 0 <= k < l < |b| ==> b[k].source.value < b[l].source.value
  }

  /** Each blueprint names a source row, and later ones an earlier row. */
  ghost predicate SourcesDescend(b: seq<Instruction>) {
    && (forall k :: 0 <= k < |b| ==> b[k].source.Some?)
    && forall k, l :: 0 <= k < l < |b| ==> b[k].source.value > b[l].source.value
  }

  ghost predicate SourcesBelow(b: seq<Instruction>, n: nat) {
    forall k :: 0 <= k < |b| ==> b[k].source.Some? && b[k].source.value < n
  }

  lemma OneMoreAscends(b: seq<Instruction>, x: Instruction, i: nat)
    requires SourcesAscend(b) && SourcesBelow(b, i) && x.source == Some(i)
    ensures SourcesAscend(b + [x]) && SourcesBelow(b + [x], i + 1)
  {
  }

  lemma OneMoreDescends(b: seq<Instruction>, x: Instruction, i: nat)
    requires SourcesDescend(b) && SourcesBelow(b, i) && x.source == Some(i)
    ensures SourcesDescend([x] + b) && SourcesBelow([x] + b, i + 1)
  {
    var r := [x] + b;
    forall k | 0 <= k < |r| ensures r[k].source.Some? && r[k].source.value < i + 1 {
      assert k > 0 ==> r[k] == b[k - 1];
    }
    forall k, l | 0 <= k < l < |r| ensures r[k].source.value > r[l].source.value {
      assert r[l] == b[l - 1] && (k > 0 ==> r[k] == b[k - 1]);
    }
  }

  lemma {:induction false} BlueprintsAscend(rows: seq<Row>, plans: seq<Instruction>, base: nat, n: nat)
    requires n <= |rows|
    ensures SourcesAscend(OverlapBlueprints(rows, plans, base, n))
    ensures SourcesBelow(OverlapBlueprints(rows, plans, base, n), n)
  {
    if n == 0 {
    } else {
      BlueprintsAscend(rows, plans, base, n - 1);
      OneMoreAscends(OverlapBlueprints(rows, plans, base, n - 1), OverlapBlueprint(rows, plans, base, n - 1), n - 1);
    }
  }

  lemma BlueprintMeans(rows: seq<Row>, plans: seq<Instruction>, base: nat, k: nat)
    requires k < |OverlapBlueprints(rows, plans, base, |rows|)|
    ensures var b := OverlapBlueprints(rows, plans, base, |rows|)[k];
            b.source.Some? && b.source.value < |rows| && TakesRequested(b, rows[b.source.value], plans)
  {
    var blueprints := OverlapBlueprints(rows, plans, base, |rows|);
    OverlapBlueprintsMembers(rows, plans, base, |rows|);
    assert blueprints[k] in blueprints;
    var i: nat :| i < |rows| && Overlapped(rows[i], plans) && blueprints[k] == OverlapBlueprint(rows, plans, base, i);
    var b, r := blueprints[k], rows[i];
    RequestedIsOverlapped(r, plans);
    KeepKeepsOrder(r.instr.dates, RequestedDates(r, plans));
    forall d
      ensures d in b.dates <==> d in r.instr.dates && exists p :: p in plans && p.key == r.instr.key && d in p.dates
    {
      assert d in b.dates <==> d in r.instr.dates && d in RequestedDates(r, plans);
    }
  }

  lemma BlueprintExists(rows: seq<Row>, plans: seq<Instruction>, base: nat, i: nat)
    requires i < |rows| && Requested(rows[i], plans)
    ensures exists k :: 0 <= k < |OverlapBlueprints(rows, plans, base, |rows|)|
                        && OverlapBlueprints(rows, plans, base, |rows|)[k].source == Some(i)
  {
    var blueprints := OverlapBlueprints(rows, plans, base, |rows|);
    RequestedIsOverlapped(rows[i], plans);
    OverlapBlueprintsMembers(rows, plans, base, |rows|);
    assert OverlapBlueprint(rows, plans, base, i) in blueprints;
    var k: nat :| k < |blueprints| && blueprints[k] == OverlapBlueprint(rows, plans, base, i);
  }

  /** A generation makes exactly the rows a plan meets `processing`. */
  ghost predicate RequestedReserved(rows: seq<Row>, plans: seq<Instruction>, rows': seq<Row>) {
    && |rows'| == |rows|
    && forall i :: 0 <= i < |rows| ==>
                     rows'[i] == if Requested(rows[i], plans) then rows[i].(status := Processing) else rows[i]
  }

  /** Each row a plan meets has one blueprint, which removes from it exactly the nights requested; there are no more. */
  ghost predicate RequestedRemoved(rows: seq<Row>, plans: seq<Instruction>, blueprints: seq<Instruction>) {
    && SourcesAscend(blueprints)
    && (forall k :: 0 <= k < |blueprints| ==>
                      && blueprints[k].source.Some? && blueprints[k].source.value < |rows|
                      && TakesRequested(blueprints[k], rows[blueprints[k].source.value], plans))
    && (forall i :: 0 <= i < |rows| && Requested(rows[i], plans) ==>
                      exists k :: 0 <= k < |blueprints| && blueprints[k].source == Some(i))
  }

  lemma RequestedAreKept(r: Row, plans: seq<Instruction>)
    ensures Overlapped(r, plans) ==> Keep(r.instr.dates, RequestedDates(r, plans)) != []
  {
    if Overlapped(r, plans) {
      var d :| d in RequestedDates(r, plans);
      assert d in Keep(r.instr.dates, RequestedDates(r, plans));
    }
  }

  lemma PlanMeans(rows: seq<Row>, plans: seq<Instruction>, base: nat)
    ensures RequestedReserved(rows, plans, Reserve(rows, OverlappedIds(rows, plans)))
    ensures RequestedRemoved(rows, plans, OverlapBlueprints(rows, plans, base, |rows|))
  {
    forall i | 0 <= i < |rows| ensures i in OverlappedIds(rows, plans) <==> Requested(rows[i], plans) {
      RequestedIsOverlapped(rows[i], plans);
    }
    BlueprintsAscend(rows, plans, base, |rows|);
    var b := OverlapBlueprints(rows, plans, base, |rows|);
    forall k | 0 <= k < |b|
      ensures b[k].source.Some? && b[k].source.value < |rows|
              && TakesRequested(b[k], rows[b[k].source.value], plans)
    {
      BlueprintMeans(rows, plans, base, k);
    }
    forall i | 0 <= i < |rows| && Requested(rows[i], plans)
      ensures exists k :: 0 <= k < |b| && b[k].source == Some(i)
    {
      BlueprintExists(rows, plans, base, i);
    }
  }

  // ----- planning the removal of a booking -----

  /** The blueprints of a remove-bso task are full removals of applied overrides of the booking on the property. */
  lemma {:induction false} BookingBlueprintsMean(rows: seq<Row>, booking: int, property: int, base: nat, n: nat)
    requires n <= |rows|
    ensures forall b :: b in BookingBlueprints(rows, booking, property, base, n) ==>
                          && b.source.Some? && b.source.value < n
                          && rows[b.source.value].status == Applied && !rows[b.source.value].instr.remove
                          && rows[b.source.value].instr.key.booking == booking
                          && rows[b.source.value].instr.key.property == property
                          && b == rows[b.source.value].instr.(uuid := b.uuid, remove := true, source := b.source)
  {
    if n == 0 {
    } else {
      BookingBlueprintsMean(rows, booking, property, base, n - 1);
    }
  }

  lemma {:induction false} BookingBlueprintsDescend(rows: seq<Row>, booking: int, property: int, base: nat, n: nat)
    requires n <= |rows|
    ensures SourcesDescend(BookingBlueprints(rows, booking, property, base, n))
    ensures SourcesBelow(BookingBlueprints(rows, booking, property, base, n), n)
  {
    if n == 0 {
    } else {
      BookingBlueprintsDescend(rows, booking, property, base, n - 1);
      OneMoreDescends(BookingBlueprints(rows, booking, property, base, n - 1),
                      Removal(rows[n - 1].instr, n - 1, rows[n - 1].instr.dates, Random(base + n - 1)), n - 1);
    }
  }

  lemma {:induction false} BookingBlueprintExists(rows: seq<Row>, booking: int, property: int, base: nat, n: nat,
                                                  i: nat)
    requires i < n <= |rows| && rows[i].status == Applied && !rows[i].instr.remove
    requires rows[i].instr.key.booking == booking && rows[i].instr.key.property == property
    ensures exists k :: 0 <= k < |BookingBlueprints(rows, booking, property, base, n)|
                        && BookingBlueprints(rows, booking, property, base, n)[k].source == Some(i)
  {
    var b := BookingBlueprints(rows, booking, property, base, n);
    if i == n - 1 {
      assert b[0].source == Some(i);
    } else {
      BookingBlueprintExists(rows, booking, property, base, n - 1, i);
      var before := BookingBlueprints(rows, booking, property, base, n - 1);
      var k :| 0 <= k < |before| && before[k].source == Some(i);
      assert b[k + (|b| - |before|)].source == Some(i);
    }
  }

  lemma BookingPlanMeans(rows: seq<Row>, booking: int, property: int, base: nat)
    ensures var blueprints := BookingBlueprints(rows, booking, property, base, |rows|);
            && SourcesDescend(blueprints)
            && (forall b :: b in blueprints ==>
                              && b.source.Some? && b.source.value < |rows|
                              && rows[b.source.value].status == Applied && !rows[b.source.value].instr.remove
                              && rows[b.source.value].instr.key.booking == booking
                              && rows[b.source.value].instr.key.property == property
                              && b == rows[b.source.value].instr.(uuid := b.uuid, remove := true, source := b.source))
            && (forall i :: 0 <= i < |rows| && rows[i].status == Applied && !rows[i].instr.remove
                            && rows[i].instr.key.booking == booking && rows[i].instr.key.property == property
                            ==> exists k :: 0 <= k < |blueprints| && blueprints[k].source == Some(i))
  {
    BookingBlueprintsMean(rows, booking, property, base, |rows|);
    BookingBlueprintsDescend(rows, booking, property, base, |rows|);
    forall i | 0 <= i < |rows| && rows[i].status == Applied && !rows[i].instr.remove
               && rows[i].instr.key.booking == booking && rows[i].instr.key.property == property
      ensures exists k :: 0 <= k < |BookingBlueprints(rows, booking, property, base, |rows|)|
                          && BookingBlueprints(rows, booking, property, base, |rows|)[k].source == Some(i)
    {
      BookingBlueprintExists(rows, booking, property, base, |rows|, i);
    }
  }

  // ----- callbacks -----

  /** A callback acts on the row it names, with identifier and flag right, while that row is `processing`. */
  lemma OutcomeMeans(rows: seq<Row>, p: Callback)
    ensures Classify(rows, p) == RowMissing <==> p.id >= |rows|
    ensures Classify(rows, p) == UuidMismatch <==> p.id < |rows| && rows[p.id].instr.uuid != p.uuid
    ensures Classify(rows, p) == RemoveMismatch <==>
            p.id < |rows| && rows[p.id].instr.uuid == p.uuid && rows[p.id].instr.remove != p.remove
    ensures Classify(rows, p) == Updated <==>
            && p.id < |rows| && rows[p.id].instr.uuid == p.uuid && rows[p.id].instr.remove == p.remove
            && rows[p.id].status == Processing
    ensures Classify(rows, p) != Updated ==> Deliver(rows, p) == rows
  {
  }

  /** `r'` is `r` without the nights of `dates`: `applied` with what is left, or `removed` as it was. */
  ghost predicate Trimmed(r: Row, dates: seq<Date>, r': Row) {
    if exists d :: d in r.instr.dates && d !in dates then
      && r' == Row(Applied, r.instr.(dates := r'.instr.dates))
      && KeepsOrder(r'.instr.dates, r.instr.dates)
      && forall d :: d in r'.instr.dates <==> d in r.instr.dates && d !in dates
    else r' == r.(status := Removed)
  }

  lemma TrimmedSource(r: Row, dates: seq<Date>)
    requires r.status in {Applied, Processing}
    ensures Trimmed(r, dates, SourceRowAfterRemoval(r, Elems(dates)))
  {
    var remaining := Minus(r.instr.dates, Elems(dates));
    MinusKeepsOrder(r.instr.dates, Elems(dates));
    if d :| d in r.instr.dates && d !in dates {
      assert d in remaining;
    } else {
      assert forall d :: d in r.instr.dates ==> d in Elems(dates);
      MinusEverything(r.instr.dates, Elems(dates));
    }
  }

  /** `r` is an override of the booking's chain beyond `position`. */
  ghost predicate Downstream(r: Row, booking: int, chainId: string, position: int) {
    && !r.instr.remove && r.instr.key.booking == booking
    && r.instr.chain.Some? && r.instr.chain.value.chainId == chainId
    && r.instr.chain.value.position > position
  }

  /** Row `r` before and `r'` after a callback that brings row `own` its outcome, as or not as `r`'s removal. */
  ghost predicate OtherRowAfter(r: Row, own: Row, isSource: bool, success: bool, r': Row) {
    if own.instr.remove && success && isSource && r.status in {Applied, Processing} then
      Trimmed(r, own.instr.dates, r')
    else if own.instr.remove && !success && isSource && r.status == Processing then
      r' == r.(status := Applied)
    else if !own.instr.remove && !success && own.instr.chain.Some? && r.status == Processing
            && Downstream(r, own.instr.key.booking, own.instr.chain.value.chainId, own.instr.chain.value.position) then
      r' == r.(status := Failed)
    else r' == r
  }

  /**
   A callback acted: its row took the status it brings; a successful removal trimmed its source while that
   was active, a failed one gave a reserved source back, a failed apply failed what waited further down its
   chain; nothing else changed.
   */
  ghost predicate CallbackActed(rows: seq<Row>, p: Callback, rows': seq<Row>)
    requires p.id < |rows|
  {
    && |rows'| == |rows|
    && rows'[p.id] == rows[p.id].(status := if !p.success then Failed else if p.remove then Removed else Applied)
    && var source := if p.source.Some? then p.source else rows[p.id].instr.source;
    forall i :: 0 <= i < |rows| && i != p.id ==>
                  OtherRowAfter(rows[i], rows[p.id], source == Some(i), p.success, rows'[i])
  }

  lemma CallbackMeans(rows: seq<Row>, p: Callback)
    requires Classify(rows, p) == Updated
    ensures CallbackActed(rows, p, Deliver(rows, p))
  {
    var source := if p.source.Some? then p.source else rows[p.id].instr.source;
    if source.Some? && source.value < |rows| && rows[source.value].status in {Applied, Processing} {
      TrimmedSource(rows[source.value], rows[p.id].instr.dates);
    }
  }

  // ----- recording -----

  ghost predicate HasUuid(rows: seq<Row>, uuid: Uuid) {
    exists i :: 0 <= i < |rows| && rows[i].instr.uuid == uuid
  }

  lemma UuidIsFound(rows: seq<Row>, uuid: Uuid)
    ensures FindByUuid(rows, uuid, |rows|).Some? <==> HasUuid(rows, uuid)
  {
  }

  /** Recording keeps the rows there are and adds `processing` rows of instructions. */
  lemma {:induction false} RecordedRows(rows: seq<Row>, instrs: seq<Instruction>)
    ensures |rows| <= |EnsureRows(rows, instrs)| && EnsureRows(rows, instrs)[..|rows|] == rows
    ensures forall r :: r in EnsureRows(rows, instrs)[|rows|..] ==> r.status == Processing && r.instr in instrs
    decreases |instrs|
  {
    if instrs == [] {
    } else {
      var more := EnsureRow(rows, instrs[0]);
      RecordedRows(more, instrs[1..]);
      var r := EnsureRows(rows, instrs);
      assert r[..|rows|] == r[..|more|][..|rows|];
      if |more| > |rows| {
        assert r[|rows|] == r[..|more|][|rows|] == more[|rows|];
        assert r[|rows|..] == [more[|rows|]] + r[|more|..];
      }
    }
  }

  // ----- rollbacks -----

  /** The rows placed are the overrides of the booking's chain. */
  lemma ChainRowsMean(rows: seq<Row>, booking: int, chainId: string)
    ensures forall x :: x in SortBy(ChainRowsBelow(rows, booking, chainId, |rows|), PositionLe) <==>
                        && x.id < |rows| && !rows[x.id].instr.remove && rows[x.id].instr.key.booking == booking
                        && rows[x.id].instr.chain == Some(ChainRef(chainId, x.position))
  {
    ChainRowsMembers(rows, booking, chainId, |rows|);
  }

  /** Different rows, those at one position by ascending id. */
  ghost predicate TiesAscend(s: seq<Placed>) {
    Distinct(s) && forall k, l :: 0 <= k < l < |s| && s[k].position == s[l].position ==> s[k].id < s[l].id
  }

  /** Sorting by position leaves rows at one position in the order of their ids. */
  lemma SortKeepsTies(s: seq<Placed>, le: (Placed, Placed) -> bool)
    requires TiesAscend(s) && forall a: Placed, b: Placed :: a.position == b.position ==> le(a, b)
    ensures TiesAscend(SortBy(s, le))
  {
    var r := SortBy(s, le);
    SortedIsDistinct(s, le);
    forall k, l | 0 <= k < l < |r| && r[k].position == r[l].position ensures r[k].id < r[l].id {
      assert r[k] in s && r[l] in s;
      var i :| 0 <= i < |s| && s[i] == r[k];
      var j :| 0 <= j < |s| && s[j] == r[l];
      if j < i {
        SortIsStable(s, le, r[l], r[k]);
        assert false;
      }
    }
  }

  lemma {:induction false} ChainRowsByIdAscend(rows: seq<Row>, booking: int, chainId: string, n: nat)
    requires n <= |rows|
    ensures TiesAscend(ChainRowsBelow(rows, booking, chainId, n))
    ensures forall x :: x in ChainRowsBelow(rows, booking, chainId, n) ==> x.id < n
  {
    if n == 0 {
    } else {
      ChainRowsByIdAscend(rows, booking, chainId, n - 1);
      var before, more := ChainRowsBelow(rows, booking, chainId, n - 1), ChainRowsBelow(rows, booking, chainId, n);
      if |more| > |before| {
        OneMoreTies(before, more[|before|]);
      }
    }
  }

  lemma OneMoreTies(s: seq<Placed>, x: Placed)
    requires TiesAscend(s) && forall y :: y in s ==> y.id < x.id
    ensures TiesAscend(s + [x])
  {
    var r := s + [x];
    forall k, l | 0 <= k < l < |r| ensures r[k] != r[l] && (r[k].position == r[l].position ==> r[k].id < r[l].id) {
      assert r[k] in s;
    }
  }

  lemma TailTies(s: seq<Placed>)
    requires TiesAscend(s) && s != []
    ensures TiesAscend(s[1..])
  {
  }

  lemma HeadComesFirst(s: seq<Placed>)
    requires TiesAscend(s) && s != []
    ensures forall x :: x in s[1..] ==> s[0] != x && (s[0].position == x.position ==> s[0].id < x.id)
  {
    forall x | x in s[1..] ensures s[0] != x && (s[0].position == x.position ==> s[0].id < x.id) {
      var k :| 0 <= k < |s[1..]| && s[1..][k] == x;
      assert s[k + 1] == x;
    }
  }

  lemma {:induction false} SourcesKeepTies(rows: seq<Row>, placed: seq<Placed>, position: int)
    requires TiesAscend(placed) && forall x :: x in placed ==> x.id < |rows|
    ensures TiesAscend(RollbackSources(rows, placed, position))
  {
    if placed == [] {
    } else {
      TailTies(placed);
      SourcesKeepTies(rows, placed[1..], position);
      var rest := RollbackSources(rows, placed[1..], position);
      if RollbackSource(rows, placed[0], position) {
        HeadComesFirst(placed);
        HeadTies(placed[0], rest);
        assert RollbackSources(rows, placed, position) == [placed[0]] + rest;
      } else {
        assert RollbackSources(rows, placed, position) == rest;
      }
    }
  }

  lemma HeadTies(x: Placed, s: seq<Placed>)
    requires TiesAscend(s) && forall y :: y in s ==> x != y && (x.position == y.position ==> x.id < y.id)
    ensures TiesAscend([x] + s)
  {
    var r := [x] + s;
    forall k, l | 0 <= k < l < |r| ensures r[k] != r[l] && (r[k].position == r[l].position ==> r[k].id < r[l].id) {
      assert r[l] == s[l - 1] && r[l] in s && (k > 0 ==> r[k] == s[k - 1]);
    }
  }

  lemma RollbackPlanTies(rows: seq<Row>, booking: int, chainId: string, position: int)
    ensures TiesAscend(RollbackPlan(rows, booking, chainId, position))
  {
    var found := ChainRowsBelow(rows, booking, chainId, |rows|);
    ChainRowsByIdAscend(rows, booking, chainId, |rows|);
    SortKeepsTies(found, PositionLe);
    var ordered := SortBy(found, PositionLe);
    SourcesKeepTies(rows, ordered, position);
    SortKeepsTies(RollbackSources(rows, ordered, position), PositionGe);
  }

  lemma ChainRowsAscend(rows: seq<Row>, booking: int, chainId: string)
    ensures var placed := SortBy(ChainRowsBelow(rows, booking, chainId, |rows|), PositionLe);
            forall k, l :: 0 <= k < l < |placed| ==>
                             || placed[k].position < placed[l].position
                             || (placed[k].position == placed[l].position && placed[k].id < placed[l].id)
  {
    var placed := SortBy(ChainRowsBelow(rows, booking, chainId, |rows|), PositionLe);
    SortByIsSorted(ChainRowsBelow(rows, booking, chainId, |rows|), PositionLe);
    ChainRowsByIdAscend(rows, booking, chainId, |rows|);
    SortKeepsTies(ChainRowsBelow(rows, booking, chainId, |rows|), PositionLe);
    assert forall k, l :: 0 <= k < l < |placed| ==> PositionLe(placed[k], placed[l]);
  }

  /** `r` is an applied override of the booking's chain before `position`. */
  ghost predicate RolledBack(r: Row, booking: int, chainId: string, position: int) {
    && r.status == Applied && !r.instr.remove && r.instr.key.booking == booking
    && r.instr.chain.Some? && r.instr.chain.value.chainId == chainId
    && r.instr.chain.value.position < position
  }

  /** `b` removes all of row `i`, one to roll back, under the identifier made from chain and source. */
  ghost predicate RollsBack(b: Instruction, i: nat, r: Row, booking: int, chainId: string, position: int) {
    && RolledBack(r, booking, chainId, position)
    && b == r.instr.(uuid := Rollback(chainId, i), remove := true, source := Some(i))
  }

  /** Of a higher position, or at the same position of a lower row. */
  ghost predicate PlannedEarlier(a: Instruction, b: Instruction) {
    && a.chain.Some? && b.chain.Some? && a.source.Some? && b.source.Some?
    && (a.chain.value.position > b.chain.value.position
        || (a.chain.value.position == b.chain.value.position && a.source.value < b.source.value))
  }

  lemma RollbackMeans(rows: seq<Row>, booking: int, chainId: string, position: int, k: nat)
    requires k < |RollbackBlueprints(rows, booking, chainId, position)|
    ensures var b := RollbackBlueprints(rows, booking, chainId, position)[k];
            && b.source.Some? && b.source.value < |rows|
            && RollsBack(b, b.source.value, rows[b.source.value], booking, chainId, position)
  {
    var plan := RollbackPlan(rows, booking, chainId, position);
    RollbackPlanMembers(rows, booking, chainId, position);
    assert plan[k] in plan;
  }

  lemma RollbacksDescend(rows: seq<Row>, booking: int, chainId: string, position: int, k: nat, l: nat)
    requires k < l < |RollbackBlueprints(rows, booking, chainId, position)|
    ensures var b := RollbackBlueprints(rows, booking, chainId, position);
            PlannedEarlier(b[k], b[l])
  {
    var plan := RollbackPlan(rows, booking, chainId, position);
    RollbackPlanMembers(rows, booking, chainId, position);
    assert plan[k] in plan && plan[l] in plan;
    SortByIsSorted(RollbackSources(rows, SortBy(ChainRowsBelow(rows, booking, chainId, |rows|), PositionLe), position),
                   PositionGe);
    RollbackPlanTies(rows, booking, chainId, position);
    assert PositionGe(plan[k], plan[l]);
  }

  lemma RollbackExists(rows: seq<Row>, booking: int, chainId: string, position: int, i: nat)
    requires i < |rows| && RolledBack(rows[i], booking, chainId, position)
    ensures exists k :: 0 <= k < |RollbackBlueprints(rows, booking, chainId, position)|
                        && RollbackBlueprints(rows, booking, chainId, position)[k].source == Some(i)
  {
    var plan, b := RollbackPlan(rows, booking, chainId, position), RollbackBlueprints(rows, booking, chainId, position);
    RollbackPlanMembers(rows, booking, chainId, position);
    var x := Placed(i, rows[i].instr.chain.value.position);
    assert x in plan;
    var k :| 0 <= k < |plan| && plan[k] == x;
    assert b[k].source == Some(i);
  }

  /** The rollbacks planned are of rows to roll back, each in full, from the end of the chain. */
  lemma RollbacksMean(rows: seq<Row>, booking: int, chainId: string, position: int)
    ensures forall b :: b in RollbackBlueprints(rows, booking, chainId, position) ==>
                          && b.source.Some? && b.source.value < |rows|
                          && RollsBack(b, b.source.value, rows[b.source.value], booking, chainId, position)
    ensures forall k, l :: 0 <= k < l < |RollbackBlueprints(rows, booking, chainId, position)| ==>
                             PlannedEarlier(RollbackBlueprints(rows, booking, chainId, position)[k],
                                            RollbackBlueprints(rows, booking, chainId, position)[l])
  {
    var blueprints := RollbackBlueprints(rows, booking, chainId, position);
    forall b | b in blueprints
      ensures b.source.Some? && b.source.value < |rows|
              && RollsBack(b, b.source.value, rows[b.source.value], booking, chainId, position)
    {
      var k :| 0 <= k < |blueprints| && blueprints[k] == b;
      RollbackMeans(rows, booking, chainId, position, k);
    }
    forall k, l | 0 <= k < l < |blueprints| ensures PlannedEarlier(blueprints[k], blueprints[l]) {
      RollbacksDescend(rows, booking, chainId, position, k, l);
    }
  }

  /** Every row to roll back is. */
  lemma AllRollbacks(rows: seq<Row>, booking: int, chainId: string, position: int)
    ensures forall i :: 0 <= i < |rows| && RolledBack(rows[i], booking, chainId, position) ==>
                          exists k :: 0 <= k < |RollbackBlueprints(rows, booking, chainId, position)|
                                      && RollbackBlueprints(rows, booking, chainId, position)[k].source == Some(i)
  {
    forall i | 0 <= i < |rows| && RolledBack(rows[i], booking, chainId, position)
      ensures exists k :: 0 <= k < |RollbackBlueprints(rows, booking, chainId, position)|
                          && RollbackBlueprints(rows, booking, chainId, position)[k].source == Some(i)
    {
      RollbackExists(rows, booking, chainId, position, i);
    }
  }

  // ----- the steps of the protocol -----

  /** The step of a generation reserves what its plans meet and checkpoints the removals of just that. */
  lemma GenerationStepMeans(s: State, task: nat, plans: seq<Instruction>, base: nat)
    ensures var s' := Next(s, PlanGeneration(task, plans, base, true));
            && RequestedReserved(s.rows, plans, s'.rows)
            && s'.flights.Keys == s.flights.Keys + {task}
            && RequestedRemoved(s.rows, plans, s'.flights[task].blueprints)
            && s'.flights[task].applies == plans && !s'.flights[task].removalsRecorded
  {
    PlanMeans(s.rows, plans, base);
  }

  /** The blueprints roll back exactly the applied overrides before `position` of the booking's chain. */
  ghost predicate RollsBackAll(rows: seq<Row>, booking: int, chainId: string, position: int,
                               blueprints: seq<Instruction>)
  {
    && (forall b :: b in blueprints ==>
                      && b.source.Some? && b.source.value < |rows|
                      && RollsBack(b, b.source.value, rows[b.source.value], booking, chainId, position))
    && (forall i :: 0 <= i < |rows| && RolledBack(rows[i], booking, chainId, position) ==>
                      exists k :: 0 <= k < |blueprints| && blueprints[k].source == Some(i))
  }

  lemma RollsBackExactly(rows: seq<Row>, booking: int, chainId: string, position: int)
    ensures RollsBackAll(rows, booking, chainId, position, RollbackBlueprints(rows, booking, chainId, position))
  {
    RollbacksMean(rows, booking, chainId, position);
    AllRollbacks(rows, booking, chainId, position);
  }

  /** The step after a failed apply checkpoints the rollback of exactly the applied rows before it in its chain. */
  lemma RollbackStepMeans(s: State, task: nat, failedId: nat)
    requires failedId < |s.rows| && s.rows[failedId].instr.chain.Some?
    ensures var s' := Next(s, PlanRollback(task, failedId));
            var failed := s.rows[failedId].instr;
            && s'.rows == s.rows && s'.flights.Keys == s.flights.Keys + {task}
            && s'.flights[task].applies == [] && !s'.flights[task].removalsRecorded
            && RollsBackAll(s.rows, failed.key.booking, failed.chain.value.chainId, failed.chain.value.position,
                            s'.flights[task].blueprints)
  {
    var failed := s.rows[failedId].instr;
    RollsBackExactly(s.rows, failed.key.booking, failed.chain.value.chainId, failed.chain.value.position);
  }
}
