/** Registering a page of bookings: classification, and upserts that survive crashes. */
module Registration {
  import opened Collections
  import opened Resume

  /** A booking's number at its provider. */
  datatype BookingId = BookingId(number: int)

  datatype Value = Number(int) | Text(string) | Numbers(seq<int>) | Cancellation(reason: Option<string>)

  datatype Field =
    | Type | Arrival | Departure | BookedAt | GuestId | PlatformId | ThreadIds
    | ProviderKey | ExternalId | ListingId | BookingStatus | CancellationNote | Other(name: string)

  type Fields = map<Field, Value>

  datatype Row = Row(bookingId: BookingId, cancelled: bool, fields: Fields)

  /** The entries of one platform, by booking. */
  type Register = map<BookingId, Fields>

  // ----- the register -----

  /** A new entry, or the stored one with the row's fields written over it. */
  function Upsert(reg: Register, row: Row): Register {
    reg[row.bookingId := (if row.bookingId in reg then reg[row.bookingId] else map[]) + row.fields]
  }

  function UpsertAll(reg: Register, rows: seq<Row>): Register
    decreases rows
  {
    if rows == [] then reg else UpsertAll(Upsert(reg, rows[0]), rows[1..])
  }

  function Stored(reg: Register, id: BookingId, field: Field): Option<Value> {
    if id in reg && field in reg[id] then Some(reg[id][field]) else None
  }

  ghost predicate Writes(rows: seq<Row>, id: BookingId, field: Field) {
    exists i :: 0 <= i < |rows| && rows[i].bookingId == id && field in rows[i].fields
  }

  ghost predicate Names(rows: seq<Row>, id: BookingId) {
    exists i :: 0 <= i < |rows| && rows[i].bookingId == id
  }

  lemma {:induction false} UpsertAllAppends(reg: Register, a: seq<Row>, b: seq<Row>)
    ensures UpsertAll(reg, a + b) == UpsertAll(UpsertAll(reg, a), b)
    decreases a
  {
    if a == [] {
      assert a + b == b;
    } else {
      assert (a + b)[1..] == a[1..] + b;
      UpsertAllAppends(Upsert(reg, a[0]), a[1..], b);
    }
  }

  lemma WritesSplit(rows: seq<Row>, id: BookingId, field: Field)
    requires rows != []
    ensures Writes(rows, id, field) <==>
            (rows[0].bookingId == id && field in rows[0].fields) || Writes(rows[1..], id, field)
  {
    if Writes(rows, id, field) {
      var i :| 0 <= i < |rows| && rows[i].bookingId == id && field in rows[i].fields;
      assert i > 0 ==> rows[1..][i - 1] == rows[i];
    }
    if Writes(rows[1..], id, field) {
      var i :| 0 <= i < |rows[1..]| && rows[1..][i].bookingId == id && field in rows[1..][i].fields;
      assert rows[i + 1] == rows[1..][i];
    }
  }

  /** A field nobody writes keeps its value. */
  lemma {:induction false} UnwrittenStays(reg: Register, rows: seq<Row>, id: BookingId, field: Field)
    requires !Writes(rows, id, field)
    ensures Stored(UpsertAll(reg, rows), id, field) == Stored(reg, id, field)
    decreases rows
  {
    if rows == [] {
    } else {
      WritesSplit(rows, id, field);
      UnwrittenStays(Upsert(reg, rows[0]), rows[1..], id, field);
    }
  }

  /** A field somebody writes ends with the last value written, whatever was there. */
  lemma {:induction false} WrittenForgets(r1: Register, r2: Register, rows: seq<Row>, id: BookingId, field: Field)
    requires Writes(rows, id, field)
    ensures Stored(UpsertAll(r1, rows), id, field) == Stored(UpsertAll(r2, rows), id, field)
    decreases rows
  {
    WritesSplit(rows, id, field);
    if Writes(rows[1..], id, field) {
      WrittenForgets(Upsert(r1, rows[0]), Upsert(r2, rows[0]), rows[1..], id, field);
    } else {
      UnwrittenStays(Upsert(r1, rows[0]), rows[1..], id, field);
      UnwrittenStays(Upsert(r2, rows[0]), rows[1..], id, field);
    }
  }

  lemma {:induction false} EntriesAfter(reg: Register, rows: seq<Row>, id: BookingId)
    ensures id in UpsertAll(reg, rows) <==> id in reg || Names(rows, id)
    decreases rows
  {
    if rows == [] {
    } else {
      EntriesAfter(Upsert(reg, rows[0]), rows[1..], id);
      if Names(rows, id) {
        var i :| 0 <= i < |rows| && rows[i].bookingId == id;
        assert i > 0 ==> rows[1..][i - 1] == rows[i];
      }
      if Names(rows[1..], id) {
        var i :| 0 <= i < |rows[1..]| && rows[1..][i].bookingId == id;
        assert rows[i + 1].bookingId == id;
      }
    }
  }

  lemma SameRegister(r1: Register, r2: Register)
    requires forall id :: id in r1 <==> id in r2
    requires forall id, field :: Stored(r1, id, field) == Stored(r2, id, field)
    ensures r1 == r2
  {
    forall id | id in r1 ensures r1[id] == r2[id] {
      forall field ensures field in r1[id] <==> field in r2[id] {
        assert Stored(r1, id, field) == Stored(r2, id, field);
      }
      forall field | field in r1[id] ensures r1[id][field] == r2[id][field] {
        assert Stored(r1, id, field) == Stored(r2, id, field);
      }
    }
  }

  lemma SuffixWrites(rows: seq<Row>, i: nat, j: nat, id: BookingId, field: Field)
    requires j <= i <= |rows| && Writes(rows[i..], id, field)
    ensures Writes(rows[j..], id, field)
  {
    var k :| 0 <= k < |rows[i..]| && rows[i..][k].bookingId == id && field in rows[i..][k].fields;
    assert rows[j..][k + i - j] == rows[i..][k];
  }

  lemma SuffixNames(rows: seq<Row>, i: nat, j: nat, id: BookingId)
    requires j <= i <= |rows| && Names(rows[i..], id)
    ensures Names(rows[j..], id)
  {
    var k :| 0 <= k < |rows[i..]| && rows[i..][k].bookingId == id;
    assert rows[j..][k + i - j] == rows[i..][k];
  }

  /** Upserting the rows from `i` on into `now` ends where a whole pass from `start` ends. */
  ghost predicate Finishes(start: Register, now: Register, rows: seq<Row>, i: nat) {
    i <= |rows| && UpsertAll(now, rows[i..]) == UpsertAll(start, rows)
  }

  /**
   * If finishing from row `i` would give what a whole pass gives, then so does
   * going back to any earlier row and finishing from there.
   */
  lemma GoingBackIsHarmless(start: Register, now: Register, rows: seq<Row>, i: nat, j: nat)
    requires j <= i && Finishes(start, now, rows, i)
    ensures Finishes(start, now, rows, j)
  {
    var final, again := UpsertAll(start, rows), UpsertAll(now, rows[j..]);
    assert rows == rows[..j] + rows[j..];
    UpsertAllAppends(start, rows[..j], rows[j..]);
    forall id, field ensures Stored(again, id, field) == Stored(final, id, field) {
      if Writes(rows[j..], id, field) {
        WrittenForgets(now, UpsertAll(start, rows[..j]), rows[j..], id, field);
      } else {
        if Writes(rows[i..], id, field) {
          SuffixWrites(rows, i, j, id, field);
        }
        UnwrittenStays(now, rows[j..], id, field);
        UnwrittenStays(now, rows[i..], id, field);
      }
    }
    forall id ensures id in again <==> id in final {
      EntriesAfter(now, rows[j..], id);
      EntriesAfter(now, rows[i..], id);
      EntriesAfter(UpsertAll(start, rows[..j]), rows[j..], id);
      if Names(rows[i..], id) {
        SuffixNames(rows, i, j, id);
      }
    }
    SameRegister(again, final);
  }

  function Ids(rows: seq<Row>): (ids: seq<BookingId>)
    ensures |ids| == |rows|
    ensures forall i :: 0 <= i < |rows| ==> ids[i] == rows[i].bookingId
  {
    seq(|rows|, i requires 0 <= i < |rows| => rows[i].bookingId)
  }

  // ----- classifying the items of a page -----

  /** `kind` is the item's type, trimmed and in lower case; dates are day numbers. */
  datatype Item =
    | NotAnObject
    | Item(
        kind: Option<string>, isBlock: Option<bool>, id: Reading<int>,
        arrival: Reading<int>, departure: Reading<int>, guestId: Reading<int>,
        listingId: Option<string>, threadIds: Reading<seq<int>>, bookedAt: Option<string>,
        status: string, cancelled: bool, reason: Option<string>)

  datatype ItemError =
    | ItemNotAnObject | Unclassified | BadId | BadArrival | BadDeparture
    | DepartureNotAfterArrival | BadGuestId | NoListing | BadThreadIds

  datatype Focus = Focus(first: int, last: int)

  datatype Verdict = Block | OutOfFocus | Kept(row: Row) | Rejected(error: ItemError)

  datatype Prepared = Prepared(rows: seq<Row>, blocks: nat, cancelled: nat, outOfFocus: nat)

  datatype PageError = PageError(index: nat, error: ItemError)

  /** What all items of one page share. */
  datatype Page = Page(providerKey: string, platformId: int, focus: Option<Focus>)

  predicate InFocus(arrival: int, departure: int, focus: Option<Focus>) {
    focus.None? || (arrival <= focus.value.last && departure > focus.value.first)
  }

  predicate SaysBlock(item: Item)
    requires item.Item?
  {
    (item.isBlock.Some? && item.isBlock.value) || (item.kind.Some? && item.kind.value != "booking")
  }

  function FieldsOf(item: Item, page: Page): Fields
    requires item.Item? && item.id.Read? && item.arrival.Read? && item.departure.Read?
    requires item.guestId.Read? && item.listingId.Some? && item.threadIds.Read?
  {
    map[
      Type := Text("booking"),
      Arrival := Number(item.arrival.value),
      Departure := Number(item.departure.value),
      BookedAt := if item.bookedAt.Some? then Text(item.bookedAt.value) else Number(item.arrival.value),
      GuestId := Number(item.guestId.value),
      PlatformId := Number(page.platformId),
      ThreadIds := Numbers(item.threadIds.value),
      ProviderKey := Text(page.providerKey),
      ExternalId := Number(item.id.value),
      ListingId := Text(item.listingId.value),
      BookingStatus := Text(item.status)]
    + if item.cancelled then map[CancellationNote := Cancellation(item.reason)] else map[]
  }

  /** The fate of one item. */
  function Judge(item: Item, page: Page): Verdict {
    if item.NotAnObject? then Rejected(ItemNotAnObject)
    else if SaysBlock(item) then Block
    else if item.kind.None? && item.isBlock.None? then Rejected(Unclassified)
    else if !item.id.Read? then Rejected(BadId)
    else if !item.arrival.Read? then Rejected(BadArrival)
    else if !item.departure.Read? then Rejected(BadDeparture)
    else if item.departure.value <= item.arrival.value then Rejected(DepartureNotAfterArrival)
    else if !InFocus(item.arrival.value, item.departure.value, page.focus) then OutOfFocus
    else if !item.guestId.Read? then Rejected(BadGuestId)
    else if item.listingId.None? then Rejected(NoListing)
    else if !item.threadIds.Read? then Rejected(BadThreadIds)
    else Kept(Row(BookingId(item.id.value), item.cancelled, FieldsOf(item, page)))
  }

  predicate IsBlock(verdict: Verdict) {
    verdict.Block?
  }

  predicate IsOutOfFocus(verdict: Verdict) {
    verdict.OutOfFocus?
  }

  predicate IsCancelled(verdict: Verdict) {
    verdict.Kept? && verdict.row.cancelled
  }

  /** How many of the first `n` items meet `p`. */
  ghost function CountVerdicts(items: seq<Item>, page: Page, n: nat, p: Verdict -> bool): nat
    requires n <= |items|
  {
    if n == 0 then 0 else CountVerdicts(items, page, n - 1, p) + if p(Judge(items[n - 1], page)) then 1 else 0
  }

  ghost function KeptRows(items: seq<Item>, page: Page, n: nat): seq<Row>
    requires n <= |items|
  {
    if n == 0 then []
    else
      var verdict := Judge(items[n - 1], page);
      KeptRows(items, page, n - 1) + if verdict.Kept? then [verdict.row] else []
  }

  // ----- what the verdicts mean -----

  /** Flagged as a block, or of a type other than booking. */
  ghost predicate BlockItem(item: Item) {
    item.Item? && ((item.isBlock.Some? && item.isBlock.value) || (item.kind.Some? && item.kind.value != "booking"))
  }

  /** A booking, by its type or its block flag, whose id and dates can be read and are in order. */
  ghost predicate DatedBooking(item: Item) {
    && item.Item? && !BlockItem(item) && (item.kind.Some? || item.isBlock.Some?)
    && item.id.Read? && item.arrival.Read? && item.departure.Read?
    && item.arrival.value < item.departure.value
  }

  /** The stay ends before the focus window or begins after it. */
  ghost predicate Misses(item: Item, focus: Option<Focus>)
    requires DatedBooking(item)
  {
    focus.Some? && (item.departure.value <= focus.value.first || focus.value.last < item.arrival.value)
  }

  /** A booking the page registers. */
  ghost predicate KeptItem(item: Item, page: Page) {
    && DatedBooking(item) && !Misses(item, page.focus)
    && item.guestId.Read? && item.listingId.Some? && item.threadIds.Read?
  }

  ghost predicate Has(fields: Fields, field: Field, value: Value) {
    field in fields && fields[field] == value
  }

  /** A block, a booking to keep, or a dated booking out of focus. */
  ghost predicate Proper(item: Item, page: Page) {
    BlockItem(item) || KeptItem(item, page) || (DatedBooking(item) && Misses(item, page.focus))
  }

  /** The values an entry takes from the item; the arrival stands in for a missing booking date. */
  ghost predicate Holds(fields: Fields, item: Item, page: Page)
    requires KeptItem(item, page)
  {
    && Has(fields, Type, Text("booking"))
    && Has(fields, Arrival, Number(item.arrival.value)) && Has(fields, Departure, Number(item.departure.value))
    && (item.bookedAt.Some? ==> Has(fields, BookedAt, Text(item.bookedAt.value)))
    && (item.bookedAt.None? ==> Has(fields, BookedAt, Number(item.arrival.value)))
    && Has(fields, GuestId, Number(item.guestId.value)) && Has(fields, PlatformId, Number(page.platformId))
    && Has(fields, ThreadIds, Numbers(item.threadIds.value))
    && Has(fields, ProviderKey, Text(page.providerKey))
    && Has(fields, ExternalId, Number(item.id.value)) && Has(fields, ListingId, Text(item.listingId.value))
    && Has(fields, BookingStatus, Text(item.status))
    && (item.cancelled ==> Has(fields, CancellationNote, Cancellation(item.reason)))
  }

  /** The row of a kept item: its booking, whether it is cancelled, and its values and no others. */
  ghost predicate RecordsItem(row: Row, item: Item, page: Page)
    requires KeptItem(item, page)
  {
    && row.bookingId == BookingId(item.id.value) && row.cancelled == item.cancelled
    && Holds(row.fields, item, page)
    && forall field :: field in row.fields ==> !field.Other? && (field == CancellationNote ==> item.cancelled)
  }

  lemma FieldsHold(item: Item, page: Page)
    requires KeptItem(item, page)
    ensures Holds(FieldsOf(item, page), item, page)
  {
  }

  lemma NoOtherFields(item: Item, page: Page)
    requires KeptItem(item, page)
    ensures forall field :: field in FieldsOf(item, page) ==>
                              !field.Other? && (field == CancellationNote ==> item.cancelled)
  {
  }

  /** What becomes of an item; any other item is rejected. */
  lemma JudgeMeans(item: Item, page: Page)
    ensures Judge(item, page).Block? <==> BlockItem(item)
    ensures Judge(item, page).OutOfFocus? <==> DatedBooking(item) && Misses(item, page.focus)
    ensures Judge(item, page).Kept? <==> KeptItem(item, page)
    ensures KeptItem(item, page) ==> RecordsItem(Judge(item, page).row, item, page)
  {
    if KeptItem(item, page) {
      FieldsHold(item, page);
      NoOtherFields(item, page);
    }
  }

  ghost predicate Stays(arrival: int, departure: int, night: int) {
    arrival <= night < departure
  }

  /** A stay is in focus when one of its nights is. */
  lemma InFocusIff(arrival: int, departure: int, focus: Focus)
    requires arrival < departure && focus.first <= focus.last
    ensures InFocus(arrival, departure, Some(focus)) <==>
            exists night :: Stays(arrival, departure, night) && focus.first <= night <= focus.last
  {
    if InFocus(arrival, departure, Some(focus)) {
      var night := if arrival < focus.first then focus.first else arrival;
      assert Stays(arrival, departure, night) && focus.first <= night <= focus.last;
    }
  }

  /** How many of the first `n` items are kept. */
  ghost function KeptBefore(items: seq<Item>, page: Page, n: nat): nat
    requires n <= |items|
  {
    if n == 0 then 0 else KeptBefore(items, page, n - 1) + if KeptItem(items[n - 1], page) then 1 else 0
  }

  /** The rows are those of the kept items among the first `n`, in order. */
  ghost predicate RowsOfKept(rows: seq<Row>, items: seq<Item>, page: Page, n: nat)
    requires n <= |items|
  {
    && |rows| == KeptBefore(items, page, n)
    && forall i :: 0 <= i < n && KeptItem(items[i], page) ==> RowAt(rows, KeptBefore(items, page, i), items[i], page)
  }

  ghost predicate RowAt(rows: seq<Row>, k: nat, item: Item, page: Page)
    requires KeptItem(item, page)
  {
    k < |rows| && RecordsItem(rows[k], item, page)
  }

  lemma OneMoreRow(rows: seq<Row>, items: seq<Item>, page: Page, n: nat, verdict: Verdict)
    requires n < |items| && RowsOfKept(rows, items, page, n)
    requires verdict.Kept? <==> KeptItem(items[n], page)
    requires verdict.Kept? ==> RecordsItem(verdict.row, items[n], page)
    ensures RowsOfKept(rows + if verdict.Kept? then [verdict.row] else [], items, page, n + 1)
  {
    var rows' := rows + if verdict.Kept? then [verdict.row] else [];
    forall i | 0 <= i < n + 1 && KeptItem(items[i], page)
      ensures RowAt(rows', KeptBefore(items, page, i), items[i], page)
    {
      assert i < n ==> RowAt(rows, KeptBefore(items, page, i), items[i], page);
    }
  }

  lemma {:induction false} KeptRowsMean(items: seq<Item>, page: Page, n: nat)
    requires n <= |items|
    ensures RowsOfKept(KeptRows(items, page, n), items, page, n)
  {
    if n == 0 {
    } else {
      KeptRowsMean(items, page, n - 1);
      JudgeMeans(items[n - 1], page);
      OneMoreRow(KeptRows(items, page, n - 1), items, page, n - 1, Judge(items[n - 1], page));
    }
  }

  // ----- what the register ends up with -----

  /** `i` is the last of the first `n` items the page registers for its booking. */
  ghost predicate LastKept(items: seq<Item>, page: Page, n: nat, i: nat)
    requires n <= |items|
  {
    && i < n && KeptItem(items[i], page)
    && forall j :: i < j < n && KeptItem(items[j], page) ==> items[j].id != items[i].id
  }

  lemma UpsertOne(reg: Register, row: Row)
    ensures UpsertAll(reg, [row]) == Upsert(reg, row)
  {
    assert [row][1..] == [];
  }

  lemma UpsertKept(reg: Register, items: seq<Item>, page: Page, n: nat)
    requires 0 < n <= |items|
    ensures UpsertAll(reg, KeptRows(items, page, n)) ==
            var before := UpsertAll(reg, KeptRows(items, page, n - 1));
            if KeptItem(items[n - 1], page) then Upsert(before, Judge(items[n - 1], page).row) else before
  {
    JudgeMeans(items[n - 1], page);
    var rows := KeptRows(items, page, n - 1);
    if KeptItem(items[n - 1], page) {
      var row := Judge(items[n - 1], page).row;
      UpsertAllAppends(reg, rows, [row]);
      UpsertOne(UpsertAll(reg, rows), row);
      assert KeptRows(items, page, n) == rows + [row];
    } else {
      assert KeptRows(items, page, n) == rows;
    }
  }

  /** The entry of a booking holds what the last item kept for it says. */
  lemma {:induction false} LastKeptWins(reg: Register, items: seq<Item>, page: Page, n: nat, i: nat)
    requires n <= |items| && LastKept(items, page, n, i)
    ensures var after := UpsertAll(reg, KeptRows(items, page, n));
            BookingId(items[i].id.value) in after && Holds(after[BookingId(items[i].id.value)], items[i], page)
  {
    UpsertKept(reg, items, page, n);
    JudgeMeans(items[n - 1], page);
    if i < n - 1 {
      LastKeptWins(reg, items, page, n - 1, i);
    }
  }

  /** A booking for which no item is kept has the entry it had. */
  lemma {:induction false} OthersStay(reg: Register, items: seq<Item>, page: Page, n: nat, id: BookingId)
    requires n <= |items|
    requires forall i :: 0 <= i < n && KeptItem(items[i], page) ==> BookingId(items[i].id.value) != id
    ensures var after := UpsertAll(reg, KeptRows(items, page, n));
            (id in after <==> id in reg) && (id in reg ==> after[id] == reg[id])
  {
    if n == 0 {
    } else {
      UpsertKept(reg, items, page, n);
      JudgeMeans(items[n - 1], page);
      OthersStay(reg, items, page, n - 1, id);
    }
  }

  /** Every item is a block, out of focus, kept or rejected: the counts add up. */
  lemma {:induction false} VerdictsAddUp(items: seq<Item>, page: Page, n: nat)
    requires n <= |items|
    requires forall i :: 0 <= i < n ==> !Judge(items[i], page).Rejected?
    ensures |KeptRows(items, page, n)|
            + CountVerdicts(items, page, n, IsBlock)
            + CountVerdicts(items, page, n, IsOutOfFocus) == n
  {
    if n == 0 {
    } else {
      VerdictsAddUp(items, page, n - 1);
    }
  }

  /** On success every item is accounted for; on failure the first item that is wrong is named. */
  method PrepareRows(items: seq<Item>, page: Page) returns (r: Result<Prepared, PageError>)
    ensures r.Ok? <==> forall i :: 0 <= i < |items| ==> !Judge(items[i], page).Rejected?
    ensures r.Ok? ==> r.value.rows == KeptRows(items, page, |items|)
    ensures r.Ok? ==> RowsOfKept(r.value.rows, items, page, |items|)
    ensures r.Ok? ==> |r.value.rows| + r.value.blocks + r.value.outOfFocus == |items|
    ensures r.Ok? ==> r.value.blocks == CountVerdicts(items, page, |items|, IsBlock)
    ensures r.Ok? ==> r.value.cancelled == CountVerdicts(items, page, |items|, IsCancelled)
    ensures r.Err? ==>
              && r.error.index < |items|
              && Judge(items[r.error.index], page) == Rejected(r.error.error)
              && forall i :: 0 <= i < r.error.index ==> !Judge(items[i], page).Rejected?
  {
    var rows, blocks, cancelled, outOfFocus := [], 0, 0, 0;
    for index := 0 to |items|
      invariant forall i :: 0 <= i < index ==> !Judge(items[i], page).Rejected?
      invariant rows == KeptRows(items, page, index)
      invariant blocks == CountVerdicts(items, page, index, IsBlock)
      invariant cancelled == CountVerdicts(items, page, index, IsCancelled)
      invariant outOfFocus == CountVerdicts(items, page, index, IsOutOfFocus)
    {
      match Judge(items[index], page)
      case Block => blocks := blocks + 1;
      case OutOfFocus => outOfFocus := outOfFocus + 1;
      case Kept(row) =>
        rows := rows + [row];
        if row.cancelled {
          cancelled := cancelled + 1;
        }
      case Rejected(error) =>
        return Err(PageError(index, error));
    }
    VerdictsAddUp(items, page, |items|);
    KeptRowsMean(items, page, |items|);
    return Ok(Prepared(rows, blocks, cancelled, outOfFocus));
  }

  // ----- the resumable handler -----

  datatype Progress = Progress(itemsProcessed: nat, lastProcessedId: BookingId)

  /** One page being registered; `register`, `progress` and `done` survive a crash. */
  class Registrar {
    const rows: seq<Row>
    ghost const start: Register
    var register: Register
    var progress: Option<Progress>
    var done: bool

    constructor (rows: seq<Row>, register: Register)
      ensures Valid() && this.rows == rows && start == register && this.register == register && !done
    {
      this.rows, this.register, this.start := rows, register, register;
      progress, done := None, false;
    }

    function Cursor(): Option<BookingId>
      reads this
    {
      if progress.None? then None else Some(progress.value.lastProcessedId)
    }

    /** Where a resume would start now. */
    ghost function Position(): nat
      reads this
    {
      ResumeIndex(Ids(rows), Cursor())
    }

    /** Resuming now would still end where a crash-free pass ends. */
    ghost predicate Valid()
      reads this
    {
      && Finishes(start, register, rows, Position())
      && (done ==> register == UpsertAll(start, rows))
    }

    /** A resume now would start no later than row `i`, and finishing from row `i` ends as it should. */
    ghost predicate At(i: nat)
      reads this
    {
      Finishes(start, register, rows, i) && Position() <= i
    }

    /** Row `i`: upsert it, then report it as progress; gives back how many effects are left. */
    method RegisterRow(i: nat, budget: nat) returns (ok: bool, left: nat)
      requires i < |rows| && At(i) && !done
      modifies this
      ensures !done && left <= budget && (budget >= 2 ==> ok && left + 2 == budget)
      ensures if ok then At(i + 1) else Valid()
    {
      ok, left := false, budget;
      GoingBackIsHarmless(start, register, rows, i, Position());
      if left == 0 {
        return;
      }
      StepForward(start, register, rows, i);
      register := Upsert(register, rows[i]);
      left := left - 1;
      GoingBackIsHarmless(start, register, rows, i + 1, Position());
      if left == 0 {
        return;
      }
      progress := Some(Progress(i + 1, rows[i].bookingId));
      left := left - 1;
      ResumesNoLater(Ids(rows), i);
      ok := true;
    }

    /** The pending rows, one after the other. */
    method RegisterFrom(processed: nat, budget: nat) returns (ok: bool, left: nat)
      requires At(processed) && !done
      modifies this
      ensures !done && left <= budget && (budget >= 2 * |rows| ==> ok && left + 2 * |rows| >= budget)
      ensures if ok then At(|rows|) else Valid()
    {
      ok, left := true, budget;
      for i := processed to |rows|
        invariant At(i)
        invariant !done && ok
        invariant left <= budget && left + 2 * (i - processed) >= budget
      {
        ok, left := RegisterRow(i, left);
        if !ok {
          return;
        }
      }
    }

    /** One attempt, cut short by a crash once `budget` effects have happened. */
    method Attempt(budget: nat) returns (finished: bool)
      requires Valid()
      modifies this
      ensures Valid() && finished == done
      ensures budget > 2 * |rows| ==> done
    {
      if done {
        return true;
      }
      var pending, processed := PendingAfterCursor(rows, Ids(rows), Cursor());
      var ok, left := RegisterFrom(processed, budget);
      if !ok {
        return false;
      }
      GoingBackIsHarmless(start, register, rows, |rows|, Position());
      if left == 0 {
        return false;
      }
      assert rows[|rows|..] == [];
      done := true;
      finished := true;
    }

    /** However often it crashes, and wherever, a page that finishes leaves what one clean pass leaves. */
    method Register(crashes: seq<nat>)
      requires Valid()
      modifies this
      ensures Valid() && done && register == UpsertAll(start, rows)
    {
      for k := 0 to |crashes|
        invariant Valid()
      {
        var _ := Attempt(crashes[k]);
      }
      var _ := Attempt(2 * |rows| + 1);
    }
  }

  /**
   `handle_register_bookings` from the page to the finished register: a page with a wrong item registers
   nothing; else, wherever it crashes on the way, every booking kept ends with what its last item says, and
   every other booking with the entry it had.
   */
  method RegisterPage(items: seq<Item>, page: Page, register: Register, crashes: seq<nat>)
    returns (r: Result<Register, PageError>)
    ensures r.Ok? <==> forall i :: 0 <= i < |items| ==> Proper(items[i], page)
    ensures r.Err? ==>
              && r.error.index < |items| && !Proper(items[r.error.index], page)
              && forall i :: 0 <= i < r.error.index ==> Proper(items[i], page)
    ensures r.Ok? ==>
              forall i :: 0 <= i < |items| && LastKept(items, page, |items|, i) ==>
                            && BookingId(items[i].id.value) in r.value
                            && Holds(r.value[BookingId(items[i].id.value)], items[i], page)
    ensures r.Ok? ==>
              forall id :: (forall i :: 0 <= i < |items| && KeptItem(items[i], page) ==>
                                          BookingId(items[i].id.value) != id) ==>
                             (id in r.value <==> id in register) && (id in register ==> r.value[id] == register[id])
  {
    forall i | 0 <= i < |items| ensures !Judge(items[i], page).Rejected? <==> Proper(items[i], page) {
      JudgeMeans(items[i], page);
    }
    var prepared := PrepareRows(items, page);
    if prepared.Err? {
      return Err(prepared.error);
    }
    var registrar := new Registrar(prepared.value.rows, register);
    registrar.Register(crashes);
    forall i | 0 <= i < |items| && LastKept(items, page, |items|, i)
      ensures BookingId(items[i].id.value) in registrar.register
              && Holds(registrar.register[BookingId(items[i].id.value)], items[i], page)
    {
      LastKeptWins(register, items, page, |items|, i);
    }
    forall id | forall i :: 0 <= i < |items| && KeptItem(items[i], page) ==> BookingId(items[i].id.value) != id
      ensures (id in registrar.register <==> id in register)
              && (id in register ==> registrar.register[id] == register[id])
    {
      OthersStay(register, items, page, |items|, id);
    }
    r := Ok(registrar.register);
  }

  lemma StepForward(start: Register, now: Register, rows: seq<Row>, i: nat)
    requires i < |rows| && Finishes(start, now, rows, i)
    ensures Finishes(start, Upsert(now, rows[i]), rows, i + 1)
  {
    assert rows[i..][0] == rows[i] && rows[i..][1..] == rows[i + 1..];
  }

  /** The cursor set after row `i` resumes at or before the row that follows. */
  lemma {:induction false} ResumesNoLater(ids: seq<BookingId>, i: nat)
    requires i < |ids|
    ensures ResumeIndex(ids, Some(ids[i])) <= i + 1
  {
    if i == 0 || ids[0] == ids[i] {
    } else {
      assert ids[1..][i - 1] == ids[i];
      ResumesNoLater(ids[1..], i - 1);
    }
  }
}
