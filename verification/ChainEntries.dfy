/** `_validate_and_order_chain_entries`: which entry lists form a chain `dpt? -> pms -> ota*`. */
module ChainEntries {
  import opened Collections

  datatype Entry = Entry(
    platformId: int,
    listing: string,
    chainId: string,
    position: int,
    platformType: string,
    dependsOn: Option<int>,
    rule: string)

  datatype ChainError =
    | EmptyChain | MixedChains | PositionsNotContiguous
    | NotOnePms | WrongOrder | WrongDependency(index: nat)

  predicate PositionOrder(a: Entry, b: Entry) {
    a.position <= b.position
  }

  // ----- the checks, in the order the code makes them -----

  predicate SingleChain(s: seq<Entry>) {
    forall i :: 0 <= i < |s| ==> s[i].chainId == s[0].chainId
  }

  predicate Contiguous(s: seq<Entry>) {
    forall i :: 0 <= i < |s| ==> s[i].position == i + 1
  }

  function CountPms(s: seq<Entry>): nat {
    if s == [] then 0 else (if s[0].platformType == "pms" then 1 else 0) + CountPms(s[1..])
  }

  function FirstPms(s: seq<Entry>): (r: nat)
    ensures r <= |s|
    ensures r < |s| ==> s[r].platformType == "pms"
    ensures forall i :: 0 <= i < r ==> s[i].platformType != "pms"
  {
    if s == [] || s[0].platformType == "pms" then 0 else 1 + FirstPms(s[1..])
  }

  predicate PrefixOk(s: seq<Entry>, pms: nat)
    requires pms <= |s|
  {
    pms == 0 || (pms == 1 && s[0].platformType == "dpt")
  }

  predicate SuffixOk(s: seq<Entry>, pms: nat) {
    forall i :: pms < i < |s| ==> s[i].platformType == "ota"
  }

  function ExpectedDependency(s: seq<Entry>, i: nat): Option<int>
    requires i < |s|
  {
    if i == 0 then None else Some(s[i - 1].position)
  }

  predicate DependencyOk(s: seq<Entry>, i: nat)
    requires i < |s|
  {
    s[i].dependsOn.None? || s[i].dependsOn == ExpectedDependency(s, i)
  }

  function FirstWrongDependency(s: seq<Entry>, from: nat): (r: nat)
    requires from <= |s|
    ensures from <= r <= |s|
    ensures r < |s| ==> !DependencyOk(s, r)
    ensures forall i :: from <= i < r ==> DependencyOk(s, i)
    decreases |s| - from
  {
    if from == |s| || !DependencyOk(s, from) then from else FirstWrongDependency(s, from + 1)
  }

  function WithDependencies(s: seq<Entry>): (r: seq<Entry>)
    ensures |r| == |s|
    ensures forall i :: 0 <= i < |s| ==> r[i] == s[i].(dependsOn := ExpectedDependency(s, i))
  {
    seq(|s|, i requires 0 <= i < |s| => s[i].(dependsOn := ExpectedDependency(s, i)))
  }

  function CheckShape(s: seq<Entry>): Option<ChainError> {
    if s == [] then Some(EmptyChain)
    else if !SingleChain(s) then Some(MixedChains)
    else if !Contiguous(s) then Some(PositionsNotContiguous)
    else if CountPms(s) != 1 then Some(NotOnePms)
    else if !PrefixOk(s, FirstPms(s)) || !SuffixOk(s, FirstPms(s)) then Some(WrongOrder)
    else None
  }

  function CheckOrdered(s: seq<Entry>): Result<seq<Entry>, ChainError> {
    if CheckShape(s).Some? then Err(CheckShape(s).value)
    else if FirstWrongDependency(s, 0) < |s| then Err(WrongDependency(FirstWrongDependency(s, 0)))
    else Ok(WithDependencies(s))
  }

  function Validate(entries: seq<Entry>): Result<seq<Entry>, ChainError> {
    CheckOrdered(SortBy(entries, PositionOrder))
  }

  // ----- the worker's loops -----

  method ValidateAndOrder(entries: seq<Entry>) returns (r: Result<seq<Entry>, ChainError>)
    ensures r == Validate(entries)
  {
    var ordered := SortBy(entries, PositionOrder);
    var error := FindShapeError(ordered);
    if error.Some? {
      return Err(error.value);
    }
    r := FillDependencies(ordered);
  }

  method FindShapeError(ordered: seq<Entry>) returns (error: Option<ChainError>)
    ensures error == CheckShape(ordered)
  {
    if ordered == [] {
      return Some(EmptyChain);
    }
    var chainIds: set<string> := {};
    for i := 0 to |ordered|
      invariant chainIds == set k | 0 <= k < i :: ordered[k].chainId
    {
      chainIds := chainIds + {ordered[i].chainId};
    }
    OneChainId(ordered, chainIds);
    if |chainIds| != 1 {
      return Some(MixedChains);
    }
    for i := 0 to |ordered|
      invariant forall k :: 0 <= k < i ==> ordered[k].position == k + 1
    {
      if ordered[i].position != i + 1 {
        return Some(PositionsNotContiguous);
      }
    }
    var pmsCount := 0;
    for i := |ordered| downto 0
      invariant pmsCount == CountPms(ordered[i..])
    {
      assert ordered[i..][1..] == ordered[i + 1..];
      if ordered[i].platformType == "pms" {
        pmsCount := pmsCount + 1;
      }
    }
    assert ordered[0..] == ordered;
    if pmsCount != 1 {
      return Some(NotOnePms);
    }
    var pms := FirstPms(ordered);
    if pms > 1 || (pms == 1 && ordered[0].platformType != "dpt") {
      return Some(WrongOrder);
    }
    for i := pms + 1 to |ordered|
      invariant forall k :: pms < k < i ==> ordered[k].platformType == "ota"
    {
      if ordered[i].platformType != "ota" {
        return Some(WrongOrder);
      }
    }
    error := None;
  }

  /** Writes the missing dependencies into the items, front to back. */
  method FillDependencies(ordered: seq<Entry>) returns (r: Result<seq<Entry>, ChainError>)
    ensures r == if FirstWrongDependency(ordered, 0) < |ordered|
                 then Err(WrongDependency(FirstWrongDependency(ordered, 0)))
                 else Ok(WithDependencies(ordered))
  {
    var items := ordered;
    for i := 0 to |ordered|
      invariant |items| == |ordered|
      invariant forall k :: 0 <= k < i ==>
                              DependencyOk(ordered, k) && items[k] ==
                                  ordered[k].(dependsOn := ExpectedDependency(ordered, k))
      invariant forall k :: i <= k < |ordered| ==> items[k] == ordered[k]
    {
      var expected := if i == 0 then None else Some(items[i - 1].position);
      if items[i].dependsOn.Some? && items[i].dependsOn != expected {
        FirstWrongIs(ordered, i);
        return Err(WrongDependency(i));
      }
      if items[i].dependsOn.None? && expected.Some? {
        items := items[i := items[i].(dependsOn := expected)];
      }
    }
    assert items == WithDependencies(ordered);
    r := Ok(items);
  }

  lemma OneChainId(s: seq<Entry>, ids: set<string>)
    requires s != [] && ids == set k | 0 <= k < |s| :: s[k].chainId
    ensures |ids| == 1 <==> SingleChain(s)
  {
    if SingleChain(s) {
      assert ids == {s[0].chainId};
    } else {
      var i :| 0 <= i < |s| && s[i].chainId != s[0].chainId;
      assert s[i].chainId in ids - {s[0].chainId};
      assert |ids - {s[0].chainId}| == |ids| - 1;
    }
  }

  lemma PmsExists(s: seq<Entry>)
    requires CountPms(s) >= 1
    ensures FirstPms(s) < |s|
  {
  }

  lemma FirstWrongIs(s: seq<Entry>, i: nat)
    requires i < |s| && !DependencyOk(s, i) && forall k :: 0 <= k < i ==> DependencyOk(s, k)
    ensures FirstWrongDependency(s, 0) == i
  {
  }

  // ----- what is accepted -----

  /** The pms step is at index `k`: after at most one dpt step, and only ota steps follow. */
  ghost predicate PmsAt(s: seq<Entry>, k: nat) {
    && k <= 1 && k < |s| && s[k].platformType == "pms"
    && (k == 1 ==> s[0].platformType == "dpt")
    && forall i :: k < i < |s| ==> s[i].platformType == "ota"
  }

  /** `dpt? pms ota*`. */
  ghost predicate ChainWord(s: seq<Entry>) {
    PmsAt(s, 0) || PmsAt(s, 1)
  }

  /** Entries of one chain, numbered from one. */
  ghost predicate OneChain(chain: seq<Entry>) {
    forall i :: 0 <= i < |chain| ==> chain[i].chainId == chain[0].chainId && chain[i].position == i + 1
  }

  /** One chain, numbered from one, well typed, each stated dependency the previous position. */
  ghost predicate Proper(chain: seq<Entry>) {
    && OneChain(chain)
    && ChainWord(chain)
    && forall i :: 0 <= i < |chain| ==> chain[i].dependsOn.None? || (i > 0 && chain[i].dependsOn == Some(i))
  }

  /** `chain` is an arrangement of the entries as a proper chain. */
  ghost predicate Arranges(chain: seq<Entry>, entries: seq<Entry>) {
    multiset(chain) == multiset(entries) && Proper(chain)
  }

  lemma PositionOrderIsPreorder()
    ensures TotalPreorder(PositionOrder)
  {
  }

  lemma {:induction false} CountPmsIsOne(s: seq<Entry>, k: nat)
    requires k < |s| && s[k].platformType == "pms" && forall i :: 0 <= i < |s| && i != k ==> s[i].platformType != "pms"
    ensures CountPms(s) == 1
  {
    if k == 0 {
      NoPms(s[1..]);
    } else {
      CountPmsIsOne(s[1..], k - 1);
    }
  }

  lemma {:induction false} NoPms(s: seq<Entry>)
    requires forall i :: 0 <= i < |s| ==> s[i].platformType != "pms"
    ensures CountPms(s) == 0
  {
    if s == [] {
    } else {
      NoPms(s[1..]);
    }
  }

  /** A sequence already numbered from one is what sorting yields. */
  lemma ContiguousIsSorted(chain: seq<Entry>, entries: seq<Entry>)
    requires Contiguous(chain) && multiset(chain) == multiset(entries)
    ensures SortBy(entries, PositionOrder) == chain
  {
    PositionOrderIsPreorder();
    SortByIsSorted(entries, PositionOrder);
    SortedUnique(chain, SortBy(entries, PositionOrder), PositionOrder);
  }

  lemma WordChecks(s: seq<Entry>)
    requires s != []
    ensures ChainWord(s) <==> CountPms(s) == 1 && PrefixOk(s, FirstPms(s)) && SuffixOk(s, FirstPms(s))
  {
    if ChainWord(s) {
      var k := if PmsAt(s, 0) then 0 else 1;
      CountPmsIsOne(s, k);
      assert FirstPms(s) == k;
    } else if CountPms(s) == 1 {
      PmsExists(s);
    }
  }

  lemma OrderedCheckIsExact(s: seq<Entry>)
    ensures CheckOrdered(s).Ok? <==> Proper(s)
    ensures Proper(s) ==> CheckOrdered(s) == Ok(WithDependencies(s))
  {
    if s != [] {
      WordChecks(s);
    }
    if Contiguous(s) {
      assert forall i :: 0 <= i < |s| ==>
          (DependencyOk(s, i) <==> s[i].dependsOn.None? || (i > 0 && s[i].dependsOn == Some(i)));
    }
  }

  /** Accepted exactly when some arrangement of the entries is a chain, and then that one is returned. */
  lemma ValidatorIsExact(entries: seq<Entry>)
    ensures Validate(entries).Ok? <==> exists chain :: Arranges(chain, entries)
    ensures forall chain :: Arranges(chain, entries) ==> Validate(entries) == Ok(WithDependencies(chain))
  {
    var ordered := SortBy(entries, PositionOrder);
    OrderedCheckIsExact(ordered);
    if Validate(entries).Ok? {
      assert Arranges(ordered, entries);
    }
    forall chain | Arranges(chain, entries) ensures Validate(entries) == Ok(WithDependencies(chain)) {
      ContiguousIsSorted(chain, entries);
    }
  }

  lemma FilledDependencies(s: seq<Entry>, i: nat)
    requires CheckOrdered(s).Ok? && i < |s|
    ensures var item := WithDependencies(s)[i];
            item.position == i + 1 && item.dependsOn == if i == 0 then None else Some(i)
  {
    assert Contiguous(s);
    assert s[i].position == i + 1;
    if i > 0 {
      assert s[i - 1].position == i;
    }
  }

  /** In an accepted chain every step depends on the position before its own, which the first lacks. */
  lemma AcceptedDependencies(entries: seq<Entry>, i: nat)
    requires Validate(entries).Ok? && i < |Validate(entries).value|
    ensures var item := Validate(entries).value[i];
            item.position == i + 1 && item.dependsOn == if i == 0 then None else Some(i)
  {
    FilledDependencies(SortBy(entries, PositionOrder), i);
  }

  lemma OrderedSortingErrors(s: seq<Entry>)
    ensures CheckOrdered(s) == Err(EmptyChain) <==> s == []
    ensures CheckOrdered(s) == Err(MixedChains) <==> !SingleChain(s)
    ensures CheckOrdered(s) == Err(PositionsNotContiguous) <==> s != [] && SingleChain(s) && !Contiguous(s)
  {
  }

  /** The first three errors: no entries, entries of several chains, positions that are not 1, 2, 3 and so on. */
  lemma SortingErrors(entries: seq<Entry>)
    ensures Validate(entries) == Err(EmptyChain) <==> entries == []
    ensures Validate(entries) == Err(MixedChains) <==>
            exists a, b :: a in entries && b in entries && a.chainId != b.chainId
    ensures Validate(entries) == Err(PositionsNotContiguous) <==>
            && entries != [] && (forall a, b :: a in entries && b in entries ==> a.chainId == b.chainId)
            && !exists chain :: multiset(chain) == multiset(entries) && OneChain(chain)
  {
    var ordered := SortBy(entries, PositionOrder);
    OrderedSortingErrors(ordered);
    if SingleChain(ordered) {
      forall a, b | a in entries && b in entries ensures a.chainId == b.chainId {
        assert a in ordered && b in ordered;
      }
    } else {
      var i :| 0 <= i < |ordered| && ordered[i].chainId != ordered[0].chainId;
      assert ordered[i] in entries && ordered[0] in entries;
    }
    if chain :| multiset(chain) == multiset(entries) && OneChain(chain) {
      ContiguousIsSorted(chain, entries);
    }
    if SingleChain(ordered) && Contiguous(ordered) {
      assert multiset(ordered) == multiset(entries) && OneChain(ordered);
    }
  }

  /** Item `i` is the first that names another step than the one before it. */
  ghost predicate FirstStray(chain: seq<Entry>, i: nat) {
    && i < |chain| && chain[i].dependsOn.Some? && (i == 0 || chain[i].dependsOn != Some(i))
    && forall k :: 0 <= k < i ==> chain[k].dependsOn.None? || (k > 0 && chain[k].dependsOn == Some(k))
  }

  ghost predicate OnlyPms(chain: seq<Entry>, k: nat) {
    && k < |chain| && chain[k].platformType == "pms"
    && forall i :: 0 <= i < |chain| && i != k ==> chain[i].platformType != "pms"
  }

  ghost predicate OnePms(chain: seq<Entry>) {
    exists k :: OnlyPms(chain, k)
  }

  lemma {:induction false} CountsOnePms(s: seq<Entry>) returns (k: nat)
    requires CountPms(s) == 1
    ensures OnlyPms(s, k)
  {
    var rest := s[1..];
    if s[0].platformType == "pms" {
      AllButPms(rest);
      k := 0;
      assert forall i :: 0 < i < |s| ==> s[i] == rest[i - 1];
    } else {
      var j := CountsOnePms(rest);
      k := j + 1;
      assert forall i :: 0 < i < |s| ==> s[i] == rest[i - 1];
    }
  }

  lemma {:induction false} AllButPms(s: seq<Entry>)
    requires CountPms(s) == 0
    ensures forall i :: 0 <= i < |s| ==> s[i].platformType != "pms"
  {
    if s == [] {
    } else {
      AllButPms(s[1..]);
      assert forall i :: 0 < i < |s| ==> s[i] == s[1..][i - 1];
    }
  }

  lemma CountPmsMeans(s: seq<Entry>)
    ensures CountPms(s) == 1 <==> OnePms(s)
  {
    if CountPms(s) == 1 {
      var k := CountsOnePms(s);
    }
    if k :| OnlyPms(s, k) {
      CountPmsIsOne(s, k);
    }
  }

  lemma StrayMeans(chain: seq<Entry>, i: nat)
    requires OneChain(chain)
    ensures i < |chain| && FirstWrongDependency(chain, 0) == i <==> FirstStray(chain, i)
  {
    forall k | 0 <= k < |chain|
      ensures DependencyOk(chain, k) <==> chain[k].dependsOn.None? || (k > 0 && chain[k].dependsOn == Some(k))
    {
    }
  }

  lemma OrderedShapeErrors(chain: seq<Entry>)
    requires chain != [] && OneChain(chain)
    ensures CheckOrdered(chain) == Err(NotOnePms) <==> !OnePms(chain)
    ensures CheckOrdered(chain) == Err(WrongOrder) <==> OnePms(chain) && !ChainWord(chain)
  {
    assert SingleChain(chain) && Contiguous(chain);
    CountPmsMeans(chain);
    WordChecks(chain);
  }

  /** The other errors, for entries that are, once arranged, one numbered chain. */
  lemma ShapeErrors(entries: seq<Entry>, chain: seq<Entry>)
    requires chain != [] && multiset(chain) == multiset(entries) && OneChain(chain)
    ensures Validate(entries) == Err(NotOnePms) <==> !OnePms(chain)
    ensures Validate(entries) == Err(WrongOrder) <==> OnePms(chain) && !ChainWord(chain)
  {
    ContiguousIsSorted(chain, entries);
    OrderedShapeErrors(chain);
  }

  lemma DependencyError(entries: seq<Entry>, chain: seq<Entry>, i: nat)
    requires chain != [] && multiset(chain) == multiset(entries) && OneChain(chain)
    ensures Validate(entries) == Err(WrongDependency(i)) <==> ChainWord(chain) && FirstStray(chain, i)
  {
    ContiguousIsSorted(chain, entries);
    WordChecks(chain);
    StrayMeans(chain, i);
  }

  lemma {:induction false} SameChainIds(a: seq<Entry>, b: seq<Entry>)
    requires multiset(a) == multiset(b) && SingleChain(a)
    ensures SingleChain(b)
  {
    forall i | 0 <= i < |b| ensures b[i].chainId == b[0].chainId {
      assert b[i] in multiset(a) && b[0] in multiset(a);
      assert b[i] in a && b[0] in a;
    }
  }

  /** The verdict, the error included, does not depend on the order in which entries arrive. */
  lemma ValidatorForgetsOrder(a: seq<Entry>, b: seq<Entry>)
    requires multiset(a) == multiset(b)
    ensures Validate(a) == Validate(b)
  {
    var sa, sb := SortBy(a, PositionOrder), SortBy(b, PositionOrder);
    if Contiguous(sa) {
      ContiguousIsSorted(sa, b);
    } else if Contiguous(sb) {
      ContiguousIsSorted(sb, a);
    } else {
      assert |multiset(sa)| == |multiset(sb)|;
      if SingleChain(sa) {
        SameChainIds(sa, sb);
      } else if SingleChain(sb) {
        SameChainIds(sb, sa);
        assert false;
      }
    }
  }

  lemma FilledIsProper(s: seq<Entry>)
    requires Proper(s)
    ensures Proper(WithDependencies(s)) && WithDependencies(WithDependencies(s)) == WithDependencies(s)
  {
    var k := if PmsAt(s, 0) then 0 else 1;
    assert PmsAt(WithDependencies(s), k);
    assert SingleChain(WithDependencies(s)) && Contiguous(WithDependencies(s));
  }

  /** Validating a validated chain changes nothing. */
  lemma ValidatorIsIdempotent(entries: seq<Entry>)
    requires Validate(entries).Ok?
    ensures Validate(Validate(entries).value) == Validate(entries)
  {
    var ordered := SortBy(entries, PositionOrder);
    OrderedCheckIsExact(ordered);
    FilledIsProper(ordered);
    ContiguousIsSorted(WithDependencies(ordered), WithDependencies(ordered));
    OrderedCheckIsExact(WithDependencies(ordered));
  }

  function ExampleEntry(position: int, platformType: string): Entry {
    Entry(if platformType == "pms" then 1 else 2, "listing", "chain", position, platformType, None, "rule")
  }

  /** One listing at two positions of a chain is accepted. */
  lemma RepeatedListingIsAccepted()
    ensures var entries := [ExampleEntry(1, "pms"), ExampleEntry(2, "ota"), ExampleEntry(3, "ota")];
            && entries[1].platformId == entries[2].platformId && entries[1].listing == entries[2].listing
            && Validate(entries) == Ok(WithDependencies(entries))
  {
    var entries := [ExampleEntry(1, "pms"), ExampleEntry(2, "ota"), ExampleEntry(3, "ota")];
    assert PmsAt(entries, 0);
    assert OneChain(entries);
    assert Arranges(entries, entries);
    ValidatorIsExact(entries);
  }
}
