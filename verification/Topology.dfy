/** `handle_get_linked_listings`: the canonical listing, its linked listings, and their order in a chain. */
module Topology {
  import opened Collections

  type Key = (int, string)

  datatype Pair = Pair(platformId: int, listing: string, platformType: Option<string>)

  function Identity(p: Pair): Key {
    (p.platformId, p.listing)
  }

  // ----- platform types -----

  predicate Blank(c: char) {
    c == ' ' || '\t' <= c <= '\r' || '\U{1C}' <= c <= '\U{1F}'
  }

  function TrimLeft(s: string): string {
    if s != [] && Blank(s[0]) then TrimLeft(s[1..]) else s
  }

  function TrimRight(s: string): string {
    if s != [] && Blank(s[|s| - 1]) then TrimRight(s[..|s| - 1]) else s
  }

  function LowerChar(c: char): char {
    if 'A' <= c <= 'Z' then c + ('a' - 'A') else c
  }

  function Lower(s: string): string {
    seq(|s|, i requires 0 <= i < |s| => LowerChar(s[i]))
  }

  /** Blank-trimmed, lower case, `otp` read as `ota`; nothing if empty. */
  function NormalizeType(raw: Option<string>): Option<string> {
    if raw.None? || TrimRight(TrimLeft(raw.value)) == "" then None
    else
      var normalized := Lower(TrimRight(TrimLeft(raw.value)));
      if normalized == "otp" then Some("ota") else Some(normalized)
  }

  /** White space of ASCII. */
  ghost predicate White(c: char) {
    c in {' ', '\t', '\n', '\U{0B}', '\U{0C}', '\r', '\U{1C}', '\U{1D}', '\U{1E}', '\U{1F}'}
  }

  /** Without the white space at its ends `s` is `s[i..j]`. */
  ghost predicate Trims(s: string, i: nat, j: nat) {
    && i <= j <= |s|
    && (forall k :: 0 <= k < i ==> White(s[k]))
    && (forall k :: j <= k < |s| ==> White(s[k]))
    && (i < j ==> !White(s[i]) && !White(s[j - 1]))
  }

  lemma BlankIsWhite(c: char)
    ensures Blank(c) <==> White(c)
  {
    if Blank(c) && c != ' ' {
      assert c as int in {9, 10, 11, 12, 13, 28, 29, 30, 31};
    }
  }

  lemma {:induction false} TrimLeftMeans(s: string) returns (i: nat)
    ensures i <= |s| && TrimLeft(s) == s[i..]
    ensures forall k :: 0 <= k < i ==> Blank(s[k])
    ensures i < |s| ==> !Blank(s[i])
  {
    if s == [] || !Blank(s[0]) {
      i := 0;
    } else {
      var n := TrimLeftMeans(s[1..]);
      i := n + 1;
      assert forall k :: 1 <= k < i ==> s[k] == s[1..][k - 1];
    }
  }

  lemma {:induction false} TrimRightMeans(s: string) returns (j: nat)
    ensures j <= |s| && TrimRight(s) == s[..j]
    ensures forall k :: j <= k < |s| ==> Blank(s[k])
    ensures 0 < j ==> !Blank(s[j - 1])
  {
    if s == [] || !Blank(s[|s| - 1]) {
      j := |s|;
    } else {
      j := TrimRightMeans(s[..|s| - 1]);
      assert s[..|s| - 1][..j] == s[..j];
    }
  }

  lemma TrimMeans(s: string) returns (i: nat, j: nat)
    ensures Trims(s, i, j) && TrimRight(TrimLeft(s)) == s[i..j]
  {
    i := TrimLeftMeans(s);
    var n := TrimRightMeans(s[i..]);
    j := i + n;
    assert s[i..][..n] == s[i..j];
    assert forall k :: j <= k < |s| ==> s[k] == s[i..][k - i];
    assert n > 0 ==> s[j - 1] == s[i..][n - 1];
    forall k | 0 <= k < |s| ensures Blank(s[k]) <==> White(s[k]) {
      BlankIsWhite(s[k]);
    }
  }

  /** The type is absent for nothing but blanks; else it is the trimmed text in lower case, `ota` for `otp`. */
  lemma TypeMeans(s: string) returns (i: nat, j: nat)
    ensures Trims(s, i, j) && (NormalizeType(Some(s)).None? <==> i == j)
    ensures i < j ==>
              var t := NormalizeType(Some(s)).value;
              var lower := seq(j - i, k requires 0 <= k < j - i =>
                               if 'A' <= s[i + k] <= 'Z' then s[i + k] - 'A' + 'a' else s[i + k]);
              t == if lower == "otp" then "ota" else lower
  {
    i, j := TrimMeans(s);
    if i < j {
      assert s[i..j] != "";
      var lower := seq(j - i, k requires 0 <= k < j - i =>
                       if 'A' <= s[i + k] <= 'Z' then s[i + k] - 'A' + 'a' else s[i + k]);
      assert Lower(s[i..j]) == lower;
    }
  }

  lemma KnownTypesAreNormal(t: string)
    requires t == "dpt" || t == "pms" || t == "ota"
    ensures NormalizeType(Some(t)) == Some(t)
  {
    assert |t| == 3 && !Blank(t[0]) && !Blank(t[2]);
    assert TrimRight(TrimLeft(t)) == t;
    assert Lower(t) == t;
  }

  // ----- the order of listings -----

  /** Python's order on strings. */
  predicate StringLe(a: string, b: string) {
    if a == [] then true
    else if b == [] then false
    else if a[0] == b[0] then StringLe(a[1..], b[1..])
    else a[0] < b[0]
  }

  /** The order is that of the first character in which the strings differ; a prefix comes first. */
  lemma {:induction false} StringLeMeans(a: string, b: string)
    ensures StringLe(a, b) <==>
            || a <= b
            || exists k :: 0 <= k < |a| && k < |b| && a[..k] == b[..k] && a[k] < b[k]
  {
    if a == [] || b == [] || a[0] != b[0] {
      if a != [] && b != [] && a[0] < b[0] {
        assert a[..0] == b[..0];
      }
    } else {
      var x, y := a[1..], b[1..];
      StringLeMeans(x, y);
      assert a == [a[0]] + x && b == [a[0]] + y;
      if k :| 0 <= k < |x| && k < |y| && x[..k] == y[..k] && x[k] < y[k] {
        assert a[..k + 1] == [a[0]] + x[..k] && b[..k + 1] == [a[0]] + y[..k];
        assert a[k + 1] < b[k + 1];
      }
      if k :| 0 <= k < |a| && k < |b| && a[..k] == b[..k] && a[k] < b[k] {
        assert k > 0;
        assert x[..k - 1] == a[..k][1..] && y[..k - 1] == b[..k][1..];
        assert x[k - 1] < y[k - 1];
      }
    }
  }

  lemma {:induction false} StringLeTotal(a: string, b: string)
    ensures StringLe(a, b) || StringLe(b, a)
  {
    if a == [] || b == [] || a[0] != b[0] {
    } else {
      StringLeTotal(a[1..], b[1..]);
    }
  }

  lemma {:induction false} StringLeTransitive(a: string, b: string, c: string)
    requires StringLe(a, b) && StringLe(b, c)
    ensures StringLe(a, c)
  {
    if a == [] || b == [] || c == [] || !(a[0] == b[0] == c[0]) {
    } else {
      StringLeTransitive(a[1..], b[1..], c[1..]);
    }
  }

  lemma {:induction false} StringLeAntisymmetric(a: string, b: string)
    requires StringLe(a, b) && StringLe(b, a)
    ensures a == b
  {
    if a == [] || b == [] {
    } else {
      StringLeAntisymmetric(a[1..], b[1..]);
      assert a == [a[0]] + a[1..] && b == [b[0]] + b[1..];
    }
  }

  predicate PairOrder(a: Pair, b: Pair) {
    a.platformId < b.platformId || (a.platformId == b.platformId && StringLe(a.listing, b.listing))
  }

  lemma PairOrderIsPreorder()
    ensures TotalPreorder(PairOrder)
  {
    forall a: Pair, b: Pair ensures PairOrder(a, b) || PairOrder(b, a) {
      StringLeTotal(a.listing, b.listing);
    }
    forall a: Pair, b: Pair, c: Pair | PairOrder(a, b) && PairOrder(b, c) ensures PairOrder(a, c) {
      if a.platformId == b.platformId == c.platformId {
        StringLeTransitive(a.listing, b.listing, c.listing);
      }
    }
  }

  datatype TopologyError = NoLinkedRow | CanonicalNotPms | TypeMissing(platformId: int) | ExtraPms(platformId: int) |
    UnsupportedType(platformId: int) | ManyDpt

  /** What is wrong with one linked pair, if anything. */
  function PairError(p: Pair): Option<TopologyError> {
    var t := NormalizeType(p.platformType);
    if t.None? then Some(TypeMissing(p.platformId))
    else if t.value == "dpt" || t.value == "ota" then None
    else if t.value == "pms" then Some(ExtraPms(p.platformId))
    else Some(UnsupportedType(p.platformId))
  }

  function FirstError(linked: seq<Pair>): (r: Option<TopologyError>)
    ensures r.None? <==> forall i :: 0 <= i < |linked| ==> PairError(linked[i]).None?
  {
    if linked == [] then None
    else if PairError(linked[0]).Some? then PairError(linked[0])
    else FirstError(linked[1..])
  }

  /** The linked pairs of one normalized type, in the order given. */
  function OfType(linked: seq<Pair>, t: string): seq<Pair> {
    if linked == [] then [] else
      Matching(linked[0], t) + OfType(linked[1..], t)
  }

  function OrderPairs(canonical: Pair, linked: seq<Pair>): Result<seq<Pair>, TopologyError> {
    if linked == [] then Err(NoLinkedRow)
    else if NormalizeType(canonical.platformType) !in {None, Some("pms")} then Err(CanonicalNotPms)
    else if FirstError(linked).Some? then Err(FirstError(linked).value)
    else if |OfType(linked, "dpt")| > 1 then Err(ManyDpt)
    else Ok(SortBy(OfType(linked, "dpt"), PairOrder)
            + [canonical.(platformType := Some("pms"))]
            + SortBy(OfType(linked, "ota"), PairOrder))
  }

  function Matching(p: Pair, t: string): seq<Pair> {
    if NormalizeType(p.platformType) == Some(t) then [p.(platformType := Some(t))] else []
  }

  lemma {:induction false} OfTypeAppend(linked: seq<Pair>, p: Pair, t: string)
    ensures OfType(linked + [p], t) == OfType(linked, t) + Matching(p, t)
  {
    if linked == [] {
      assert OfType([p], t) == Matching(p, t) + OfType([], t);
    } else {
      assert (linked + [p])[1..] == linked[1..] + [p];
      OfTypeAppend(linked[1..], p, t);
    }
  }

  lemma {:induction false} FirstErrorIs(linked: seq<Pair>, i: nat)
    requires i < |linked| && PairError(linked[i]).Some? && forall k :: 0 <= k < i ==> PairError(linked[k]).None?
    ensures FirstError(linked) == PairError(linked[i])
  {
    if i == 0 {
    } else {
      FirstErrorIs(linked[1..], i - 1);
    }
  }

  ghost predicate IsType(p: Pair, t: string) {
    NormalizeType(p.platformType) == Some(t)
  }

  /** What the error says of the pair it names. */
  ghost predicate IsErrorOf(error: TopologyError, p: Pair) {
    match error
    case TypeMissing(id) => id == p.platformId && NormalizeType(p.platformType).None?
    case ExtraPms(id) => id == p.platformId && IsType(p, "pms")
    case UnsupportedType(id) =>
      && id == p.platformId && NormalizeType(p.platformType).Some?
      && !IsType(p, "dpt") && !IsType(p, "ota") && !IsType(p, "pms")
    case _ => false
  }

  ghost predicate Fits(p: Pair) {
    NormalizeType(p.platformType) in {Some("dpt"), Some("ota")}
  }

  ghost predicate AllFit(linked: seq<Pair>) {
    forall i :: 0 <= i < |linked| ==> Fits(linked[i])
  }

  /** The error is of the first pair typed neither dpt nor ota. */
  ghost predicate FirstMisfit(linked: seq<Pair>, error: TopologyError) {
    exists i :: 0 <= i < |linked| && IsErrorOf(error, linked[i]) && AllFit(linked[..i])
  }

  lemma {:induction false} ErrorMeans(linked: seq<Pair>)
    ensures FirstError(linked).None? <==> AllFit(linked)
    ensures FirstError(linked).Some? ==> FirstMisfit(linked, FirstError(linked).value)
  {
    forall i | 0 <= i < |linked| ensures Fits(linked[i]) <==> PairError(linked[i]).None? {
    }
    if linked == [] {
    } else if PairError(linked[0]).Some? {
      assert IsErrorOf(PairError(linked[0]).value, linked[0]) && AllFit(linked[..0]);
    } else {
      ErrorMeans(linked[1..]);
      var error := FirstError(linked);
      if error.Some? {
        var i :| 0 <= i < |linked[1..]| && IsErrorOf(error.value, linked[1..][i]) && AllFit(linked[1..][..i]);
        forall k | 0 <= k < i + 1 ensures Fits(linked[k]) {
          assert k > 0 ==> linked[k] == linked[1..][..i][k - 1];
        }
        assert IsErrorOf(error.value, linked[i + 1]) && AllFit(linked[..i + 1]);
      }
    }
  }

  /** Splits the linked pairs by type, stopping at the first one that does not fit. */
  method PartitionByType(linked: seq<Pair>) returns (error: Option<TopologyError>, dpt: seq<Pair>, ota: seq<Pair>)
    ensures error == FirstError(linked)
    ensures error.None? ==> dpt == OfType(linked, "dpt") && ota == OfType(linked, "ota")
  {
    error, dpt, ota := None, [], [];
    for i := 0 to |linked|
      invariant error.None? && forall k :: 0 <= k < i ==> PairError(linked[k]).None?
      invariant dpt == OfType(linked[..i], "dpt")
      invariant ota == OfType(linked[..i], "ota")
    {
      assert linked[..i + 1] == linked[..i] + [linked[i]];
      OfTypeAppend(linked[..i], linked[i], "dpt");
      OfTypeAppend(linked[..i], linked[i], "ota");
      error, dpt, ota := PlacePair(linked[i], dpt, ota);
      if error.Some? {
        FirstErrorIs(linked, i);
        return;
      }
    }
    assert linked[..|linked|] == linked;
  }

  method PlacePair(pair: Pair, dpt: seq<Pair>, ota: seq<Pair>)
    returns (error: Option<TopologyError>, dpt': seq<Pair>, ota': seq<Pair>)
    ensures error == PairError(pair)
    ensures error.None? ==> dpt' == dpt + Matching(pair, "dpt") && ota' == ota + Matching(pair, "ota")
  {
    error, dpt', ota' := None, dpt, ota;
    var platformType := NormalizeType(pair.platformType);
    if platformType.None? {
      error := Some(TypeMissing(pair.platformId));
    } else if platformType.value == "dpt" {
      dpt' := dpt + [pair.(platformType := platformType)];
    } else if platformType.value == "ota" {
      ota' := ota + [pair.(platformType := platformType)];
    } else if platformType.value == "pms" {
      error := Some(ExtraPms(pair.platformId));
    } else {
      error := Some(UnsupportedType(pair.platformId));
    }
  }

  /** A canonical listing typed pms if at all, other listings typed dpt or ota, no two of them dpt. */
  ghost predicate Orderable(canonical: Pair, linked: seq<Pair>) {
    && linked != []
    && (NormalizeType(canonical.platformType).None? || IsType(canonical, "pms"))
    && AllFit(linked)
    && AtMostOne(linked, "dpt")
  }

  ghost predicate AtMostOne(linked: seq<Pair>, t: string) {
    forall i, j :: 0 <= i < j < |linked| ==> !(IsType(linked[i], t) && IsType(linked[j], t))
  }

  /** By platform id, listings of one platform by their text. */
  ghost predicate Ascending(pairs: seq<Pair>) {
    forall i, j :: 0 <= i < j < |pairs| ==>
                     || pairs[i].platformId < pairs[j].platformId
                     || (pairs[i].platformId == pairs[j].platformId && StringLe(pairs[i].listing, pairs[j].listing))
  }

  /** `typed` are the pairs of type `t`, that type written into them: these and no others. */
  ghost predicate AreOfType(typed: seq<Pair>, linked: seq<Pair>, t: string) {
    && (forall q :: q in typed ==> q.platformType == Some(t))
    && (forall q :: q in typed <==> exists p :: p in linked && IsType(p, t) && q == p.(platformType := Some(t)))
  }

  /** First the dpt if there is one, then the canonical listing as pms, then the otas in ascending order. */
  ghost predicate TopologyOrder(r: seq<Pair>, canonical: Pair, linked: seq<Pair>) {
    exists dpt, ota ::
      && r == dpt + [canonical.(platformType := Some("pms"))] + ota
      && |dpt| <= 1 && |dpt| + |ota| == |linked|
      && AreOfType(dpt, linked, "dpt") && AreOfType(ota, linked, "ota")
      && Ascending(ota)
  }

  lemma {:induction false} TypesPartition(linked: seq<Pair>)
    requires AllFit(linked)
    ensures |OfType(linked, "dpt")| + |OfType(linked, "ota")| == |linked|
  {
    if linked == [] {
    } else {
      forall i | 0 <= i < |linked[1..]| ensures Fits(linked[1..][i]) {
        assert Fits(linked[i + 1]);
      }
      TypesPartition(linked[1..]);
      assert Fits(linked[0]) && "dpt"[0] != "ota"[0];
    }
  }

  lemma OfTypeMean(linked: seq<Pair>, t: string)
    ensures AreOfType(OfType(linked, t), linked, t)
  {
    forall q
      ensures q in OfType(linked, t) <==> exists p :: p in linked && IsType(p, t) && q == p.(platformType := Some(t))
    {
      OfTypeMembers(linked, t, q);
      if p :| p in linked && IsType(p, t) && q == p.(platformType := Some(t)) {
        var i :| 0 <= i < |linked| && linked[i] == p;
        assert q == Typed(linked[i], t);
      }
    }
  }

  lemma SortedAscends(pairs: seq<Pair>)
    ensures Ascending(SortBy(pairs, PairOrder))
  {
    PairOrderIsPreorder();
    SortByIsSorted(pairs, PairOrder);
    var sorted := SortBy(pairs, PairOrder);
    assert forall i, j :: 0 <= i < j < |sorted| ==> PairOrder(sorted[i], sorted[j]);
  }

  lemma SortedOfType(linked: seq<Pair>, t: string)
    ensures AreOfType(SortBy(OfType(linked, t), PairOrder), linked, t)
    ensures Ascending(SortBy(OfType(linked, t), PairOrder))
  {
    OfTypeMean(linked, t);
    SortedAscends(OfType(linked, t));
  }

  lemma {:induction false} ManyOfType(linked: seq<Pair>, t: string)
    ensures |OfType(linked, t)| <= 1 <==> AtMostOne(linked, t)
    ensures |OfType(linked, t)| == 0 <==> forall i :: 0 <= i < |linked| ==> !IsType(linked[i], t)
  {
    if linked == [] {
    } else {
      var rest := linked[1..];
      ManyOfType(rest, t);
      assert forall i :: 0 <= i < |rest| ==> linked[i + 1] == rest[i];
      assert forall i :: 0 < i < |linked| ==> linked[i] == rest[i - 1];
    }
  }

  /** Which listings are ordered at all. */
  lemma OrderableIff(canonical: Pair, linked: seq<Pair>)
    ensures OrderPairs(canonical, linked).Ok? <==> Orderable(canonical, linked)
  {
    ManyOfType(linked, "dpt");
    ErrorMeans(linked);
  }

  lemma OrderMeans(canonical: Pair, linked: seq<Pair>)
    requires OrderPairs(canonical, linked).Ok?
    ensures TopologyOrder(OrderPairs(canonical, linked).value, canonical, linked)
  {
    var dpt, ota := SortBy(OfType(linked, "dpt"), PairOrder), SortBy(OfType(linked, "ota"), PairOrder);
    ErrorMeans(linked);
    TypesPartition(linked);
    SortedOfType(linked, "dpt");
    SortedOfType(linked, "ota");
    TopologyOrderIs(dpt, ota, canonical, linked);
  }

  lemma TopologyOrderIs(dpt: seq<Pair>, ota: seq<Pair>, canonical: Pair, linked: seq<Pair>)
    requires |dpt| <= 1 && |dpt| + |ota| == |linked|
    requires AreOfType(dpt, linked, "dpt") && AreOfType(ota, linked, "ota") && Ascending(ota)
    ensures TopologyOrder(dpt + [canonical.(platformType := Some("pms"))] + ota, canonical, linked)
  {
  }

  method OrderPairsByTopology(canonical: Pair, linked: seq<Pair>) returns (r: Result<seq<Pair>, TopologyError>)
    ensures r == OrderPairs(canonical, linked)
    ensures r.Ok? <==> Orderable(canonical, linked)
    ensures r.Ok? ==> TopologyOrder(r.value, canonical, linked)
  {
    OrderableIff(canonical, linked);
    if linked == [] {
      return Err(NoLinkedRow);
    }
    var canonicalType := NormalizeType(canonical.platformType);
    if canonicalType.Some? && canonicalType.value != "pms" {
      return Err(CanonicalNotPms);
    }
    var error, dpt, ota := PartitionByType(linked);
    if error.Some? {
      return Err(error.value);
    }
    if |dpt| > 1 {
      return Err(ManyDpt);
    }
    var ordered := SortBy(dpt, PairOrder);
    ordered := ordered + [canonical.(platformType := Some("pms"))];
    ordered := ordered + SortBy(ota, PairOrder);
    OrderMeans(canonical, linked);
    r := Ok(ordered);
  }

  /** The pairs other than the canonical listing itself. */
  function LinkedPairs(pairs: seq<Pair>, key: Key): (r: seq<Pair>)
    ensures forall i :: 0 <= i < |r| ==> Identity(r[i]) != key
  {
    if pairs == [] then [] else (if Identity(pairs[0]) == key then [] else [pairs[0]]) + LinkedPairs(pairs[1..], key)
  }

  /** `linked` are the pairs of listings other than `key`: each as often as it occurs, in the same order. */
  ghost predicate AreOthers(linked: seq<Pair>, pairs: seq<Pair>, key: Key) {
    && (forall p :: multiset(linked)[p] == if Identity(p) == key then 0 else multiset(pairs)[p])
    && KeepsOrder(linked, pairs)
  }

  lemma {:induction false} LinkedPairsMean(pairs: seq<Pair>, key: Key)
    ensures AreOthers(LinkedPairs(pairs, key), pairs, key)
  {
    if pairs == [] {
    } else {
      LinkedPairsMean(pairs[1..], key);
      assert pairs == [pairs[0]] + pairs[1..];
      var rest := LinkedPairs(pairs[1..], key);
      forall p | p in rest ensures p in pairs[1..] {
        assert p in multiset(rest);
        assert p in multiset(pairs[1..]);
      }
      OneMoreKeepsOrder(pairs, rest);
    }
  }

  /** The first pair of the canonical listing. */
  method FindCanonical(pairs: seq<Pair>, key: Key) returns (canonical: Option<Pair>)
    ensures canonical.None? ==> forall k :: 0 <= k < |pairs| ==> Identity(pairs[k]) != key
    ensures canonical.Some? ==>
              exists k :: 0 <= k < |pairs| && pairs[k] == canonical.value && Identity(pairs[k]) == key
                          && forall j :: 0 <= j < k ==> Identity(pairs[j]) != key
  {
    for i := 0 to |pairs|
      invariant forall k :: 0 <= k < i ==> Identity(pairs[k]) != key
    {
      if Identity(pairs[i]) == key {
        return Some(pairs[i]);
      }
    }
    canonical := None;
  }

  /** All pairs of other listings, in the order given. */
  method CollectLinked(pairs: seq<Pair>, key: Key) returns (linked: seq<Pair>)
    ensures linked == LinkedPairs(pairs, key)
  {
    linked := [];
    var rest := pairs;
    while rest != []
      invariant LinkedPairs(pairs, key) == linked + LinkedPairs(rest, key)
    {
      if Identity(rest[0]) != key {
        linked := linked + [rest[0]];
      }
      rest := rest[1..];
    }
  }

  // ----- the order does not depend on how the pairs arrive -----

  ghost predicate KeysDistinct(linked: seq<Pair>) {
    forall i, j :: 0 <= i < j < |linked| ==> Identity(linked[i]) != Identity(linked[j])
  }

  function Typed(p: Pair, t: string): Pair {
    p.(platformType := Some(t))
  }

  lemma {:induction false} OfTypeMembers(linked: seq<Pair>, t: string, q: Pair)
    ensures q in OfType(linked, t) <==>
            exists i :: 0 <= i < |linked| && NormalizeType(linked[i].platformType) == Some(t)
                && q == Typed(linked[i], t)
  {
    if linked == [] {
    } else {
      OfTypeMembers(linked[1..], t, q);
      if q in OfType(linked[1..], t) {
        var i :| 0 <= i < |linked[1..]| && NormalizeType(linked[1..][i].platformType) == Some(t)
            && q == Typed(linked[1..][i], t);
        assert linked[i + 1] == linked[1..][i];
      }
    }
  }

  lemma {:induction false} OfTypeCount(linked: seq<Pair>, t: string, q: Pair)
    requires KeysDistinct(linked)
    ensures multiset(OfType(linked, t))[q] <= 1
  {
    if linked == [] {
    } else {
      OfTypeCount(linked[1..], t, q);
      if q == Typed(linked[0], t) {
        OfTypeMembers(linked[1..], t, q);
        assert q !in OfType(linked[1..], t);
        assert q !in multiset(OfType(linked[1..], t));
      }
    }
  }

  lemma MembersAgree(a: seq<Pair>, b: seq<Pair>, t: string, q: Pair)
    requires multiset(a) == multiset(b)
    ensures q in OfType(a, t) <==> q in OfType(b, t)
  {
    SameMultisetSameLength(a, b);
    OfTypeMembers(a, t, q);
    OfTypeMembers(b, t, q);
    if q in OfType(a, t) {
      var i :| 0 <= i < |a| && NormalizeType(a[i].platformType) == Some(t) && q == Typed(a[i], t);
      assert a[i] in b;
    }
    if q in OfType(b, t) {
      var i :| 0 <= i < |b| && NormalizeType(b[i].platformType) == Some(t) && q == Typed(b[i], t);
      assert b[i] in a;
    }
  }

  lemma OfTypePermutes(a: seq<Pair>, b: seq<Pair>, t: string)
    requires multiset(a) == multiset(b) && KeysDistinct(a) && KeysDistinct(b)
    ensures multiset(OfType(a, t)) == multiset(OfType(b, t))
  {
    var ma, mb := multiset(OfType(a, t)), multiset(OfType(b, t));
    forall q: Pair ensures ma[q] == mb[q] {
      MembersAgree(a, b, t, q);
      OfTypeCount(a, t, q);
      OfTypeCount(b, t, q);
      assert q in OfType(a, t) <==> q in ma;
      assert q in OfType(b, t) <==> q in mb;
    }
  }

  lemma SortedTypesAgree(a: seq<Pair>, b: seq<Pair>, t: string)
    requires multiset(a) == multiset(b) && KeysDistinct(a) && KeysDistinct(b)
    ensures SortBy(OfType(a, t), PairOrder) == SortBy(OfType(b, t), PairOrder)
  {
    OfTypePermutes(a, b, t);
    PairOrderIsPreorder();
    var typed := OfType(a, t);
    forall x, y | x in typed && y in typed && PairOrder(x, y) && PairOrder(y, x) ensures x == y {
      StringLeAntisymmetric(x.listing, y.listing);
      OfTypeMembers(a, t, x);
      OfTypeMembers(a, t, y);
    }
    SortForgetsOrder(typed, OfType(b, t), PairOrder);
  }

  /** With distinct listings the accepted order is the same for every permutation of the linked pairs. */
  lemma OrderForgetsArrival(canonical: Pair, a: seq<Pair>, b: seq<Pair>)
    requires multiset(a) == multiset(b) && KeysDistinct(a) && KeysDistinct(b)
    requires OrderPairs(canonical, a).Ok?
    ensures OrderPairs(canonical, b) == OrderPairs(canonical, a)
  {
    assert |a| == |b| && FirstError(b).None? by {
      NoErrorsEither(a, b);
    }
    assert |OfType(a, "dpt")| == |OfType(b, "dpt")| by {
      OfTypePermutes(a, b, "dpt");
      SameMultisetSameLength(OfType(a, "dpt"), OfType(b, "dpt"));
    }
    SortedTypesAgree(a, b, "dpt");
    SortedTypesAgree(a, b, "ota");
  }

  lemma NoErrorsEither(a: seq<Pair>, b: seq<Pair>)
    requires multiset(a) == multiset(b) && FirstError(a).None?
    ensures |a| == |b| && FirstError(b).None?
  {
    SameMultisetSameLength(a, b);
    forall i | 0 <= i < |b| ensures PairError(b[i]).None? {
      assert b[i] in a;
    }
  }
}
