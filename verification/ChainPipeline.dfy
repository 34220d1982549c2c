/** From the ordered listings through the pricing engine's plan to the chain the BSO worker accepts. */
module ChainPipeline {
  import opened Collections
  import opened Topology
  import opened ChainEntries

  datatype Rule = Rule(category: string, rule: string)

  datatype Match = Match(pair: Pair, rule: Rule, fallback: bool)

  // ----- the pricing engine's plan -----

  /** The rules that selection, run for each of `pairs`, yields out of those there are. */
  function Selected(rules: map<Key, Rule>, pairs: seq<Pair>): (r: map<Key, Rule>)
    ensures forall i :: 0 <= i < |pairs| ==> (Identity(pairs[i]) in r <==> Identity(pairs[i]) in rules)
    ensures forall k :: k in r ==> k in rules && r[k] == rules[k]
  {
    map k | k in rules && (exists i :: 0 <= i < |pairs| && Identity(pairs[i]) == k) :: rules[k]
  }

  /** The pair's own rule, or for a linked pair without one the canonical listing's rule. */
  function Chosen(rules: map<Key, Rule>, canonical: Key, p: Pair): Option<Match> {
    if Identity(p) in rules then Some(Match(p, rules[Identity(p)], false))
    else if Identity(p) != canonical && canonical in rules then Some(Match(p, rules[canonical], true))
    else None
  }

  function Matches(rules: map<Key, Rule>, canonical: Key, pairs: seq<Pair>): seq<Match> {
    if pairs == [] then [] else
      (if Chosen(rules, canonical, pairs[0]).Some? then [Chosen(rules, canonical, pairs[0]).value] else []) +
      Matches(rules, canonical, pairs[1..])
  }

  function Skipped(rules: map<Key, Rule>, canonical: Key, pairs: seq<Pair>): seq<int> {
    if pairs == [] then [] else
      (if Chosen(rules, canonical, pairs[0]).Some? then [] else [pairs[0].platformId]) +
      Skipped(rules, canonical, pairs[1..])
  }

  /** The pair's own type; an untyped canonical listing is the pms, any other untyped one an ota. */
  function DerivedType(p: Pair, canonical: Key): string {
    if NormalizeType(p.platformType).Some? then NormalizeType(p.platformType).value
    else if Identity(p) == canonical then "pms"
    else "ota"
  }

  datatype PlanItem = PlanItem(m: Match, isCanonical: bool, platformType: string,
                               chainId: string, position: int, dependsOn: Option<int>)

  function ItemAt(m: Match, canonical: Key, chainId: string, position: int): PlanItem {
    PlanItem(m, Identity(m.pair) == canonical, DerivedType(m.pair, canonical), chainId, position,
             if position == 1 then None else Some(position - 1))
  }

  /** The matched pairs numbered from one, each depending on the one before. */
  function Numbered(matched: seq<Match>, canonical: Key, chainId: string): (r: seq<PlanItem>)
    ensures |r| == |matched|
    ensures forall i :: 0 <= i < |r| ==> r[i] == ItemAt(matched[i], canonical, chainId, i + 1)
  {
    seq(|matched|, i requires 0 <= i < |matched| => ItemAt(matched[i], canonical, chainId, i + 1))
  }

  function PlanFor(rules: map<Key, Rule>, canonical: Key, pairs: seq<Pair>, chainId: string): seq<PlanItem> {
    Numbered(Matches(rules, canonical, pairs), canonical, chainId)
  }

  /** `selected` records the rule of each listing in `rules`, and of no other. */
  ghost predicate SelectionOf(selected: map<Key, Option<Rule>>, rules: map<Key, Rule>) {
    && (forall k :: k in rules ==> k in selected && selected[k] == Some(rules[k]))
    && (forall k :: k in selected && k !in rules ==> selected[k] == None)
  }

  /** Rule selection for every pair, by listing; a listing without a rule is recorded as such. */
  method SelectByPair(pairs: seq<Pair>, rules: map<Key, Rule>) returns (selected: map<Key, Option<Rule>>)
    ensures forall k :: k in selected <==> exists i :: 0 <= i < |pairs| && Identity(pairs[i]) == k
    ensures SelectionOf(selected, Selected(rules, pairs))
  {
    selected := map[];
    for i := 0 to |pairs|
      invariant forall k :: k in selected <==> exists j :: 0 <= j < i && Identity(pairs[j]) == k
      invariant forall k :: k in selected ==> selected[k] == if k in rules then Some(rules[k]) else None
    {
      var key := Identity(pairs[i]);
      selected := selected[key := if key in rules then Some(rules[key]) else None];
    }
  }

  function Lookup(selected: map<Key, Option<Rule>>, key: Key): Option<Rule> {
    if key in selected then selected[key] else None
  }

  /** The pair's own selection, else the canonical listing's. */
  method ChoosePair(canonical: Key, pair: Pair, selected: map<Key, Option<Rule>>, ghost rules: map<Key, Rule>)
    returns (m: Option<Match>)
    requires SelectionOf(selected, rules)
    ensures m == Chosen(rules, canonical, pair)
  {
    var rule, fallback := Lookup(selected, Identity(pair)), false;
    var canonicalRule := Lookup(selected, canonical);
    if rule.None? && Identity(pair) != canonical && canonicalRule.Some? {
      rule, fallback := canonicalRule, true;
    }
    m := if rule.None? then None else Some(Match(pair, rule.value, fallback));
  }

  /** The pair has a rule of its own, or is linked and the canonical listing has one. */
  ghost predicate Ruled(rules: map<Key, Rule>, canonical: Key, p: Pair) {
    (p.platformId, p.listing) in rules || ((p.platformId, p.listing) != canonical && canonical in rules)
  }

  /** How many of the first `n` pairs have a rule. */
  ghost function RuledBefore(rules: map<Key, Rule>, canonical: Key, pairs: seq<Pair>, n: nat): nat
    requires n <= |pairs|
  {
    if n == 0 then 0
    else RuledBefore(rules, canonical, pairs, n - 1) + if Ruled(rules, canonical, pairs[n - 1]) then 1 else 0
  }

  /** The pair with the rule it has, else as a fallback with the canonical listing's. */
  ghost predicate MatchOf(m: Match, p: Pair, rules: map<Key, Rule>, canonical: Key) {
    var key := (p.platformId, p.listing);
    && m.pair == p
    && (key in rules ==> m.rule == rules[key] && !m.fallback)
    && (key !in rules ==> key != canonical && canonical in rules && m.rule == rules[canonical] && m.fallback)
  }

  /** Pair `i` is matched in its turn when it has a rule, else skipped in its turn. */
  ghost predicate PairHandled(rules: map<Key, Rule>, canonical: Key, pairs: seq<Pair>,
                              matched: seq<Match>, skipped: seq<int>, i: nat)
    requires i < |pairs|
  {
    var k := RuledBefore(rules, canonical, pairs, i);
    if Ruled(rules, canonical, pairs[i]) then k < |matched| && MatchOf(matched[k], pairs[i], rules, canonical)
    else k <= i < |skipped| + k && skipped[i - k] == pairs[i].platformId
  }

  /** All of the first `n` pairs are handled, and there are no other matches or skips. */
  ghost predicate PairsHandled(rules: map<Key, Rule>, canonical: Key, pairs: seq<Pair>,
                               matched: seq<Match>, skipped: seq<int>, n: nat)
    requires n <= |pairs|
  {
    && |matched| == RuledBefore(rules, canonical, pairs, n) && |matched| + |skipped| == n
    && forall i :: 0 <= i < n ==> PairHandled(rules, canonical, pairs, matched, skipped, i)
  }

  lemma {:induction false} MatchesAppend(rules: map<Key, Rule>, canonical: Key, pairs: seq<Pair>, p: Pair)
    ensures var m := Chosen(rules, canonical, p);
            && Matches(rules, canonical, pairs + [p])
               == Matches(rules, canonical, pairs) + (if m.Some? then [m.value] else [])
            && Skipped(rules, canonical, pairs + [p])
               == Skipped(rules, canonical, pairs) + (if m.Some? then [] else [p.platformId])
  {
    if pairs == [] {
      assert Matches(rules, canonical, [p][1..]) == [] && Skipped(rules, canonical, [p][1..]) == [];
    } else {
      assert (pairs + [p])[1..] == pairs[1..] + [p];
      MatchesAppend(rules, canonical, pairs[1..], p);
    }
  }

  lemma ChosenMeans(rules: map<Key, Rule>, canonical: Key, p: Pair)
    ensures var m := Chosen(rules, canonical, p);
            && (m.Some? <==> Ruled(rules, canonical, p))
            && (m.Some? ==> MatchOf(m.value, p, rules, canonical))
  {
  }

  lemma {:induction false} PrefixHandled(rules: map<Key, Rule>, canonical: Key, pairs: seq<Pair>, n: nat)
    requires n <= |pairs|
    ensures PairsHandled(rules, canonical, pairs, Matches(rules, canonical, pairs[..n]),
                         Skipped(rules, canonical, pairs[..n]), n)
  {
    if n == 0 {
    } else {
      PrefixHandled(rules, canonical, pairs, n - 1);
      assert pairs[..n] == pairs[..n - 1] + [pairs[n - 1]];
      MatchesAppend(rules, canonical, pairs[..n - 1], pairs[n - 1]);
      ChosenMeans(rules, canonical, pairs[n - 1]);
      var m := Chosen(rules, canonical, pairs[n - 1]);
      var matched, skipped := Matches(rules, canonical, pairs[..n - 1]), Skipped(rules, canonical, pairs[..n - 1]);
      OneMoreHandled(rules, canonical, pairs, matched, skipped, n - 1);
      assert m.Some? ==> skipped + [] == skipped;
      assert m.None? ==> matched + [] == matched;
    }
  }

  lemma OneMoreHandled(rules: map<Key, Rule>, canonical: Key, pairs: seq<Pair>,
                       matched: seq<Match>, skipped: seq<int>, n: nat)
    requires n < |pairs| && PairsHandled(rules, canonical, pairs, matched, skipped, n)
    ensures Chosen(rules, canonical, pairs[n]).Some? ==>
              var m := Chosen(rules, canonical, pairs[n]).value;
              PairsHandled(rules, canonical, pairs, matched + [m], skipped, n + 1)
    ensures Chosen(rules, canonical, pairs[n]).None? ==>
              PairsHandled(rules, canonical, pairs, matched, skipped + [pairs[n].platformId], n + 1)
  {
    var m := Chosen(rules, canonical, pairs[n]);
    var matched' := if m.Some? then matched + [m.value] else matched;
    var skipped' := if m.Some? then skipped else skipped + [pairs[n].platformId];
    ChosenMeans(rules, canonical, pairs[n]);
    forall i | 0 <= i < n + 1 ensures PairHandled(rules, canonical, pairs, matched', skipped', i) {
      if i < n {
        assert PairHandled(rules, canonical, pairs, matched, skipped, i);
      }
    }
  }

  lemma MatchesMean(rules: map<Key, Rule>, canonical: Key, pairs: seq<Pair>)
    ensures PairsHandled(rules, canonical, pairs, Matches(rules, canonical, pairs),
                         Skipped(rules, canonical, pairs), |pairs|)
  {
    PrefixHandled(rules, canonical, pairs, |pairs|);
    assert pairs[..|pairs|] == pairs;
  }

  lemma MatchesNext(rules: map<Key, Rule>, canonical: Key, rest: seq<Pair>, matched: seq<Match>)
    requires rest != []
    ensures var m := Chosen(rules, canonical, rest[0]);
            matched + Matches(rules, canonical, rest)
            == (if m.Some? then matched + [m.value] else matched) + Matches(rules, canonical, rest[1..])
  {
    var m, later := Chosen(rules, canonical, rest[0]), Matches(rules, canonical, rest[1..]);
    if m.Some? {
      assert Matches(rules, canonical, rest) == [m.value] + later;
    } else {
      assert Matches(rules, canonical, rest) == later;
    }
  }

  lemma SkippedNext(rules: map<Key, Rule>, canonical: Key, rest: seq<Pair>, skipped: seq<int>)
    requires rest != []
    ensures skipped + Skipped(rules, canonical, rest)
            == (if Chosen(rules, canonical, rest[0]).Some? then skipped else skipped + [rest[0].platformId])
               + Skipped(rules, canonical, rest[1..])
  {
    var later := Skipped(rules, canonical, rest[1..]);
    if Chosen(rules, canonical, rest[0]).Some? {
      assert Skipped(rules, canonical, rest) == later;
    } else {
      assert Skipped(rules, canonical, rest) == [rest[0].platformId] + later;
      AppendOne(skipped, rest[0].platformId, later);
    }
  }

  method MatchPairs(canonical: Key, pairs: seq<Pair>, selected: map<Key, Option<Rule>>, ghost rules: map<Key, Rule>)
    returns (matched: seq<Match>, skipped: seq<int>)
    requires SelectionOf(selected, rules)
    ensures matched == Matches(rules, canonical, pairs) && skipped == Skipped(rules, canonical, pairs)
    ensures PairsHandled(rules, canonical, pairs, matched, skipped, |pairs|)
  {
    matched, skipped := [], [];
    var rest := pairs;
    while rest != []
      invariant Matches(rules, canonical, pairs) == matched + Matches(rules, canonical, rest)
      invariant Skipped(rules, canonical, pairs) == skipped + Skipped(rules, canonical, rest)
    {
      var pair := rest[0];
      var m := ChoosePair(canonical, pair, selected, rules);
      MatchesNext(rules, canonical, rest, matched);
      SkippedNext(rules, canonical, rest, skipped);
      if m.None? {
        skipped := skipped + [pair.platformId];
      } else {
        matched := matched + [m.value];
      }
      rest := rest[1..];
    }
    MatchesMean(rules, canonical, pairs);
  }

  /** The rules there are; the canonical listing's only if it is among the pairs, for no other is looked up. */
  ghost function Available(rules: map<Key, Rule>, canonical: Key, pairs: seq<Pair>): map<Key, Rule> {
    if exists i :: 0 <= i < |pairs| && (pairs[i].platformId, pairs[i].listing) == canonical then rules
    else rules - {canonical}
  }

  ghost function Planned(plan: seq<PlanItem>): (r: seq<Match>)
    ensures |r| == |plan| && forall i :: 0 <= i < |r| ==> r[i] == plan[i].m
  {
    seq(|plan|, i requires 0 <= i < |plan| => plan[i].m)
  }

  /** Item `k` stands at position `k + 1`, waits for the one before, and says which listing it is for. */
  ghost predicate InPlace(item: PlanItem, k: nat, canonical: Key, chainId: string) {
    var p := item.m.pair;
    && item.position == k + 1
    && item.dependsOn == (if k == 0 then None else Some(k))
    && item.chainId == chainId
    && (item.isCanonical <==> (p.platformId, p.listing) == canonical)
    && (NormalizeType(p.platformType).Some? ==> NormalizeType(p.platformType) == Some(item.platformType))
    && (NormalizeType(p.platformType).None? ==> item.platformType == if item.isCanonical then "pms" else "ota")
  }

  lemma RulesAgree(rules: map<Key, Rule>, canonical: Key, pairs: seq<Pair>, i: nat)
    requires i < |pairs|
    ensures var a, b := Selected(rules, pairs), Available(rules, canonical, pairs);
            var key := Identity(pairs[i]);
            && (key in a <==> key in b) && (canonical in a <==> canonical in b)
            && (key in a ==> a[key] == b[key]) && (canonical in a ==> a[canonical] == b[canonical])
  {
    assert Identity(pairs[i]) == Identity(pairs[i]);
  }

  lemma {:induction false} CountsAgree(rules: map<Key, Rule>, canonical: Key, pairs: seq<Pair>, n: nat)
    requires n <= |pairs|
    ensures RuledBefore(Selected(rules, pairs), canonical, pairs, n)
            == RuledBefore(Available(rules, canonical, pairs), canonical, pairs, n)
  {
    if n == 0 {
    } else {
      CountsAgree(rules, canonical, pairs, n - 1);
      RulesAgree(rules, canonical, pairs, n - 1);
    }
  }

  lemma SelectedIsAvailable(rules: map<Key, Rule>, canonical: Key, pairs: seq<Pair>,
                            matched: seq<Match>, skipped: seq<int>)
    requires PairsHandled(Selected(rules, pairs), canonical, pairs, matched, skipped, |pairs|)
    ensures PairsHandled(Available(rules, canonical, pairs), canonical, pairs, matched, skipped, |pairs|)
  {
    var a, b := Selected(rules, pairs), Available(rules, canonical, pairs);
    CountsAgree(rules, canonical, pairs, |pairs|);
    forall i | 0 <= i < |pairs| ensures PairHandled(b, canonical, pairs, matched, skipped, i) {
      assert PairHandled(a, canonical, pairs, matched, skipped, i);
      CountsAgree(rules, canonical, pairs, i);
      RulesAgree(rules, canonical, pairs, i);
    }
  }

  /** `dispatch_plan_written`; `rules` is what rule selection yields for each listing that has a rule. */
  method BuildDispatchPlan(canonical: Key, pairs: seq<Pair>, rules: map<Key, Rule>, chainId: string)
    returns (plan: seq<PlanItem>, skipped: seq<int>)
    ensures plan == PlanFor(Selected(rules, pairs), canonical, pairs, chainId)
    ensures skipped == Skipped(Selected(rules, pairs), canonical, pairs)
    ensures PairsHandled(Available(rules, canonical, pairs), canonical, pairs, Planned(plan), skipped, |pairs|)
    ensures forall k :: 0 <= k < |plan| ==> InPlace(plan[k], k, canonical, chainId)
  {
    var selected := SelectByPair(pairs, rules);
    var matched;
    matched, skipped := MatchPairs(canonical, pairs, selected, Selected(rules, pairs));
    plan := NumberMatches(matched, canonical, chainId);
    assert Planned(plan) == matched;
    SelectedIsAvailable(rules, canonical, pairs, matched, skipped);
  }

  method NumberMatches(matched: seq<Match>, canonical: Key, chainId: string) returns (plan: seq<PlanItem>)
    ensures plan == Numbered(matched, canonical, chainId)
  {
    plan := [];
    for i := 0 to |matched|
      invariant |plan| == i
      invariant forall k :: 0 <= k < i ==> plan[k] == ItemAt(matched[k], canonical, chainId, k + 1)
    {
      plan := plan + [ItemAt(matched[i], canonical, chainId, i + 1)];
    }
  }

  // ----- what is forwarded -----

  /** An entry as the BSO worker receives it. */
  datatype RawEntry =
    | NotAnObject
    | RawEntry(
        pair: Option<RawPair>, rule: Option<string>, chainId: Option<string>, position: Reading<int>,
        platformType: Option<string>, dependsOn: Reading<int>)

  datatype RawPair = RawPair(platformId: Reading<int>, listingId: Option<string>, propertyId: Option<string>)

  /** The text without surrounding blanks, if anything is left of it. */
  function OptionalText(raw: Option<string>): Option<string> {
    if raw.None? || TrimRight(TrimLeft(raw.value)) == "" then None else Some(TrimRight(TrimLeft(raw.value)))
  }

  function ForwardItem(item: PlanItem, index: nat, fallbackChainId: string): RawEntry {
    var position := if item.position == 0 then index else item.position;
    var dependsOn := if position > 1 && item.dependsOn.None? then Some(position - 1) else item.dependsOn;
    var platformType := NormalizeType(Some(item.platformType));
    var chainId := OptionalText(Some(item.chainId));
    RawEntry(
      Some(RawPair(Read(item.m.pair.platformId), Some(item.m.pair.listing), None)),
      Some(item.m.rule.rule),
      Some(if chainId.Some? then chainId.value else fallbackChainId),
      Read(position),
      Some(if platformType.Some? then platformType.value else if item.isCanonical then "pms" else "ota"),
      if dependsOn.Some? then Read(dependsOn.value) else Missing)
  }

  predicate HasCategory(item: PlanItem) {
    OptionalText(Some(item.m.rule.category)).Some?
  }

  function Forwarder(fallbackChainId: string): (PlanItem, nat) -> RawEntry {
    (item: PlanItem, index: nat) => ForwardItem(item, index, fallbackChainId)
  }

  /** The items with a category, each completed; items are counted from one, the dropped ones included. */
  function Forwarded(plan: seq<PlanItem>, fallbackChainId: string): seq<RawEntry> {
    KeepMap(plan, |plan|, HasCategory, Forwarder(fallbackChainId))
  }

  /** What is left of the text without the white space at its ends; absent if nothing is. */
  lemma TextMeans(s: string) returns (i: nat, j: nat)
    ensures Trims(s, i, j) && OptionalText(Some(s)) == if i == j then None else Some(s[i..j])
  {
    i, j := TrimMeans(s);
  }

  /** Entry `e` is the `index`-th item with whatever it lacks filled in. */
  ghost predicate Completes(e: RawEntry, item: PlanItem, index: nat, fallbackChainId: string) {
    && e.RawEntry?
    && e.pair == Some(RawPair(Read(item.m.pair.platformId), Some(item.m.pair.listing), None))
    && e.rule == Some(item.m.rule.rule)
    && (OptionalText(Some(item.chainId)).Some? ==> e.chainId == OptionalText(Some(item.chainId)))
    && (OptionalText(Some(item.chainId)).None? ==> e.chainId == Some(fallbackChainId))
    && e.position == Read(if item.position != 0 then item.position else index)
    && (item.dependsOn.Some? ==> e.dependsOn == Read(item.dependsOn.value))
    && (item.dependsOn.None? && e.position.value > 1 ==> e.dependsOn == Read(e.position.value - 1))
    && (item.dependsOn.None? && e.position.value <= 1 ==> e.dependsOn == Missing)
    && (NormalizeType(Some(item.platformType)).Some? ==> e.platformType == NormalizeType(Some(item.platformType)))
    && (NormalizeType(Some(item.platformType)).None? ==>
          e.platformType == Some(if item.isCanonical then "pms" else "ota"))
  }

  /** The entries are the items with a category, in order, completed. */
  ghost predicate AllCompleted(entries: seq<RawEntry>, plan: seq<PlanItem>, fallbackChainId: string) {
    && |entries| == CountKept(plan, |plan|, HasCategory)
    && forall i {:trigger plan[i]} :: 0 <= i < |plan| && OptionalText(Some(plan[i].m.rule.category)).Some? ==>
         var k := CountKept(plan, i, HasCategory);
         k < |entries| && Completes(entries[k], plan[i], i + 1, fallbackChainId)
  }

  lemma ForwardedMeans(plan: seq<PlanItem>, fallbackChainId: string)
    ensures AllCompleted(Forwarded(plan, fallbackChainId), plan, fallbackChainId)
  {
    KeepMapMeans(plan, |plan|, HasCategory, Forwarder(fallbackChainId));
    forall i | 0 <= i < |plan|
      ensures Completes(ForwardItem(plan[i], i + 1, fallbackChainId), plan[i], i + 1, fallbackChainId)
    {
    }
  }

  method ForwardListings(plan: seq<PlanItem>, fallbackChainId: string) returns (entries: seq<RawEntry>)
    ensures entries == Forwarded(plan, fallbackChainId)
    ensures AllCompleted(entries, plan, fallbackChainId)
  {
    ForwardedMeans(plan, fallbackChainId);
    entries := [];
    for index := 0 to |plan|
      invariant entries == KeepMap(plan, index, HasCategory, Forwarder(fallbackChainId))
    {
      if HasCategory(plan[index]) {
        entries := entries + [ForwardItem(plan[index], index + 1, fallbackChainId)];
      }
    }
  }

  // ----- what the BSO worker makes of it -----

  datatype EntryProblem =
    | EntryNotAnObject | NoPair | NoPlatformId | NoListing | NoRule
    | NoChainId | NoPosition | UnknownType | BadDependency

  datatype Rejection = BadEntry(index: nat, problem: EntryProblem) | BadChain(error: ChainError)

  function ListingOf(pair: RawPair): Option<string> {
    if OptionalText(pair.listingId).Some? then OptionalText(pair.listingId) else OptionalText(pair.propertyId)
  }

  function Problem(e: RawEntry): Option<EntryProblem> {
    if e.NotAnObject? then Some(EntryNotAnObject)
    else if e.pair.None? then Some(NoPair)
    else if !e.pair.value.platformId.Read? then Some(NoPlatformId)
    else if ListingOf(e.pair.value).None? then Some(NoListing)
    else if e.rule.None? then Some(NoRule)
    else if OptionalText(e.chainId).None? then Some(NoChainId)
    else if !e.position.Read? || e.position.value < 1 then Some(NoPosition)
    else if NormalizeType(e.platformType) !in {Some("dpt"), Some("pms"), Some("ota")} then Some(UnknownType)
    else if e.dependsOn.Malformed? || (e.dependsOn.Read? && e.dependsOn.value < 1) then Some(BadDependency)
    else None
  }

  function NormalizeEntry(e: RawEntry): Entry
    requires Problem(e).None?
  {
    Entry(e.pair.value.platformId.value, ListingOf(e.pair.value).value, OptionalText(e.chainId).value,
          e.position.value, NormalizeType(e.platformType).value,
          if e.dependsOn.Read? then Some(e.dependsOn.value) else None, e.rule.value)
  }

  function NormalizeEntries(entries: seq<RawEntry>): (r: seq<Entry>)
    requires forall i :: 0 <= i < |entries| ==> Problem(entries[i]).None?
    ensures |r| == |entries|
    ensures forall i :: 0 <= i < |r| ==> r[i] == NormalizeEntry(entries[i])
  {
    seq(|entries|, i requires 0 <= i < |entries| => NormalizeEntry(entries[i]))
  }

  function FirstProblem(entries: seq<RawEntry>, from: nat): (r: nat)
    requires from <= |entries|
    ensures from <= r <= |entries|
    ensures r < |entries| ==> Problem(entries[r]).Some?
    ensures forall i :: from <= i < r ==> Problem(entries[i]).None?
    decreases |entries| - from
  {
    if from == |entries| || Problem(entries[from]).Some? then from else FirstProblem(entries, from + 1)
  }

  function Receive(entries: seq<RawEntry>): Result<seq<Entry>, Rejection> {
    var bad := FirstProblem(entries, 0);
    if bad < |entries| then Err(BadEntry(bad, Problem(entries[bad]).value))
    else
      match Validate(NormalizeEntries(entries))
      case Ok(chain) => Ok(chain)
      case Err(error) => Err(BadChain(error))
  }

  /** An object with a pair, listing, rule, chain id, position and type the worker can use, and no bad dependency. */
  ghost predicate Usable(e: RawEntry) {
    && e.RawEntry? && e.pair.Some? && e.pair.value.platformId.Read?
    && (OptionalText(e.pair.value.listingId).Some? || OptionalText(e.pair.value.propertyId).Some?)
    && e.rule.Some? && OptionalText(e.chainId).Some?
    && e.position.Read? && e.position.value >= 1
    && NormalizeType(e.platformType) in {Some("dpt"), Some("pms"), Some("ota")}
    && (e.dependsOn.Missing? || (e.dependsOn.Read? && e.dependsOn.value >= 1))
  }

  /** `c` holds what `e` says, the listing id before the older property id, texts trimmed. */
  ghost predicate Says(e: RawEntry, c: Entry) {
    && Usable(e)
    && Some(c.listing) == (if OptionalText(e.pair.value.listingId).Some? then OptionalText(e.pair.value.listingId)
                           else OptionalText(e.pair.value.propertyId))
    && e.pair.value.platformId == Read(c.platformId)
    && e.rule == Some(c.rule) && OptionalText(e.chainId) == Some(c.chainId)
    && e.position == Read(c.position) && NormalizeType(e.platformType) == Some(c.platformType)
    && e.dependsOn == match c.dependsOn case None => Missing case Some(d) => Read(d)
  }

  lemma EntryMeans(e: RawEntry, c: Entry)
    ensures Problem(e).None? <==> Usable(e)
    ensures ReadsAs(e, c) <==> Says(e, c)
  {
  }

  /** The first entry that is no use is reported; if there is none the validator decides on what the entries say. */
  lemma ReceiveMeans(entries: seq<RawEntry>, chain: seq<Entry>)
    ensures forall i: nat, problem :: Receive(entries) == Err(BadEntry(i, problem)) ==>
                                   i < |entries| && !Usable(entries[i]) && forall k :: 0 <= k < i ==> Usable(entries[k])
    ensures |chain| == |entries| && (forall i :: 0 <= i < |entries| ==> Says(entries[i], chain[i])) ==>
              Receive(entries) ==
              match Validate(chain) case Ok(ordered) => Ok(ordered) case Err(error) => Err(BadChain(error))
  {
    forall k | 0 <= k < |entries| ensures Problem(entries[k]).None? <==> Usable(entries[k]) {
      EntryMeans(entries[k], Entry(0, "", "", 0, "", None, ""));
    }
    if |chain| == |entries| && forall i :: 0 <= i < |entries| ==> Says(entries[i], chain[i]) {
      forall i | 0 <= i < |chain| ensures ReadsAs(entries[i], chain[i]) {
        EntryMeans(entries[i], chain[i]);
      }
      EntriesAreRead(entries, chain);
    }
  }

  lemma FirstProblemIs(entries: seq<RawEntry>, i: nat)
    requires i < |entries| && Problem(entries[i]).Some? && forall k :: 0 <= k < i ==> Problem(entries[k]).None?
    ensures Receive(entries) == Err(BadEntry(i, Problem(entries[i]).value))
  {
  }

  /** The worker reads `c` from `e`. */
  ghost predicate ReadsAs(e: RawEntry, c: Entry) {
    Problem(e).None? && NormalizeEntry(e) == c
  }

  ghost predicate AllRead(entries: seq<RawEntry>, chain: seq<Entry>) {
    && |chain| <= |entries|
    && forall i {:trigger ReadsAs(entries[i], chain[i])} :: 0 <= i < |chain| ==> ReadsAs(entries[i], chain[i])
  }

  lemma EntriesAreRead(entries: seq<RawEntry>, chain: seq<Entry>)
    requires |entries| == |chain| && AllRead(entries, chain)
    ensures Receive(entries) ==
            match Validate(chain) case Ok(ordered) => Ok(ordered) case Err(error) => Err(BadChain(error))
  {
    forall i | 0 <= i < |entries| ensures Problem(entries[i]).None? && NormalizeEntry(entries[i]) == chain[i] {
      assert ReadsAs(entries[i], chain[i]);
    }
    assert NormalizeEntries(entries) == chain;
  }

  lemma OneMoreRead(entries: seq<RawEntry>, chain: seq<Entry>, c: Entry)
    requires |chain| < |entries| && AllRead(entries, chain) && ReadsAs(entries[|chain|], c)
    ensures AllRead(entries, chain + [c])
  {
    forall i | 0 <= i < |chain| + 1 ensures ReadsAs(entries[i], (chain + [c])[i]) {
      assert i < |chain| ==> ReadsAs(entries[i], chain[i]);
    }
  }

  method NormalizeLinkedListings(entries: seq<RawEntry>) returns (r: Result<seq<Entry>, Rejection>)
    ensures r == Receive(entries)
  {
    var normalized: seq<Entry> := [];
    for i := 0 to |entries|
      invariant |normalized| == i && AllRead(entries, normalized)
    {
      var problem := Problem(entries[i]);
      if problem.Some? {
        forall k | 0 <= k < i ensures Problem(entries[k]).None? {
          assert ReadsAs(entries[k], normalized[k]);
        }
        FirstProblemIs(entries, i);
        return Err(BadEntry(i, problem.value));
      }
      OneMoreRead(entries, normalized, NormalizeEntry(entries[i]));
      normalized := normalized + [NormalizeEntry(entries[i])];
    }
    EntriesAreRead(entries, normalized);
    var chain := ValidateAndOrder(normalized);
    match chain
    case Ok(ordered) => r := Ok(ordered);
    case Err(error) => r := Err(BadChain(error));
  }

  // ----- the composition -----

  /** The listings the ordering step hands on: `dpt? pms ota*`, only the pms being the canonical listing. */
  ghost predicate OrderedListings(pairs: seq<Pair>, canonical: Key, k: nat) {
    && k <= 1 && k < |pairs|
    && pairs[k].platformType == Some("pms") && Identity(pairs[k]) == canonical
    && (k == 1 ==> pairs[0].platformType == Some("dpt") && Identity(pairs[0]) != canonical)
    && forall i :: k < i < |pairs| ==> pairs[i].platformType == Some("ota") && Identity(pairs[i]) != canonical
  }

  lemma {:induction false} OfTypeIsLinked(linked: seq<Pair>, t: string, canonical: Key)
    requires forall i :: 0 <= i < |linked| ==> Identity(linked[i]) != canonical
    ensures forall q :: q in OfType(linked, t) ==> q.platformType == Some(t) && Identity(q) != canonical
  {
    if linked == [] {
    } else {
      OfTypeIsLinked(linked[1..], t, canonical);
    }
  }

  lemma SortedTypeIsLinked(linked: seq<Pair>, t: string, canonical: Key)
    requires forall i :: 0 <= i < |linked| ==> Identity(linked[i]) != canonical
    ensures var s := SortBy(OfType(linked, t), PairOrder);
            |s| == |OfType(linked, t)| && forall i :: 0 <= i < |s| ==>
                s[i].platformType == Some(t) && Identity(s[i]) != canonical
  {
    OfTypeIsLinked(linked, t, canonical);
    var s := SortBy(OfType(linked, t), PairOrder);
    forall i | 0 <= i < |s| ensures s[i].platformType == Some(t) && Identity(s[i]) != canonical {
      assert s[i] in s;
    }
  }

  lemma ListingsInOrder(dpt: seq<Pair>, pms: Pair, ota: seq<Pair>, canonical: Key)
    requires |dpt| <= 1 && pms.platformType == Some("pms") && Identity(pms) == canonical
    requires forall i :: 0 <= i < |dpt| ==> dpt[i].platformType == Some("dpt") && Identity(dpt[i]) != canonical
    requires forall i :: 0 <= i < |ota| ==> ota[i].platformType == Some("ota") && Identity(ota[i]) != canonical
    ensures OrderedListings(dpt + [pms] + ota, canonical, |dpt|)
  {
  }

  lemma OrderedShape(canonical: Pair, linked: seq<Pair>)
    requires OrderPairs(canonical, linked).Ok?
    ensures |OfType(linked, "dpt")| <= 1
    ensures OrderPairs(canonical, linked).value ==
            SortBy(OfType(linked, "dpt"), PairOrder) + [canonical.(platformType := Some("pms"))]
            + SortBy(OfType(linked, "ota"), PairOrder)
  {
  }

  lemma OrderingYieldsListings(canonical: Pair, linked: seq<Pair>)
    requires OrderPairs(canonical, linked).Ok?
    requires forall i :: 0 <= i < |linked| ==> Identity(linked[i]) != Identity(canonical)
    ensures OrderedListings(OrderPairs(canonical, linked).value, Identity(canonical), |OfType(linked, "dpt")|)
  {
    OrderedShape(canonical, linked);
    var dpt, ota := SortBy(OfType(linked, "dpt"), PairOrder), SortBy(OfType(linked, "ota"), PairOrder);
    SortedTypeIsLinked(linked, "dpt", Identity(canonical));
    SortedTypeIsLinked(linked, "ota", Identity(canonical));
    ListingsInOrder(dpt, canonical.(platformType := Some("pms")), ota, Identity(canonical));
  }

  lemma {:induction false} EveryPairMatches(rules: map<Key, Rule>, canonical: Key, pairs: seq<Pair>)
    requires canonical in rules
    ensures |Matches(rules, canonical, pairs)| == |pairs| && Skipped(rules, canonical, pairs) == []
    ensures forall i :: 0 <= i < |pairs| ==> Matches(rules, canonical, pairs)[i].pair == pairs[i]
  {
    if pairs == [] {
    } else {
      EveryPairMatches(rules, canonical, pairs[1..]);
    }
  }

  lemma {:induction false} MatchesHaveRules(rules: map<Key, Rule>, canonical: Key, pairs: seq<Pair>)
    ensures forall m :: m in Matches(rules, canonical, pairs) ==>
                          m.pair in pairs && exists k :: k in rules && m.rule == rules[k]
    ensures canonical !in rules ==>
              forall m :: m in Matches(rules, canonical, pairs) ==> Identity(m.pair) != canonical
  {
    if pairs == [] {
    } else {
      MatchesHaveRules(rules, canonical, pairs[1..]);
    }
  }

  /** Text that carries something and no surrounding blanks, as every identifier read upstream is. */
  predicate Tidy(s: string) {
    OptionalText(Some(s)) == Some(s)
  }

  ghost predicate NamesCategories(rules: map<Key, Rule>) {
    forall k :: k in rules ==> OptionalText(Some(rules[k].category)).Some?
  }

  /** The plan as the entries the BSO worker is meant to read from it. */
  function ChainOf(plan: seq<PlanItem>): (r: seq<Entry>)
    ensures |r| == |plan|
    ensures forall i :: 0 <= i < |r| ==> r[i] == EntryOf(plan[i])
  {
    seq(|plan|, i requires 0 <= i < |plan| => EntryOf(plan[i]))
  }

  function EntryOf(item: PlanItem): Entry {
    Entry(item.m.pair.platformId, item.m.pair.listing, item.chainId, item.position, item.platformType,
          item.dependsOn, item.m.rule.rule)
  }

  /** An item that forwarding and reading leave as it is. */
  ghost predicate Plain(item: PlanItem, position: nat) {
    && HasCategory(item)
    && Tidy(item.chainId) && Tidy(item.m.pair.listing)
    && item.platformType in {"dpt", "pms", "ota"}
    && item.position == position
    && item.dependsOn == if position == 1 then None else Some(position - 1)
  }

  lemma PlainItemIsRead(item: PlanItem, index: nat, fallbackChainId: string)
    requires index > 0 && Plain(item, index)
    ensures HasCategory(item) && ReadsAs(ForwardItem(item, index, fallbackChainId), EntryOf(item))
  {
    KnownTypesAreNormal(item.platformType);
  }

  ghost predicate PlainPlan(plan: seq<PlanItem>) {
    forall i {:trigger Plain(plan[i], i + 1)} :: 0 <= i < |plan| ==> Plain(plan[i], i + 1)
  }

  lemma PlainEntryIsRead(plan: seq<PlanItem>, i: nat, fallbackChainId: string)
    requires PlainPlan(plan) && i < |plan|
    ensures HasCategory(plan[i]) && ReadsAs(Forwarder(fallbackChainId)(plan[i], i + 1), ChainOf(plan)[i])
  {
    assert Plain(plan[i], i + 1);
    PlainItemIsRead(plan[i], i + 1, fallbackChainId);
  }

  /** Forwarding and reading a plain plan is the identity on its chain. */
  lemma PlainPlanIsRead(plan: seq<PlanItem>, fallbackChainId: string)
    requires PlainPlan(plan)
    ensures |Forwarded(plan, fallbackChainId)| == |plan| && AllRead(Forwarded(plan, fallbackChainId), ChainOf(plan))
  {
    var entries, chain, f := Forwarded(plan, fallbackChainId), ChainOf(plan), Forwarder(fallbackChainId);
    forall i | 0 <= i < |plan| ensures HasCategory(plan[i]) && ReadsAs(f(plan[i], i + 1), chain[i]) {
      PlainEntryIsRead(plan, i, fallbackChainId);
    }
    KeepMapAll(plan, |plan|, HasCategory, f);
    forall i | 0 <= i < |plan| ensures ReadsAs(entries[i], chain[i]) {
      assert entries[i] == f(plan[i], i + 1);
    }
  }

  lemma PairsAreTyped(pairs: seq<Pair>, canonical: Key, k: nat, i: nat)
    requires OrderedListings(pairs, canonical, k) && i < |pairs|
    ensures DerivedType(pairs[i], canonical) == if i < k then "dpt" else if i == k then "pms" else "ota"
  {
    KnownTypesAreNormal("dpt");
    KnownTypesAreNormal("pms");
    KnownTypesAreNormal("ota");
  }

  ghost predicate TidyListings(pairs: seq<Pair>) {
    forall p :: p in pairs ==> Tidy(p.listing)
  }

  /** Every item of the pricing engine's own plan is plain: forwarding has nothing to fill in or drop. */
  lemma PlanIsPlain(canonical: Key, pairs: seq<Pair>, k: nat, rules: map<Key, Rule>, chainId: string)
    requires OrderedListings(pairs, canonical, k) && TidyListings(pairs) && Tidy(chainId) && NamesCategories(rules)
    ensures PlainPlan(PlanFor(rules, canonical, pairs, chainId))
  {
    var matched := Matches(rules, canonical, pairs);
    MatchesHaveRules(rules, canonical, pairs);
    forall i | 0 <= i < |matched| ensures Plain(ItemAt(matched[i], canonical, chainId, i + 1), i + 1) {
      assert matched[i] in matched;
      var j: nat :| j < |pairs| && pairs[j] == matched[i].pair;
      PairsAreTyped(pairs, canonical, k, j);
    }
  }

  /** With a canonical rule the chain is proper and covers all listings, dependencies stated. */
  lemma ChainWithCanonicalRule(canonical: Key, pairs: seq<Pair>, k: nat, rules: map<Key, Rule>, chainId: string)
    requires OrderedListings(pairs, canonical, k) && canonical in rules
    ensures var chain := ChainOf(PlanFor(rules, canonical, pairs, chainId));
            Proper(chain) && WithDependencies(chain) == chain && |chain| == |pairs|
  {
    var chain := ChainOf(PlanFor(rules, canonical, pairs, chainId));
    EveryPairMatches(rules, canonical, pairs);
    forall i | 0 <= i < |chain|
      ensures chain[i].platformType == if i < k then "dpt" else if i == k then "pms" else "ota"
    {
      assert Matches(rules, canonical, pairs)[i].pair == pairs[i];
      PairsAreTyped(pairs, canonical, k, i);
    }
    assert PmsAt(chain, k);
  }

  lemma ChainWithoutCanonicalRule(canonical: Key, pairs: seq<Pair>, k: nat, rules: map<Key, Rule>, chainId: string)
    requires OrderedListings(pairs, canonical, k) && canonical !in rules
    ensures var plan := PlanFor(rules, canonical, pairs, chainId);
            forall i :: 0 <= i < |plan| ==> plan[i].platformType != "pms"
  {
    var matched := Matches(rules, canonical, pairs);
    MatchesHaveRules(rules, canonical, pairs);
    forall i | 0 <= i < |matched| ensures DerivedType(matched[i].pair, canonical) != "pms" {
      assert matched[i] in matched;
      var j: nat :| j < |pairs| && pairs[j] == matched[i].pair;
      PairsAreTyped(pairs, canonical, k, j);
    }
  }

  lemma NoPmsIsRejected(chain: seq<Entry>)
    requires forall i :: 0 <= i < |chain| ==> chain[i].platformType != "pms"
    ensures Validate(chain).Err?
  {
    var ordered := SortBy(chain, PositionOrder);
    forall i | 0 <= i < |ordered| ensures ordered[i].platformType != "pms" {
      assert ordered[i] in chain;
    }
    NoPms(ordered);
  }

  lemma ProperIsAccepted(chain: seq<Entry>)
    requires Proper(chain) && WithDependencies(chain) == chain
    ensures Validate(chain) == Ok(chain)
  {
    ContiguousIsSorted(chain, chain);
    OrderedCheckIsExact(chain);
  }

  /** What the BSO worker answers to the plan for ordered listings. */
  lemma OrderedListingsAreAnswered(
    canonical: Key, pairs: seq<Pair>, k: nat, rules: map<Key, Rule>, chainId: string, fallbackChainId: string)
    requires OrderedListings(pairs, canonical, k) && TidyListings(pairs) && Tidy(chainId) && NamesCategories(rules)
    ensures var plan := PlanFor(rules, canonical, pairs, chainId);
            var answer := Receive(Forwarded(plan, fallbackChainId));
            if canonical in rules then answer == Ok(ChainOf(plan)) else answer.Err?
  {
    var plan := PlanFor(rules, canonical, pairs, chainId);
    PlanIsPlain(canonical, pairs, k, rules, chainId);
    PlainPlanIsRead(plan, fallbackChainId);
    EntriesAreRead(Forwarded(plan, fallbackChainId), ChainOf(plan));
    if canonical in rules {
      ChainWithCanonicalRule(canonical, pairs, k, rules, chainId);
      ProperIsAccepted(ChainOf(plan));
    } else {
      ChainWithoutCanonicalRule(canonical, pairs, k, rules, chainId);
      NoPmsIsRejected(ChainOf(plan));
    }
  }

  lemma {:induction false} OfTypeIsTidy(linked: seq<Pair>, t: string)
    requires TidyListings(linked)
    ensures TidyListings(OfType(linked, t))
  {
    if linked == [] {
    } else {
      OfTypeIsTidy(linked[1..], t);
    }
  }

  lemma OrderedListingsAreTidy(canonical: Pair, linked: seq<Pair>)
    requires OrderPairs(canonical, linked).Ok? && Tidy(canonical.listing) && TidyListings(linked)
    ensures TidyListings(OrderPairs(canonical, linked).value)
  {
    OfTypeIsTidy(linked, "dpt");
    OfTypeIsTidy(linked, "ota");
    OrderedShape(canonical, linked);
    var dpt, ota := SortBy(OfType(linked, "dpt"), PairOrder), SortBy(OfType(linked, "ota"), PairOrder);
    var pms := canonical.(platformType := Some("pms"));
    forall p | p in dpt + [pms] + ota ensures Tidy(p.listing) {
      assert p in dpt || p == pms || p in ota;
    }
  }

  /**
   For every topology the ordering step accepts, the chain the pricing engine plans and forwards is
   accepted, unchanged, exactly when the canonical listing has a rule; then no listing is skipped.
   */
  lemma PipelineAcceptance(
    canonical: Pair, linked: seq<Pair>, rules: map<Key, Rule>, chainId: string, fallbackChainId: string)
    requires OrderPairs(canonical, linked).Ok?
    requires forall i :: 0 <= i < |linked| ==> Identity(linked[i]) != Identity(canonical)
    requires Tidy(chainId) && Tidy(canonical.listing) && TidyListings(linked) && NamesCategories(rules)
    ensures var key, pairs := Identity(canonical), OrderPairs(canonical, linked).value;
            var plan := PlanFor(Selected(rules, pairs), key, pairs, chainId);
            var answer := Receive(Forwarded(plan, fallbackChainId));
            && (answer.Ok? <==> key in rules)
            && (key in rules ==>
                  answer == Ok(ChainOf(plan)) && |plan| == |pairs| && Skipped(Selected(rules, pairs), key, pairs) == [])
  {
    var key, pairs := Identity(canonical), OrderPairs(canonical, linked).value;
    var k := |OfType(linked, "dpt")|;
    OrderingYieldsListings(canonical, linked);
    OrderedListingsAreTidy(canonical, linked);
    assert Identity(pairs[k]) == key;
    OrderedListingsAreAnswered(key, pairs, k, Selected(rules, pairs), chainId, fallbackChainId);
    if key in rules {
      EveryPairMatches(Selected(rules, pairs), key, pairs);
    }
  }

  /** With distinct listings the whole plan is the same for every order of the linked pairs. */
  lemma PipelineForgetsArrival(canonical: Pair, a: seq<Pair>, b: seq<Pair>, rules: map<Key, Rule>, chainId: string)
    requires multiset(a) == multiset(b) && KeysDistinct(a) && KeysDistinct(b)
    requires OrderPairs(canonical, a).Ok?
    ensures OrderPairs(canonical, b).Ok?
    ensures var pairsA, pairsB := OrderPairs(canonical, a).value, OrderPairs(canonical, b).value;
            PlanFor(Selected(rules, pairsB), Identity(canonical), pairsB, chainId)
            == PlanFor(Selected(rules, pairsA), Identity(canonical), pairsA, chainId)
  {
    OrderForgetsArrival(canonical, a, b);
  }
}
