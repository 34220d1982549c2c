/** Linking and unlinking listings: a `self` pointer per listing that stands for a set of chains. */
module ListingLinks {
  import opened Collections
  import opened LookupComponents

  datatype Listing = Listing(property: int, platform: int, self: Option<LookupId>)

  type Store = map<LookupId, Listing>

  // ----- the chains a pointer store represents -----

  /** `b` points to `a`, and the two are on different platforms. */
  predicate Joined(m: Store, a: LookupId, b: LookupId)
    requires a in m && b in m
  {
    m[b].self == Some(a) && m[a].platform != m[b].platform
  }

  /** `c` runs from its head to its tail along the pointers, on one property. */
  ghost predicate IsChain(m: Store, c: seq<LookupId>) {
    && c != []
    && (forall i :: 0 <= i < |c| ==> c[i] in m)
    && (forall i :: 0 <= i < |c| ==> m[c[i]].property == m[c[0]].property)
    && m[c[0]].self == None
    && (forall i, j :: 0 <= i < j < |c| && j == i + 1 ==> Joined(m, c[i], c[j]))
    && Distinct(c)
  }

  /** The chain each listing is in. */
  type Chains = map<LookupId, seq<LookupId>>

  /** `a` is on its own chain, which every listing on it shares. */
  ghost predicate Placed(m: Store, chains: Chains, a: LookupId)
    requires a in chains
  {
    && a in chains[a] && IsChain(m, chains[a])
    && forall i :: 0 <= i < |chains[a]| ==> chains[a][i] in chains && chains[chains[a][i]] == chains[a]
  }

  /** Every listing is on a chain, and chains that share a listing are the same. */
  ghost predicate Represents(m: Store, chains: Chains) {
    && m.Keys == chains.Keys
    && (forall a {:trigger chains[a]} :: a in chains ==> chains[a] != [] && a in chains[a])
    && forall a {:trigger Placed(m, chains, a)} :: a in chains ==> Placed(m, chains, a)
  }

  function Last(c: seq<LookupId>): LookupId
    requires c != []
  {
    c[|c| - 1]
  }

  lemma PositionOf(c: seq<LookupId>, a: LookupId) returns (i: nat)
    requires a in c
    ensures i < |c| && c[i] == a
  {
    i :| 0 <= i < |c| && c[i] == a;
  }

  /** A pointer leads from a listing to the one just before it in its chain. */
  lemma Predecessor(m: Store, c: seq<LookupId>, i: nat)
    requires IsChain(m, c) && i < |c| && m[c[i]].self.Some?
    ensures i > 0 && m[c[i]].self == Some(c[i - 1])
  {
    assert i > 0;
    assert Joined(m, c[i - 1], c[i]);
  }

  /** A listing without a pointer heads its chain. */
  lemma Headless(m: Store, c: seq<LookupId>, a: LookupId)
    requires IsChain(m, c) && a in c && m[a].self == None
    ensures c[0] == a
  {
    var i := PositionOf(c, a);
    assert i > 0 ==> Joined(m, c[i - 1], c[i]);
  }

  /** A pointer stays inside one chain. */
  lemma PointerInChain(m: Store, chains: Chains, a: LookupId, b: LookupId)
    requires Represents(m, chains) && a in m && m[a].self == Some(b)
    ensures b in m && chains[b] == chains[a] && m[b].property == m[a].property
  {
    assert Placed(m, chains, a);
    var i := PositionOf(chains[a], a);
    Predecessor(m, chains[a], i);
    assert b in chains[a];
  }

  /** Every listing has at most one pointer into it. */
  lemma AtMostOneIncoming(m: Store, chains: Chains, a: LookupId, b: LookupId, x: LookupId)
    requires Represents(m, chains) && a in m && b in m && m[a].self == Some(x) && m[b].self == Some(x)
    ensures a == b
  {
    assert Placed(m, chains, a);
    PointerInChain(m, chains, a, x);
    PointerInChain(m, chains, b, x);
    var i := PositionOf(chains[a], a);
    assert Placed(m, chains, b) && Placed(m, chains, x);
    var j := PositionOf(chains[a], b);
    Predecessor(m, chains[a], i);
    Predecessor(m, chains[a], j);
    assert chains[a][i - 1] == chains[a][j - 1];
  }

  /** Following pointers `n` times from `a`. */
  ghost predicate Follows(m: Store, a: LookupId, b: LookupId, n: nat)
    decreases n
  {
    if n == 0 then a == b
    else a in m && m[a].self.Some? && Follows(m, m[a].self.value, b, n - 1)
  }

  lemma {:induction false} FollowsDownTheChain(m: Store, c: seq<LookupId>, i: nat, b: LookupId, n: nat)
    requires IsChain(m, c) && i < |c| && Follows(m, c[i], b, n)
    ensures n <= i && b == c[i - n]
    decreases n
  {
    if n == 0 {
    } else {
      Predecessor(m, c, i);
      FollowsDownTheChain(m, c, i - 1, b, n - 1);
    }
  }

  /** No listing can be reached again by following pointers. */
  lemma NoCycles(m: Store, chains: Chains, a: LookupId, n: nat)
    requires Represents(m, chains) && a in m && n > 0
    ensures !Follows(m, a, a, n)
  {
    if Follows(m, a, a, n) {
      assert Placed(m, chains, a);
      var i := PositionOf(chains[a], a);
      FollowsDownTheChain(m, chains[a], i, a, n);
      assert false;
    }
  }

  /** From the i-th listing on, two chains of one store run alike down to the head. */
  lemma {:induction false} SameUpToHere(m: Store, c: seq<LookupId>, d: seq<LookupId>, i: nat, j: nat)
    requires IsChain(m, c) && IsChain(m, d) && i < |c| && j < |d| && c[i] == d[j]
    ensures i == j && c[..i + 1] == d[..j + 1]
    decreases i
  {
    if i == 0 {
      Headless(m, d, c[0]);
      assert c[..1] == d[..1];
    } else {
      assert Joined(m, c[i - 1], c[i]);
      Predecessor(m, d, j);
      SameUpToHere(m, c, d, i - 1, j - 1);
      assert c[..i + 1] == c[..i] + [c[i]] && d[..j + 1] == d[..j] + [d[j]];
    }
  }

  lemma {:induction false} LaterStaysInChain(m: Store, g: Chains, c: seq<LookupId>, i: nat, j: nat)
    requires Represents(m, g) && IsChain(m, c) && i <= j < |c|
    ensures c[i] in g && c[j] in g && g[c[i]] == g[c[j]]
    decreases j - i
  {
    if i < j {
      assert Joined(m, c[j - 1], c[j]);
      PointerInChain(m, g, c[j], c[j - 1]);
      LaterStaysInChain(m, g, c, i, j - 1);
    }
  }

  lemma TailInOther(m: Store, g: Chains, c: seq<LookupId>, a: LookupId)
    requires Represents(m, g) && IsChain(m, c) && a in c
    ensures a in g && IsChain(m, g[a]) && a in g[a] && Last(c) in g[a]
  {
    var i := PositionOf(c, a);
    LaterStaysInChain(m, g, c, i, |c| - 1);
    assert Placed(m, g, a) && Placed(m, g, Last(c));
  }

  lemma SameTailsSameChain(m: Store, c: seq<LookupId>, d: seq<LookupId>)
    requires IsChain(m, c) && IsChain(m, d) && Last(c) in d && Last(d) in c
    ensures c == d
  {
    var k := PositionOf(d, Last(c));
    SameUpToHere(m, c, d, |c| - 1, k);
    var l := PositionOf(c, Last(d));
    SameUpToHere(m, c, d, l, |d| - 1);
  }

  lemma ChainOfListingIsUnique(m: Store, f: Chains, c: seq<LookupId>, a: LookupId)
    requires Represents(m, f) && IsChain(m, c) && a in c && a in f && Last(f[a]) in c
    ensures c == f[a]
  {
    TailInOther(m, f, c, a);
    SameTailsSameChain(m, c, f[a]);
  }

  lemma OwnChain(m: Store, f: Chains, a: LookupId)
    requires Represents(m, f) && a in m
    ensures a in f && a in f[a] && IsChain(m, f[a])
  {
    assert Placed(m, f, a);
  }

  lemma SameChains(f: Chains, g: Chains)
    requires f.Keys == g.Keys && forall a :: a in f ==> f[a] == g[a]
    ensures f == g
  {
  }

  /** The pointers determine the chains. */
  lemma ChainsAreUnique(m: Store, f: Chains, g: Chains)
    requires Represents(m, f) && Represents(m, g)
    ensures f == g
  {
    forall a | a in m ensures a in f && a in g && f[a] == g[a] {
      assert a in g && a in g[a] && IsChain(m, g[a]) by {
        OwnChain(m, g, a);
      }
      assert Last(f[a]) in g[a] by {
        OwnChain(m, f, a);
        TailInOther(m, g, f[a], a);
      }
      ChainOfListingIsUnique(m, f, g[a], a);
    }
    SameChains(f, g);
  }

  /** Each chain has exactly one head and exactly one tail. */
  lemma OneHeadOneTail(m: Store, chains: Chains, a: LookupId)
    requires Represents(m, chains) && a in m
    ensures forall b :: b in chains[a] ==> b in m && (m[b].self == None <==> b == chains[a][0])
    ensures forall b :: b in chains[a] ==> (Targeted(m, b) <==> b != Last(chains[a]))
  {
    assert Placed(m, chains, a);
    var c := chains[a];
    forall b | b in c ensures b in m && (m[b].self == None <==> b == c[0]) {
      if m[b].self == None {
        Headless(m, c, b);
      }
    }
    forall b | b in c ensures Targeted(m, b) <==> b != Last(c) {
      OnlyTailIsUntargeted(m, chains, c, b);
    }
  }

  ghost predicate Targeted(m: Store, b: LookupId) {
    exists a :: a in m && m[a].self == Some(b)
  }

  lemma OnlyTailIsUntargeted(m: Store, chains: Chains, c: seq<LookupId>, b: LookupId)
    requires Represents(m, chains) && b in chains && chains[b] == c
    ensures Targeted(m, b) <==> b != Last(c)
  {
    assert Placed(m, chains, b);
    var i := PositionOf(c, b);
    if i < |c| - 1 {
      assert Joined(m, c[i], c[i + 1]);
    } else if Targeted(m, b) {
      var a :| a in m && m[a].self == Some(b);
      PointerInChain(m, chains, a, b);
      assert Placed(m, chains, a);
      var j := PositionOf(c, a);
      Predecessor(m, c, j);
      assert false;
    }
  }

  // ----- the rows of one property -----

  ghost predicate RowsOf(m: Store, property: int, rows: seq<LookupRow>) {
    && (forall r :: r in rows ==>
                      && r.lookupId.Some? && r.lookupId.value in m
                      && m[r.lookupId.value].property == property
                      && r.linkedTo == m[r.lookupId.value].self)
    && (forall a :: a in m && m[a].property == property ==> LookupRow(Some(a), m[a].self) in rows)
  }

  lemma LinkIsPointer(m: Store, property: int, rows: seq<LookupRow>, a: LookupId, b: LookupId)
    requires RowsOf(m, property, rows)
    ensures Link(rows, a, b) <==> a in m && m[a].property == property && m[a].self == Some(b)
  {
  }

  lemma {:induction false} ReachStaysInChain(
    m: Store, chains: Chains, property: int, rows: seq<LookupRow>, a: LookupId, b: LookupId, n: nat)
    requires Represents(m, chains) && RowsOf(m, property, rows) && a in m && Reach(rows, a, b, n)
    ensures b in m && chains[b] == chains[a]
    decreases n
  {
    if n == 0 {
    } else {
      var c :| Adjacent(rows, a, c) && Reach(rows, c, b, n - 1);
      if Link(rows, a, c) {
        PointerInChain(m, chains, a, c);
      } else {
        PointerInChain(m, chains, c, a);
      }
      ReachStaysInChain(m, chains, property, rows, c, b, n - 1);
    }
  }

  lemma {:induction false} HeadReachesAll(m: Store, property: int, rows: seq<LookupRow>, c: seq<LookupId>, i: nat)
    requires RowsOf(m, property, rows) && IsChain(m, c) && m[c[0]].property == property && i < |c|
    ensures Connected(rows, c[0], c[i])
  {
    if i == 0 {
      assert Reach(rows, c[0], c[0], 0);
    } else {
      HeadReachesAll(m, property, rows, c, i - 1);
      assert Joined(m, c[i - 1], c[i]);
      LinkIsPointer(m, property, rows, c[i], c[i - 1]);
      AdjacentConnected(rows, c[i - 1], c[i]);
      ConnectedTransitive(rows, c[0], c[i - 1], c[i]);
    }
  }

  /** Two listings of the property are connected exactly when they share a chain. */
  lemma ConnectedIsSameChain(m: Store, chains: Chains, property: int, rows: seq<LookupRow>, a: LookupId, b: LookupId)
    requires Represents(m, chains) && RowsOf(m, property, rows) && a in m && m[a].property == property
    ensures Connected(rows, a, b) <==> b in m && chains[b] == chains[a]
  {
    if Connected(rows, a, b) {
      var n: nat :| Reach(rows, a, b, n);
      ReachStaysInChain(m, chains, property, rows, a, b, n);
    }
    if b in m && chains[b] == chains[a] {
      var c := chains[a];
      assert Placed(m, chains, a) && Placed(m, chains, b);
      var i := PositionOf(c, a);
      var j := PositionOf(c, b);
      HeadReachesAll(m, property, rows, c, i);
      HeadReachesAll(m, property, rows, c, j);
      ConnectedSymmetric(rows, c[0], a);
      ConnectedTransitive(rows, a, c[0], b);
    }
  }

  lemma TargetsOfRows(m: Store, chains: Chains, property: int, rows: seq<LookupRow>, a: LookupId)
    requires Represents(m, chains) && RowsOf(m, property, rows) && a in m && m[a].property == property
    ensures IsLinkTarget(rows, a) <==> Targeted(m, a)
  {
    if Targeted(m, a) {
      var b :| b in m && m[b].self == Some(a);
      PointerInChain(m, chains, b, a);
      var k: nat :| k < |rows| && rows[k] == LookupRow(Some(b), Some(a));
    }
    if IsLinkTarget(rows, a) {
      var k: nat :| k < |rows| && rows[k].linkedTo == Some(a);
      assert rows[k] in rows;
    }
  }

  lemma PropertyNodes(m: Store, property: int, rows: seq<LookupRow>, a: LookupId)
    requires RowsOf(m, property, rows) && a in m && m[a].property == property
    ensures Listed(rows, a) && Node(rows, a)
  {
    var k :| 0 <= k < |rows| && rows[k] == LookupRow(Some(a), m[a].self);
    assert rows[k].lookupId == Some(a);
  }

  /** Component numbers tell chains apart. */
  lemma ComponentsAreChains(
    m: Store, chains: Chains, property: int, rows: seq<LookupRow>, component: map<LookupId, int>, a: LookupId,
    b: LookupId)
    requires Represents(m, chains) && RowsOf(m, property, rows) && Separates(rows, component)
    requires a in m && b in m && m[a].property == property && m[b].property == property
    ensures a in component && b in component
    ensures component[a] == component[b] <==> chains[a] == chains[b]
  {
    PropertyNodes(m, property, rows, a);
    PropertyNodes(m, property, rows, b);
    ConnectedIsSameChain(m, chains, property, rows, a, b);
  }

  /** The tail computed for a component is the tail of its chain. */
  lemma ComputedTail(
    m: Store, chains: Chains, property: int, rows: seq<LookupRow>,
    component: map<LookupId, int>, tails: map<int, LookupId>, a: LookupId)
    requires Represents(m, chains) && RowsOf(m, property, rows)
    requires Separates(rows, component) && TailsOf(rows, component, tails)
    requires a in m && m[a].property == property
    ensures a in component && component[a] in tails && tails[component[a]] == Last(chains[a])
  {
    assert Placed(m, chains, a);
    var z := Last(chains[a]);
    assert z in chains[a];
    ComponentsAreChains(m, chains, property, rows, component, a, z);
    OnlyTailIsUntargeted(m, chains, chains[a], z);
    TargetsOfRows(m, chains, property, rows, z);
    PropertyNodes(m, property, rows, z);
    var tail := tails[component[a]];
    assert IsTail(rows, component, tail, component[a]);
    ListedHasProperty(m, property, rows, tail);
    ComponentsAreChains(m, chains, property, rows, component, a, tail);
    OnlyTailIsUntargeted(m, chains, chains[a], tail);
    TargetsOfRows(m, chains, property, rows, tail);
  }

  lemma ListedHasProperty(m: Store, property: int, rows: seq<LookupRow>, a: LookupId)
    requires RowsOf(m, property, rows) && Listed(rows, a)
    ensures a in m && m[a].property == property
  {
    var i: nat :| i < |rows| && rows[i].lookupId == Some(a);
    assert rows[i] in rows;
  }

  // ----- linking and unlinking -----

  datatype LinkError =
    | SameListing | ListingNotFound | OtherProperty | NotChainHead | SamePlatform
    | UnresolvedChains | SameChain | NoTail | TailOnSamePlatform

  /** What linking `source` to `target` must answer: the tail it is attached to, or why not. */
  ghost function LinkOutcome(m: Store, chains: Chains, source: LookupId, target: LookupId): Result<LookupId, LinkError>
    requires Represents(m, chains)
  {
    if source == target then Err(SameListing)
    else if source !in m then Err(ListingNotFound)
    else if target !in m || m[target].property != m[source].property then Err(OtherProperty)
    else if m[source].self != None then Err(NotChainHead)
    else if m[source].platform == m[target].platform then Err(SamePlatform)
    else if chains[source] == chains[target] then Err(SameChain)
    else
      assert Placed(m, chains, target);
      if m[source].platform == m[Last(chains[target])].platform then Err(TailOnSamePlatform)
      else Ok(Last(chains[target]))
  }

  /** Both listings exist on one property, `source` has no pointer, and the two are on different platforms. */
  ghost predicate Linkable(m: Store, source: LookupId, target: LookupId) {
    && source in m && target in m && m[source].property == m[target].property
    && m[source].self == None && m[source].platform != m[target].platform
  }

  /**
   Linking is accepted for linkable listings of different chains when the tail of the target's chain, the
   listing that answers, is on another platform too; each refusal has its own reason.
   */
  lemma LinkOutcomeMeans(m: Store, chains: Chains, source: LookupId, target: LookupId)
    requires Represents(m, chains)
    ensures var r := LinkOutcome(m, chains, source, target);
            && (r == Err(SameListing) <==> source == target)
            && (r == Err(ListingNotFound) <==> source != target && source !in m)
            && (r == Err(OtherProperty) <==>
                  source != target && source in m && !(target in m && m[target].property == m[source].property))
            && (r in {Err(NotChainHead), Err(SamePlatform)} <==>
                  && source != target && source in m && target in m && m[target].property == m[source].property
                  && !Linkable(m, source, target))
            && (r == Err(NotChainHead) ==> m[source].self.Some?)
            && (r == Err(SamePlatform) ==> m[source].self.None? && m[source].platform == m[target].platform)
    ensures LinkOutcome(m, chains, source, target) == Err(SameChain) <==>
            source != target && Linkable(m, source, target) && source in chains[target]
    ensures forall tail :: LinkOutcome(m, chains, source, target) == Ok(tail) <==>
                           && Linkable(m, source, target) && source !in chains[target]
                           && chains[target][|chains[target]| - 1] == tail
                           && tail in m && m[source].platform != m[tail].platform
  {
    if source in m && target in m {
      assert Placed(m, chains, target) && Placed(m, chains, source);
      assert source in chains[target] <==> chains[source] == chains[target];
      assert Last(chains[target]) in chains[target];
    }
  }

  function Point(m: Store, a: LookupId, self: Option<LookupId>): Store
    requires a in m
  {
    m[a := m[a].(self := self)]
  }

  /** The chains of `source` and `target`, put one after the other. */
  ghost function Concatenated(chains: Chains, source: LookupId, target: LookupId): Chains
    requires source in chains && target in chains
  {
    map a | a in chains ::
      if a in chains[target] || a in chains[source] then chains[target] + chains[source] else chains[a]
  }

  ghost function IndexIn(c: seq<LookupId>, a: LookupId): (i: nat)
    requires a in c
    ensures i < |c| && c[i] == a
  {
    var i :| 0 <= i < |c| && c[i] == a;
    i
  }

  /** The chain of `a` cut just before `a`; the other chains as they were. */
  ghost function Split(chains: Chains, a: LookupId): Chains
    requires a in chains && a in chains[a]
  {
    var c := chains[a];
    var k := IndexIn(c, a);
    map b | b in chains ::
      if b in c[k..] then c[k..] else if b in c[..k] then c[..k] else chains[b]
  }

  /** Attaching the head of `d` under the tail of `c` makes one chain of both. */
  lemma JoinedChain(m: Store, c: seq<LookupId>, d: seq<LookupId>)
    requires IsChain(m, c) && IsChain(m, d)
    requires forall i, j :: 0 <= i < |c| && 0 <= j < |d| ==> c[i] != d[j]
    requires m[d[0]].property == m[c[0]].property && m[d[0]].platform != m[Last(c)].platform
    ensures IsChain(Point(m, d[0], Some(Last(c))), c + d)
  {
    var m' := Point(m, d[0], Some(Last(c)));
    var e := c + d;
    forall i, j | 0 <= i < j < |e| && j == i + 1 ensures Joined(m', e[i], e[j]) {
      if j < |c| {
        assert Joined(m, c[i], c[j]);
      } else if i >= |c| {
        assert Joined(m, d[i - |c|], d[j - |c|]);
      }
    }
  }

  /** A chain that does not hold `a` is not touched by moving the pointer of `a`. */
  lemma OtherChainStays(m: Store, c: seq<LookupId>, a: LookupId, self: Option<LookupId>)
    requires IsChain(m, c) && a in m && a !in c
    ensures IsChain(Point(m, a, self), c)
  {
    var m' := Point(m, a, self);
    forall i, j | 0 <= i < j < |c| && j == i + 1 ensures Joined(m', c[i], c[j]) {
      assert Joined(m, c[i], c[j]);
    }
  }

  lemma LeftPart(m: Store, c: seq<LookupId>, k: nat)
    requires IsChain(m, c) && 0 < k < |c|
    ensures IsChain(Point(m, c[k], None), c[..k])
  {
    var m' := Point(m, c[k], None);
    forall i, j | 0 <= i < j < k && j == i + 1 ensures Joined(m', c[..k][i], c[..k][j]) {
      assert Joined(m, c[i], c[j]);
    }
  }

  lemma RightPart(m: Store, c: seq<LookupId>, k: nat)
    requires IsChain(m, c) && 0 < k < |c|
    ensures IsChain(Point(m, c[k], None), c[k..])
  {
    var m' := Point(m, c[k], None);
    var d := c[k..];
    forall i, j | 0 <= i < j < |d| && j == i + 1 ensures Joined(m', d[i], d[j]) {
      assert Joined(m, c[k + i], c[k + j]);
    }
  }

  lemma MemberOfChain(m: Store, chains: Chains, a: LookupId, b: LookupId)
    requires Represents(m, chains) && a in chains
    ensures b in chains[a] <==> b in chains && chains[b] == chains[a]
  {
    assert Placed(m, chains, a);
    assert b in chains ==> Placed(m, chains, b);
    if b in chains[a] {
      var i := PositionOf(chains[a], b);
    }
  }

  lemma LinkedChain(m: Store, chains: Chains, source: LookupId, target: LookupId)
    requires Represents(m, chains) && LinkOutcome(m, chains, source, target).Ok?
    ensures IsChain(Point(m, source, Some(Last(chains[target]))), chains[target] + chains[source])
    ensures forall x :: x in chains[target] + chains[source] ==> x in chains
  {
    assert Placed(m, chains, source);
    assert Placed(m, chains, target);
    Headless(m, chains[source], source);
    JoinedChain(m, chains[target], chains[source]);
  }

  lemma PlacedAfterLink(m: Store, chains: Chains, source: LookupId, target: LookupId, a: LookupId)
    requires Represents(m, chains) && LinkOutcome(m, chains, source, target).Ok? && a in chains
    ensures Placed(Point(m, source, Some(Last(chains[target]))), Concatenated(chains, source, target), a)
  {
    assert Placed(m, chains, a);
    var chains' := Concatenated(chains, source, target);
    if a in chains[target] || a in chains[source] {
      LinkedChain(m, chains, source, target);
      var e := chains[target] + chains[source];
      forall i | 0 <= i < |e| ensures e[i] in chains' && chains'[e[i]] == e {
        assert e[i] in e;
      }
    } else {
      OtherChainsDoNotMeet(m, chains, a, source);
      OtherChainsDoNotMeet(m, chains, a, target);
      assert source !in chains[a] by {
        OwnChain(m, chains, source);
      }
      OtherChainStays(m, chains[a], source, Some(Last(chains[target])));
      var c := chains[a];
      forall i | 0 <= i < |c| ensures c[i] in chains' && chains'[c[i]] == c {
        assert c[i] in c;
      }
    }
  }

  lemma OtherChainsDoNotMeet(m: Store, chains: Chains, a: LookupId, b: LookupId)
    requires Represents(m, chains) && a in chains && b in chains && a !in chains[b]
    ensures forall x :: x in chains[a] ==> x !in chains[b]
  {
    forall x | x in chains[a] ensures x !in chains[b] {
      MemberOfChain(m, chains, a, x);
      MemberOfChain(m, chains, b, x);
      MemberOfChain(m, chains, b, a);
    }
  }

  lemma AllPlaced(m: Store, chains: Chains)
    requires m.Keys == chains.Keys && forall a {:trigger Placed(m, chains, a)} :: a in chains ==> Placed(m, chains, a)
    ensures Represents(m, chains)
  {
    forall a | a in chains ensures chains[a] != [] && a in chains[a] {
      assert Placed(m, chains, a);
    }
  }

  /** Linking concatenates two chains and leaves the others alone. */
  lemma LinkConcatenates(m: Store, chains: Chains, source: LookupId, target: LookupId)
    requires Represents(m, chains) && LinkOutcome(m, chains, source, target).Ok?
    ensures Represents(Point(m, source, Some(Last(chains[target]))), Concatenated(chains, source, target))
  {
    var m', chains' := Point(m, source, Some(Last(chains[target]))), Concatenated(chains, source, target);
    forall a | a in chains' ensures Placed(m', chains', a) {
      PlacedAfterLink(m, chains, source, target, a);
    }
    AllPlaced(m', chains');
  }

  lemma PlacedAfterUnlink(m: Store, chains: Chains, a: LookupId, b: LookupId)
    requires Represents(m, chains) && a in m && m[a].self.Some? && b in chains
    ensures Placed(Point(m, a, None), Split(chains, a), b)
  {
    if b in chains[a] {
      PlacedOnCutChain(m, chains, a, b);
    } else {
      PlacedElsewhere(m, chains, a, b);
    }
  }

  lemma PlacedIn(m: Store, chains: Chains, c: seq<LookupId>, b: LookupId)
    requires IsChain(m, c) && b in c
    requires forall x :: x in c ==> x in chains && chains[x] == c
    ensures b in chains && Placed(m, chains, b)
  {
    forall i | 0 <= i < |c| ensures c[i] in chains && chains[c[i]] == c {
      assert c[i] in c;
    }
  }

  lemma PlacedOnCutChain(m: Store, chains: Chains, a: LookupId, b: LookupId)
    requires Represents(m, chains) && a in m && m[a].self.Some? && b in chains[a] && b in chains
    ensures Placed(Point(m, a, None), Split(chains, a), b)
  {
    var c, k := chains[a], IndexIn(chains[a], a);
    assert Placed(m, chains, a);
    Predecessor(m, c, k);
    CutListings(m, chains, a, k);
    if b in c[k..] {
      RightPart(m, c, k);
      PlacedIn(Point(m, a, None), Split(chains, a), c[k..], b);
    } else {
      LeftPart(m, c, k);
      InLeftPart(c, k, b);
      PlacedIn(Point(m, a, None), Split(chains, a), c[..k], b);
    }
  }

  lemma InLeftPart(c: seq<LookupId>, k: nat, b: LookupId)
    requires k <= |c| && b in c && b !in c[k..]
    ensures b in c[..k]
  {
    assert c == c[..k] + c[k..];
  }

  lemma PlacedElsewhere(m: Store, chains: Chains, a: LookupId, b: LookupId)
    requires Represents(m, chains) && a in m && m[a].self.Some? && b in chains && b !in chains[a]
    ensures Placed(Point(m, a, None), Split(chains, a), b)
  {
    assert Placed(m, chains, b);
    OtherChainsDoNotMeet(m, chains, b, a);
    OtherChainStays(m, chains[b], a, None);
    var c, d, k := chains[a], chains[b], IndexIn(chains[a], a);
    assert c == c[..k] + c[k..];
    forall i | 0 <= i < |d| ensures d[i] in Split(chains, a) && Split(chains, a)[d[i]] == d {
      assert d[i] in d;
      assert d[i] !in c;
    }
  }

  lemma CutListings(m: Store, chains: Chains, a: LookupId, k: nat)
    requires Represents(m, chains) && a in m && k == IndexIn(chains[a], a)
    ensures forall x :: x in chains[a][..k] ==> x in chains && Split(chains, a)[x] == chains[a][..k]
    ensures forall x :: x in chains[a][k..] ==> x in chains && Split(chains, a)[x] == chains[a][k..]
  {
    assert Placed(m, chains, a);
    var c := chains[a];
    forall x | x in c[..k] ensures x in chains && x !in c[k..] {
      var i: nat :| i < k && c[..k][i] == x;
      assert c[i] == x;
    }
    forall x | x in c[k..] ensures x in chains {
      var i: nat :| i < |c| - k && c[k..][i] == x;
      assert c[k + i] == x;
    }
  }

  /** Unlinking splits one chain just before the listing and leaves the others alone. */
  lemma UnlinkSplits(m: Store, chains: Chains, a: LookupId)
    requires Represents(m, chains) && a in m && m[a].self.Some?
    ensures Represents(Point(m, a, None), Split(chains, a))
  {
    var m', chains' := Point(m, a, None), Split(chains, a);
    forall b | b in chains' ensures Placed(m', chains', b) {
      PlacedAfterUnlink(m, chains, a, b);
    }
    AllPlaced(m', chains');
  }

  /** Linking and then unlinking the same listing gives back the pointers and the chains. */
  lemma LinkThenUnlink(m: Store, chains: Chains, source: LookupId, target: LookupId)
    requires Represents(m, chains) && LinkOutcome(m, chains, source, target).Ok?
    ensures Point(Point(m, source, Some(Last(chains[target]))), source, None) == m
    ensures var linked := Concatenated(chains, source, target);
            source in linked[source] && Split(linked, source) == chains
  {
    var m', linked := Point(m, source, Some(Last(chains[target]))), Concatenated(chains, source, target);
    LinkConcatenates(m, chains, source, target);
    assert Point(m', source, None) == m;
    UnlinkSplits(m', linked, source);
    ChainsAreUnique(m, Split(linked, source), chains);
  }

  /**
   * After unlinking `a`, linking it to a listing that was above it is refused
   * only for sharing its platform, and otherwise undoes the unlinking.
   */
  lemma UnlinkThenRelink(m: Store, chains: Chains, a: LookupId, target: LookupId)
    requires Represents(m, chains) && a in m && m[a].self.Some?
    requires target in chains[a] && IndexIn(chains[a], target) < IndexIn(chains[a], a)
    ensures var m', cut := Point(m, a, None), Split(chains, a);
            && target in m && Represents(m', cut)
            && LinkOutcome(m', cut, a, target) ==
               (if m[a].platform == m[target].platform then Err(SamePlatform) else Ok(m[a].self.value))
            && Point(m', a, m[a].self) == m
    ensures m[a].platform != m[target].platform ==> Concatenated(Split(chains, a), a, target) == chains
  {
    var m', cut := Point(m, a, None), Split(chains, a);
    UnlinkSplits(m, chains, a);
    CutAt(m, chains, a, target);
    assert Point(m', a, m[a].self) == m;
    if m[a].platform != m[target].platform {
      assert LinkOutcome(m', cut, a, target) == Ok(m[a].self.value);
      LinkConcatenates(m', cut, a, target);
      ChainsAreUnique(m, Concatenated(cut, a, target), chains);
    }
  }

  lemma CutAt(m: Store, chains: Chains, a: LookupId, target: LookupId)
    requires Represents(m, chains) && a in m && m[a].self.Some?
    requires target in chains[a] && IndexIn(chains[a], target) < IndexIn(chains[a], a)
    ensures target in m && target != a && m[target].property == m[a].property
    ensures Split(chains, a)[a] != Split(chains, a)[target] && Split(chains, a)[target] != []
    ensures Last(Split(chains, a)[target]) == m[a].self.value && m[a].self.value in m
    ensures m[m[a].self.value].platform != m[a].platform
  {
    var c := chains[a];
    var k := IndexIn(c, a);
    assert Placed(m, chains, a);
    Predecessor(m, c, k);
    CutListings(m, chains, a, k);
    assert c[..k][IndexIn(c, target)] == target;
    assert c[k..][0] == a && c[..k][0] == c[0];
    assert Joined(m, c[k - 1], c[k]);
  }

  /** Relinking to the former parent is always accepted. */
  lemma RelinkToParent(m: Store, chains: Chains, a: LookupId)
    requires Represents(m, chains) && a in m && m[a].self.Some?
    ensures Represents(Point(m, a, None), Split(chains, a))
    ensures LinkOutcome(Point(m, a, None), Split(chains, a), a, m[a].self.value) == Ok(m[a].self.value)
    ensures m[a].self.value in m && Concatenated(Split(chains, a), a, m[a].self.value) == chains
  {
    var c := chains[a];
    var k := IndexIn(c, a);
    assert Placed(m, chains, a);
    Predecessor(m, c, k);
    assert Joined(m, c[k - 1], c[k]);
    assert IndexIn(c, c[k - 1]) == k - 1;
    UnlinkThenRelink(m, chains, a, c[k - 1]);
  }

  // ----- runs of edits -----

  /** Listings that nothing links are chains of one. */
  lemma UnlinkedListings(m: Store)
    requires forall a :: a in m ==> m[a].self == None
    ensures Represents(m, map a | a in m :: [a])
  {
    var chains: Chains := map a | a in m :: [a];
    forall a | a in chains ensures Placed(m, chains, a) {
      assert chains[a] == [a];
    }
    AllPlaced(m, chains);
  }

  datatype Edit = LinkTo(source: LookupId, target: LookupId) | Unlinking(listing: LookupId)

  ghost function Edited(m: Store, chains: Chains, edit: Edit): (r: (Store, Chains))
    requires Represents(m, chains)
  {
    match edit
    case LinkTo(source, target) =>
      var outcome := LinkOutcome(m, chains, source, target);
      if outcome.Ok? then (Point(m, source, Some(outcome.value)), Concatenated(chains, source, target)) else (m, chains)
    case Unlinking(a) =>
      if a in m && m[a].self.Some? then (Point(m, a, None), Split(chains, a)) else (m, chains)
  }

  lemma EditKeepsChains(m: Store, chains: Chains, edit: Edit)
    requires Represents(m, chains)
    ensures Represents(Edited(m, chains, edit).0, Edited(m, chains, edit).1)
  {
    match edit
    case LinkTo(source, target) =>
      if LinkOutcome(m, chains, source, target).Ok? {
        LinkConcatenates(m, chains, source, target);
      }
    case Unlinking(a) =>
      if a in m && m[a].self.Some? {
        UnlinkSplits(m, chains, a);
      }
  }

  /** `last` comes from `m` by some edits, in order. */
  ghost predicate EditedBy(m: Store, chains: Chains, edits: seq<Edit>, last: Store)
    requires Represents(m, chains)
    decreases edits
  {
    if edits == [] then last == m
    else
      EditKeepsChains(m, chains, edits[0]);
      EditedBy(Edited(m, chains, edits[0]).0, Edited(m, chains, edits[0]).1, edits[1..], last)
  }

  /** Whatever is linked and unlinked, the pointers form disjoint chains over the same listings. */
  lemma {:induction false} RunKeepsChains(m: Store, chains: Chains, edits: seq<Edit>, last: Store)
    requires Represents(m, chains) && EditedBy(m, chains, edits, last)
    ensures last.Keys == m.Keys
    ensures exists chains' :: Represents(last, chains')
    decreases edits
  {
    if edits == [] {
      assert Represents(last, chains);
    } else {
      EditKeepsChains(m, chains, edits[0]);
      var (m', chains') := Edited(m, chains, edits[0]);
      RunKeepsChains(m', chains', edits[1..], last);
    }
  }

  // ----- the table -----

  class LookupTable {
    var listings: Store
    ghost var chains: Chains

    ghost predicate Valid()
      reads this
    {
      Represents(listings, chains)
    }

    constructor (listings: Store, ghost chains: Chains)
      requires Represents(listings, chains)
      ensures Valid() && this.listings == listings && this.chains == chains
    {
      this.listings := listings;
      this.chains := chains;
    }

    /** The rows of every listing on the property of `id`; none when there is no such listing. */
    method FetchLinkedRows(id: LookupId) returns (rows: seq<LookupRow>)
      ensures id !in listings ==> rows == []
      ensures id in listings ==> RowsOf(listings, listings[id].property, rows)
    {
      rows := [];
      if id in listings {
        var ids := Elements(set a | a in listings && listings[a].property == listings[id].property);
        for i := 0 to |ids|
          invariant |rows| == i
          invariant forall k :: 0 <= k < i ==>
                    ids[k] in listings && rows[k] == LookupRow(Some(ids[k]), listings[ids[k]].self)
        {
          assert ids[i] in ids;
          rows := rows + [LookupRow(Some(ids[i]), listings[ids[i]].self)];
        }
        RowsCover(listings, listings[id].property, ids, rows);
      }
    }

    method Link(source: LookupId, target: LookupId) returns (r: Result<LookupId, LinkError>)
      requires Valid()
      modifies this
      ensures Valid()
      ensures r == LinkOutcome(old(listings), old(chains), source, target)
      ensures r.Ok? ==> listings == Point(old(listings), source, Some(r.value))
      ensures r.Ok? ==> source in old(listings)
                        && listings == old(listings)[source := old(listings)[source].(self := Some(r.value))]
      ensures r.Ok? ==> chains == Concatenated(old(chains), source, target)
      ensures r.Err? ==> listings == old(listings) && chains == old(chains)
    {
      if source == target {
        return Err(SameListing);
      }
      var rows := FetchLinkedRows(source);
      if source !in listings {
        return Err(ListingNotFound);
      }
      ghost var property := listings[source].property;
      var known := HasRow(rows, target);
      ListedInRows(listings, property, rows, target);
      if !known {
        return Err(OtherProperty);
      }
      if listings[source].self != None {
        return Err(NotChainHead);
      }
      if listings[source].platform == listings[target].platform {
        return Err(SamePlatform);
      }
      r := FindTail(source, target, rows);
      if r.Ok? {
        LinkConcatenates(listings, chains, source, target);
        chains := Concatenated(chains, source, target);
        listings := Point(listings, source, Some(r.value));
      }
    }

    /** The listing `source` is to be attached to: the tail of the other chain. */
    method FindTail(source: LookupId, target: LookupId, rows: seq<LookupRow>) returns (r: Result<LookupId, LinkError>)
      requires Valid() && source in listings && target in listings && source != target
      requires RowsOf(listings, listings[source].property, rows)
      requires listings[target].property == listings[source].property && listings[source].self == None
      requires listings[source].platform != listings[target].platform
      ensures r == LinkOutcome(listings, chains, source, target)
    {
      ghost var property := listings[source].property;
      var component := BuildComponents(rows);
      ComponentsAreChains(listings, chains, property, rows, component, source, target);
      r := Err(UnresolvedChains);
      if source in component && target in component {
        r := Err(SameChain);
        if component[source] != component[target] {
          var tails := BuildChainTails(rows);
          RecomputedTail(listings, chains, property, rows, component, tails, target);
          r := Err(NoTail);
          if component[target] in tails {
            var tail := tails[component[target]];
            assert tail in listings by {
              OwnChain(listings, chains, target);
            }
            r := if listings[source].platform == listings[tail].platform then Err(TailOnSamePlatform) else Ok(tail);
          }
        }
      }
    }

    /** Answers whether a pointer was removed. */
    method Unlink(id: LookupId) returns (r: Result<bool, LinkError>)
      requires Valid()
      modifies this
      ensures Valid()
      ensures r == if id !in old(listings) then Err(ListingNotFound) else Ok(old(listings)[id].self.Some?)
      ensures r == Ok(true) ==> listings == Point(old(listings), id, None) && chains == Split(old(chains), id)
      ensures r == Ok(true) ==> listings == old(listings)[id := old(listings)[id].(self := None)]
      ensures r != Ok(true) ==> listings == old(listings) && chains == old(chains)
    {
      if id !in listings {
        return Err(ListingNotFound);
      }
      if listings[id].self == None {
        return Ok(false);
      }
      UnlinkSplits(listings, chains, id);
      chains := Split(chains, id);
      listings := Point(listings, id, None);
      r := Ok(true);
    }
  }

  method HasRow(rows: seq<LookupRow>, id: LookupId) returns (known: bool)
    ensures known <==> Listed(rows, id)
  {
    known := false;
    for i := 0 to |rows|
      invariant known <==> exists k :: 0 <= k < i && rows[k].lookupId == Some(id)
    {
      if rows[i].lookupId == Some(id) {
        known := true;
      }
    }
  }

  lemma ListedInRows(m: Store, property: int, rows: seq<LookupRow>, a: LookupId)
    requires RowsOf(m, property, rows)
    ensures Listed(rows, a) <==> a in m && m[a].property == property
  {
    if Listed(rows, a) {
      ListedHasProperty(m, property, rows, a);
    }
    if a in m && m[a].property == property {
      PropertyNodes(m, property, rows, a);
    }
  }

  lemma RowsCover(m: Store, property: int, ids: seq<LookupId>, rows: seq<LookupRow>)
    requires forall a :: a in ids <==> a in m && m[a].property == property
    requires |rows| == |ids| && forall k :: 0 <= k < |ids| ==>
             ids[k] in m && rows[k] == LookupRow(Some(ids[k]), m[ids[k]].self)
    ensures RowsOf(m, property, rows)
  {
    forall r | r in rows
      ensures && r.lookupId.Some? && r.lookupId.value in m
              && m[r.lookupId.value].property == property
              && r.linkedTo == m[r.lookupId.value].self
    {
      var k: nat :| k < |rows| && rows[k] == r;
      assert ids[k] in ids;
    }
    forall a | a in m && m[a].property == property ensures LookupRow(Some(a), m[a].self) in rows {
      assert a in ids;
      var k: nat :| k < |ids| && ids[k] == a;
      assert rows[k] in rows;
    }
  }

  /** The tails are computed from a second numbering, which is the same one. */
  lemma RecomputedTail(
    m: Store, chains: Chains, property: int, rows: seq<LookupRow>,
    component: map<LookupId, int>, tails: map<int, LookupId>, a: LookupId)
    requires Represents(m, chains) && RowsOf(m, property, rows) && a in m && m[a].property == property
    requires IsNumbering(rows, component) && exists other :: IsNumbering(rows, other) && TailsOf(rows, other, tails)
    ensures a in component && component[a] in tails && tails[component[a]] == Last(chains[a])
  {
    var other :| IsNumbering(rows, other) && TailsOf(rows, other, tails);
    NumberingIsUnique(rows, component, other);
    ComputedTail(m, chains, property, rows, component, tails, a);
  }
}
