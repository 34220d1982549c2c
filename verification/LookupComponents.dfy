/** Connected components and chain tails of listing rows, as the link endpoint computes them. */
module LookupComponents {
  import opened Collections

  /** The primary key of a listing row. */
  datatype LookupId = LookupId(number: int)

  datatype LookupRow = LookupRow(lookupId: Option<LookupId>, linkedTo: Option<LookupId>)

  // ----- the undirected link graph -----

  ghost predicate Link(rows: seq<LookupRow>, a: LookupId, b: LookupId) {
    LookupRow(Some(a), Some(b)) in rows
  }

  ghost predicate Adjacent(rows: seq<LookupRow>, a: LookupId, b: LookupId) {
    Link(rows, a, b) || Link(rows, b, a)
  }

  /** Every id a row lists, and every id such a row is linked to. */
  ghost predicate Node(rows: seq<LookupRow>, a: LookupId) {
    (exists i :: 0 <= i < |rows| && rows[i].lookupId == Some(a)) || HasIncoming(rows, a)
  }

  ghost predicate HasIncoming(rows: seq<LookupRow>, a: LookupId) {
    exists b :: Link(rows, b, a)
  }

  /** `b` can be reached from `a` in `n` steps. */
  ghost predicate Reach(rows: seq<LookupRow>, a: LookupId, b: LookupId, n: nat)
    decreases n
  {
    if n == 0 then a == b else exists c :: Adjacent(rows, a, c) && Reach(rows, c, b, n - 1)
  }

  ghost predicate Connected(rows: seq<LookupRow>, a: LookupId, b: LookupId) {
    exists n :: Reach(rows, a, b, n)
  }

  lemma {:induction false} ReachTransitive(rows: seq<LookupRow>, a: LookupId, b: LookupId, c: LookupId, m: nat, n: nat)
    requires Reach(rows, a, b, m) && Reach(rows, b, c, n)
    ensures Reach(rows, a, c, m + n)
    decreases m
  {
    if m == 0 {
    } else {
      var d :| Adjacent(rows, a, d) && Reach(rows, d, b, m - 1);
      ReachTransitive(rows, d, b, c, m - 1, n);
    }
  }

  lemma {:induction false} ReachSymmetric(rows: seq<LookupRow>, a: LookupId, b: LookupId, n: nat)
    requires Reach(rows, a, b, n)
    ensures Reach(rows, b, a, n)
    decreases n
  {
    if n == 0 {
    } else {
      var c :| Adjacent(rows, a, c) && Reach(rows, c, b, n - 1);
      ReachSymmetric(rows, c, b, n - 1);
      assert Reach(rows, a, a, 0);
      assert Adjacent(rows, c, a);
      assert Reach(rows, c, a, 1);
      ReachTransitive(rows, b, c, a, n - 1, 1);
    }
  }

  lemma ConnectedTransitive(rows: seq<LookupRow>, a: LookupId, b: LookupId, c: LookupId)
    requires Connected(rows, a, b) && Connected(rows, b, c)
    ensures Connected(rows, a, c)
  {
    var m: nat :| Reach(rows, a, b, m);
    var n: nat :| Reach(rows, b, c, n);
    ReachTransitive(rows, a, b, c, m, n);
  }

  lemma ConnectedSymmetric(rows: seq<LookupRow>, a: LookupId, b: LookupId)
    requires Connected(rows, a, b)
    ensures Connected(rows, b, a)
  {
    var n: nat :| Reach(rows, a, b, n);
    ReachSymmetric(rows, a, b, n);
  }

  lemma AdjacentConnected(rows: seq<LookupRow>, a: LookupId, b: LookupId)
    requires Adjacent(rows, a, b)
    ensures Connected(rows, a, b)
  {
    assert Reach(rows, b, b, 0);
    assert Reach(rows, a, b, 1);
  }

  // ----- building the graph -----

  ghost predicate GraphOf(rows: seq<LookupRow>, adjacency: map<LookupId, set<LookupId>>) {
    && (forall a :: a in adjacency <==> Node(rows, a))
    && (forall a, b :: a in adjacency ==> (b in adjacency[a] <==> Adjacent(rows, a, b)))
  }

  ghost predicate Listed(rows: seq<LookupRow>, a: LookupId) {
    exists i :: 0 <= i < |rows| && rows[i].lookupId == Some(a)
  }

  /** The graph of all listed ids and the links of the first `n` rows. */
  ghost predicate GraphUpTo(rows: seq<LookupRow>, n: nat, adjacency: map<LookupId, set<LookupId>>)
    requires n <= |rows|
  {
    && (forall a :: a in adjacency <==> Listed(rows, a) || HasIncoming(rows[..n], a))
    && (forall a, b :: a in adjacency ==> (b in adjacency[a] <==> Adjacent(rows[..n], a, b)))
  }

  function WithKey(order: seq<LookupId>, id: LookupId): seq<LookupId> {
    if id in order then order else order + [id]
  }

  /** The listed ids of the first `n` rows, in order of appearance. */
  function ListedKeys(rows: seq<LookupRow>, n: nat): seq<LookupId>
    requires n <= |rows|
  {
    if n == 0 then []
    else if rows[n - 1].lookupId.Some? then WithKey(ListedKeys(rows, n - 1), rows[n - 1].lookupId.value)
    else ListedKeys(rows, n - 1)
  }

  /** All listed ids, then the link targets of the first `n` rows that no row lists. */
  function LinkedKeys(rows: seq<LookupRow>, n: nat): seq<LookupId>
    requires n <= |rows|
  {
    if n == 0 then ListedKeys(rows, |rows|)
    else if rows[n - 1].lookupId.Some? && rows[n - 1].linkedTo.Some?
    then WithKey(LinkedKeys(rows, n - 1), rows[n - 1].linkedTo.value)
    else LinkedKeys(rows, n - 1)
  }

  /** The insertion order of the adjacency's keys. */
  function KeyOrder(rows: seq<LookupRow>): seq<LookupId> {
    LinkedKeys(rows, |rows|)
  }

  /** Every listed id, without links yet. */
  method ListIds(rows: seq<LookupRow>) returns (adjacency: map<LookupId, set<LookupId>>, order: seq<LookupId>)
    ensures GraphUpTo(rows, 0, adjacency)
    ensures forall a :: a in order <==> a in adjacency
    ensures order == ListedKeys(rows, |rows|)
  {
    adjacency := map[];
    order := [];
    for i := 0 to |rows|
      invariant forall a :: a in adjacency ==> Listed(rows, a) && adjacency[a] == {}
      invariant forall k :: 0 <= k < i && rows[k].lookupId.Some? ==> rows[k].lookupId.value in adjacency
      invariant forall a :: a in order <==> a in adjacency
      invariant order == ListedKeys(rows, i)
    {
      if rows[i].lookupId.Some? {
        var id := rows[i].lookupId.value;
        assert rows[i].lookupId == Some(id);
        if id !in adjacency {
          adjacency := adjacency[id := {}];
          order := order + [id];
        }
      }
    }
  }

  function WithLink(
    adjacency: map<LookupId, set<LookupId>>, id: LookupId, linked: LookupId): map<LookupId, set<LookupId>>
    requires id in adjacency
  {
    var forward := adjacency[id := adjacency[id] + {linked}];
    forward[linked := (if linked in forward then forward[linked] else {}) + {id}]
  }

  lemma LinkOfPrefix(rows: seq<LookupRow>, n: nat, a: LookupId, b: LookupId)
    requires n < |rows|
    ensures Link(rows[..n + 1], a, b) <==> Link(rows[..n], a, b) || rows[n] == LookupRow(Some(a), Some(b))
  {
    assert rows[..n + 1] == rows[..n] + [rows[n]];
  }

  lemma IncomingOfPrefix(rows: seq<LookupRow>, n: nat, a: LookupId)
    requires n < |rows|
    ensures HasIncoming(rows[..n + 1], a) <==>
            HasIncoming(rows[..n], a) || (rows[n].lookupId.Some? && rows[n].linkedTo == Some(a))
  {
    if HasIncoming(rows[..n + 1], a) {
      var b :| Link(rows[..n + 1], b, a);
      LinkOfPrefix(rows, n, b, a);
    }
    if HasIncoming(rows[..n], a) {
      var b :| Link(rows[..n], b, a);
      LinkOfPrefix(rows, n, b, a);
    }
    if rows[n].lookupId.Some? && rows[n].linkedTo == Some(a) {
      LinkOfPrefix(rows, n, rows[n].lookupId.value, a);
    }
  }

  lemma WithLinkIsGraph(
    rows: seq<LookupRow>, n: nat, adjacency: map<LookupId, set<LookupId>>, id: LookupId, linked: LookupId)
    requires n < |rows| && GraphUpTo(rows, n, adjacency) && rows[n] == LookupRow(Some(id), Some(linked))
    ensures id in adjacency && GraphUpTo(rows, n + 1, WithLink(adjacency, id, linked))
  {
    assert rows[n].lookupId == Some(id);
    var more := WithLink(adjacency, id, linked);
    forall a, b ensures Link(rows[..n + 1], a, b) <==> Link(rows[..n], a, b) || (a == id && b == linked) {
      LinkOfPrefix(rows, n, a, b);
    }
    forall a ensures HasIncoming(rows[..n + 1], a) <==> HasIncoming(rows[..n], a) || a == linked {
      IncomingOfPrefix(rows, n, a);
    }
    forall a, b | a in more ensures b in more[a] <==> Adjacent(rows[..n + 1], a, b) {
      if a !in adjacency {
        assert !Link(rows[..n], b, a);
        if Link(rows[..n], a, b) {
          LinkedIdIsListed(rows, n, a, b);
          assert false;
        }
      }
    }
  }

  lemma LinkedIdIsListed(rows: seq<LookupRow>, n: nat, a: LookupId, b: LookupId)
    requires n <= |rows| && Link(rows[..n], a, b)
    ensures Listed(rows, a)
  {
    var i :| 0 <= i < n && rows[..n][i] == LookupRow(Some(a), Some(b));
    assert rows[i].lookupId == Some(a);
  }

  lemma NoLinkIsGraph(rows: seq<LookupRow>, n: nat, adjacency: map<LookupId, set<LookupId>>)
    requires n < |rows| && GraphUpTo(rows, n, adjacency) && (rows[n].lookupId.None? || rows[n].linkedTo.None?)
    ensures GraphUpTo(rows, n + 1, adjacency)
  {
    forall a, b ensures Link(rows[..n + 1], a, b) <==> Link(rows[..n], a, b) {
      LinkOfPrefix(rows, n, a, b);
    }
    forall a ensures HasIncoming(rows[..n + 1], a) <==> HasIncoming(rows[..n], a) {
      IncomingOfPrefix(rows, n, a);
    }
  }

  /** The adjacency of the rows, and its keys in insertion order. */
  method BuildAdjacency(rows: seq<LookupRow>) returns (adjacency: map<LookupId, set<LookupId>>, order: seq<LookupId>)
    ensures GraphOf(rows, adjacency)
    ensures forall a :: a in order <==> a in adjacency
    ensures order == KeyOrder(rows)
  {
    adjacency, order := ListIds(rows);
    for i := 0 to |rows|
      invariant GraphUpTo(rows, i, adjacency)
      invariant order == LinkedKeys(rows, i)
      invariant forall a :: a in order <==> a in adjacency
    {
      if rows[i].lookupId.Some? && rows[i].linkedTo.Some? {
        var id, linked := rows[i].lookupId.value, rows[i].linkedTo.value;
        WithLinkIsGraph(rows, i, adjacency, id, linked);
        adjacency := adjacency[id := adjacency[id] + {linked}];
        if linked !in adjacency {
          adjacency := adjacency[linked := {}];
          order := order + [linked];
        }
        adjacency := adjacency[linked := adjacency[linked] + {id}];
      } else {
        NoLinkIsGraph(rows, i, adjacency);
      }
    }
    WholeGraph(rows, adjacency);
  }

  lemma WholeGraph(rows: seq<LookupRow>, adjacency: map<LookupId, set<LookupId>>)
    requires GraphUpTo(rows, |rows|, adjacency)
    ensures GraphOf(rows, adjacency)
  {
    assert rows[..|rows|] == rows;
    forall a ensures a in adjacency <==> Node(rows, a) {
    }
  }

  // ----- numbering components -----

  /** The set's elements in some order. */
  method Elements<T(==, !new)>(s: set<T>) returns (r: seq<T>)
    ensures forall x :: x in r <==> x in s
  {
    r := [];
    var rest := s;
    while rest != {}
      invariant forall x :: x in s <==> x in r || x in rest
      decreases rest
    {
      var x :| x in rest;
      r := r + [x];
      rest := rest - {x};
    }
  }

  /** Numbered ids are nodes; equal numbers mean connected, and finished components are closed. */
  ghost predicate Numbered(rows: seq<LookupRow>, component: map<LookupId, int>, open: int) {
    && (forall a :: a in component ==> Node(rows, a) && component[a] <= open)
    && (forall a, b {:trigger Connected(rows, a, b)} ::
           a in component && b in component && component[a] == component[b] ==> Connected(rows, a, b))
    && (forall a, b :: a in component && component[a] < open && Adjacent(rows, a, b) ==>
                         b in component && component[b] == component[a])
  }

  /** The component being filled from `root`: what is still to visit belongs to it. */
  ghost predicate Filling(
    rows: seq<LookupRow>, component: map<LookupId, int>, open: int, root: LookupId, pending: seq<LookupId>)
  {
    && Numbered(rows, component, open)
    && (forall p :: p in pending ==> Node(rows, p) && Connected(rows, root, p))
    && (forall p :: p in pending && p in component ==> component[p] == open)
    && (forall a :: a in component && component[a] == open ==> Connected(rows, root, a))
    && (forall a, b :: a in component && component[a] == open && Adjacent(rows, a, b) ==>
                         (b in component && component[b] == open) || b in pending)
    && (root in component ==> component[root] == open)
    && (root in component || root in pending)
  }

  /** The first key of its component in insertion order. */
  ghost predicate FirstOfComponent(rows: seq<LookupRow>, order: seq<LookupId>, i: nat)
    requires i < |order|
  {
    forall j :: 0 <= j < i ==> !Connected(rows, order[j], order[i])
  }

  ghost function ComponentsBefore(rows: seq<LookupRow>, order: seq<LookupId>, i: nat): nat
    requires i <= |order|
  {
    if i == 0 then 0
    else ComponentsBefore(rows, order, i - 1) + if FirstOfComponent(rows, order, i - 1) then 1 else 0
  }

  /** Every node is numbered, and numbers agree exactly on connected ids. */
  ghost predicate Separates(rows: seq<LookupRow>, component: map<LookupId, int>) {
    && (forall a :: a in component <==> Node(rows, a))
    && (forall a, b {:trigger Connected(rows, a, b)} ::
           a in component && b in component ==> (component[a] == component[b] <==> Connected(rows, a, b)))
  }

  /** Components are told apart, and numbered in the order their first key was inserted. */
  ghost predicate IsNumbering(rows: seq<LookupRow>, component: map<LookupId, int>) {
    && Separates(rows, component)
    && (forall a :: a in KeyOrder(rows) <==> Node(rows, a))
    && FirstsNumbered(rows, KeyOrder(rows), component, |KeyOrder(rows)|)
  }

  /** Each numbered id is connected to one of the first `n` keys. */
  ghost predicate Rooted(rows: seq<LookupRow>, order: seq<LookupId>, component: map<LookupId, int>, n: nat)
    requires n <= |order|
  {
    forall a :: a in component ==> exists j :: 0 <= j < n && Connected(rows, order[j], a)
  }

  ghost predicate FirstsNumbered(rows: seq<LookupRow>, order: seq<LookupId>, component: map<LookupId, int>, n: nat)
    requires n <= |order|
  {
    forall i :: 0 <= i < n && FirstOfComponent(rows, order, i) ==>
                  order[i] in component && component[order[i]] == ComponentsBefore(rows, order, i)
  }

  /** The first `i` keys are dealt with, in `open` finished components. */
  ghost predicate NumberedUpTo(
    rows: seq<LookupRow>, order: seq<LookupId>, component: map<LookupId, int>, open: int, i: nat)
    requires i <= |order|
  {
    && Numbered(rows, component, open) && (forall a :: a in component ==> component[a] < open)
    && (forall a :: a in order[..i] ==> a in component)
    && open == ComponentsBefore(rows, order, i)
    && Rooted(rows, order, component, i)
    && FirstsNumbered(rows, order, component, i)
  }

  method BuildComponents(rows: seq<LookupRow>) returns (component: map<LookupId, int>)
    ensures IsNumbering(rows, component)
  {
    var adjacency, order := BuildAdjacency(rows);
    component := map[];
    var componentId := 0;
    for i := 0 to |order|
      invariant NumberedUpTo(rows, order, component, componentId, i)
    {
      if order[i] !in component {
        assert order[i] in order;
        NewKeyIsFirst(rows, order, component, componentId, i);
        var filled := FillComponent(rows, adjacency, component, componentId, order[i]);
        FilledComponent(rows, order, component, filled, componentId, i);
        component := filled;
        componentId := componentId + 1;
      } else {
        KnownComponent(rows, order, component, componentId, i);
      }
    }
    AllNumbered(rows, order, component, componentId);
  }

  lemma NumberedKeyIsNotFirst(rows: seq<LookupRow>, order: seq<LookupId>, component: map<LookupId, int>, i: nat)
    requires i < |order| && Rooted(rows, order, component, i) && order[i] in component
    ensures !FirstOfComponent(rows, order, i)
  {
    assert exists j :: 0 <= j < i && Connected(rows, order[j], order[i]);
  }

  lemma OneMoreKey(order: seq<LookupId>, component: map<LookupId, int>, i: nat)
    requires i < |order| && order[i] in component && forall a :: a in order[..i] ==> a in component
    ensures forall a :: a in order[..i + 1] ==> a in component
  {
    assert order[..i + 1] == order[..i] + [order[i]];
  }

  lemma SkipIsNumbered(rows: seq<LookupRow>, order: seq<LookupId>, component: map<LookupId, int>, i: nat)
    requires i < |order| && FirstsNumbered(rows, order, component, i) && !FirstOfComponent(rows, order, i)
    ensures FirstsNumbered(rows, order, component, i + 1)
    ensures ComponentsBefore(rows, order, i + 1) == ComponentsBefore(rows, order, i)
  {
  }

  lemma KnownComponent(rows: seq<LookupRow>, order: seq<LookupId>, component: map<LookupId, int>, open: int, i: nat)
    requires i < |order| && NumberedUpTo(rows, order, component, open, i) && order[i] in component
    ensures NumberedUpTo(rows, order, component, open, i + 1)
  {
    OneMoreKey(order, component, i);
    NumberedKeyIsNotFirst(rows, order, component, i);
    SkipIsNumbered(rows, order, component, i);
    RootedGrows(rows, order, component, i);
  }

  lemma FilledComponent(
    rows: seq<LookupRow>, order: seq<LookupId>, component: map<LookupId, int>, filled: map<LookupId, int>, open: int,
    i: nat)
    requires i < |order| && NumberedUpTo(rows, order, component, open, i) && FirstOfComponent(rows, order, i)
    requires Numbered(rows, filled, open + 1) && forall a :: a in filled ==> filled[a] < open + 1
    requires order[i] in filled && filled[order[i]] == open
    requires forall a :: a in component ==> a in filled && filled[a] == component[a]
    requires forall a :: a in filled && a !in component ==> Connected(rows, order[i], a)
    ensures NumberedUpTo(rows, order, filled, open + 1, i + 1)
  {
    OneMoreKey(order, filled, i);
    FilledIsRooted(rows, order, component, filled, open, i);
    FilledNumbersFirst(rows, order, component, filled, open, i);
  }

  lemma AllNumbered(rows: seq<LookupRow>, order: seq<LookupId>, component: map<LookupId, int>, open: int)
    requires order == KeyOrder(rows) && (forall a :: a in order <==> Node(rows, a))
    requires NumberedUpTo(rows, order, component, open, |order|)
    ensures IsNumbering(rows, component)
  {
    assert order[..|order|] == order;
    forall a, b | a in component && b in component && Connected(rows, a, b) ensures component[a] == component[b] {
      var n: nat :| Reach(rows, a, b, n);
      ClosedUnderReach(rows, component, open, a, b, n);
    }
  }

  lemma RootedGrows(rows: seq<LookupRow>, order: seq<LookupId>, component: map<LookupId, int>, n: nat)
    requires n < |order| && Rooted(rows, order, component, n)
    ensures Rooted(rows, order, component, n + 1)
  {
    forall a | a in component ensures exists j :: 0 <= j < n + 1 && Connected(rows, order[j], a) {
      var j :| 0 <= j < n && Connected(rows, order[j], a);
    }
  }

  lemma NewKeyIsFirst(rows: seq<LookupRow>, order: seq<LookupId>, component: map<LookupId, int>, open: int, i: nat)
    requires i < |order| && order[i] !in component && forall a :: a in order[..i] ==> a in component
    requires Numbered(rows, component, open) && forall a :: a in component ==> component[a] < open
    ensures FirstOfComponent(rows, order, i)
  {
    forall j | 0 <= j < i ensures !Connected(rows, order[j], order[i]) {
      if Connected(rows, order[j], order[i]) {
        var n: nat :| Reach(rows, order[j], order[i], n);
        assert order[..i][j] in component;
        ClosedUnderReach(rows, component, open, order[j], order[i], n);
        assert false;
      }
    }
  }

  lemma FilledIsRooted(
    rows: seq<LookupRow>, order: seq<LookupId>, component: map<LookupId, int>, filled: map<LookupId, int>, open: int,
    i: nat)
    requires i < |order| && Rooted(rows, order, component, i)
    requires forall a :: a in filled && a !in component ==> Connected(rows, order[i], a)
    ensures Rooted(rows, order, filled, i + 1)
  {
    forall a | a in filled ensures exists j :: 0 <= j < i + 1 && Connected(rows, order[j], a) {
      if a in component {
        var j :| 0 <= j < i && Connected(rows, order[j], a);
      }
    }
  }

  lemma FilledNumbersFirst(
    rows: seq<LookupRow>, order: seq<LookupId>, component: map<LookupId, int>, filled: map<LookupId, int>, open: int,
    i: nat)
    requires i < |order| && FirstsNumbered(rows, order, component, i)
    requires FirstOfComponent(rows, order, i) && open == ComponentsBefore(rows, order, i)
    requires order[i] in filled && filled[order[i]] == open
    requires forall a :: a in component ==> a in filled && filled[a] == component[a]
    ensures FirstsNumbered(rows, order, filled, i + 1)
  {
  }

  /** The numbering is determined by the rows: computing it again gives the same numbers. */
  lemma NumberingIsUnique(rows: seq<LookupRow>, c1: map<LookupId, int>, c2: map<LookupId, int>)
    requires IsNumbering(rows, c1) && IsNumbering(rows, c2)
    ensures c1 == c2
  {
    var order := KeyOrder(rows);
    forall a | a in c1 ensures c1[a] == c2[a] {
      var i :| 0 <= i < |order| && order[i] == a;
      assert Reach(rows, a, a, 0);
      var r := FirstConnected(rows, order, a, i);
      assert order[r] in c1 && order[r] in c2;
      assert c1[order[r]] == c2[order[r]];
      assert c1[order[r]] == c1[a] && c2[order[r]] == c2[a];
    }
  }

  lemma {:induction false} FirstConnected(
    rows: seq<LookupRow>, order: seq<LookupId>, a: LookupId, i: nat) returns (r: nat)
    requires i < |order| && Connected(rows, order[i], a)
    ensures r <= i && Connected(rows, order[r], a) && FirstOfComponent(rows, order, r)
    decreases i
  {
    if FirstOfComponent(rows, order, i) {
      r := i;
    } else {
      var j :| 0 <= j < i && Connected(rows, order[j], order[i]);
      ConnectedTransitive(rows, order[j], order[i], a);
      r := FirstConnected(rows, order, a, j);
    }
  }

  lemma {:induction false} ClosedUnderReach(
    rows: seq<LookupRow>, component: map<LookupId, int>, open: int, a: LookupId, b: LookupId, n: nat)
    requires Numbered(rows, component, open) && a in component && component[a] < open && Reach(rows, a, b, n)
    ensures b in component && component[b] == component[a]
    decreases n
  {
    if n == 0 {
    } else {
      var c :| Adjacent(rows, a, c) && Reach(rows, c, b, n - 1);
      ClosedUnderReach(rows, component, open, c, b, n - 1);
    }
  }

  /** The stack loop: it may push an id twice, but visits each node at most once. */
  method FillComponent(
    rows: seq<LookupRow>, adjacency: map<LookupId, set<LookupId>>, component0: map<LookupId, int>, open: int,
    root: LookupId)
    returns (component: map<LookupId, int>)
    requires GraphOf(rows, adjacency) && root in adjacency && root !in component0
    requires Numbered(rows, component0, open) && forall a :: a in component0 ==> component0[a] < open
    ensures Numbered(rows, component, open + 1) && forall a :: a in component ==> component[a] < open + 1
    ensures root in component && component[root] == open
    ensures forall a :: a in component0 ==> a in component && component[a] == component0[a]
    ensures forall a :: a in component && a !in component0 ==> Connected(rows, root, a)
  {
    component := component0;
    var pending := [root];
    assert Reach(rows, root, root, 0);
    while pending != []
      invariant Filling(rows, component, open, root, pending)
      invariant forall a :: a in component0 ==> a in component && component[a] == component0[a]
      invariant forall a :: a in component && a !in component0 ==> component[a] == open
      decreases adjacency.Keys - component.Keys, |pending|
    {
      var current := pending[|pending| - 1];
      assert current in pending;
      var before := pending;
      pending := pending[..|pending| - 1];
      assert forall p :: p in before <==> p in pending || p == current;
      if current !in component {
        var neighbors := Elements(set b | b in adjacency[current] && b !in component && b != current);
        VisitKeepsFilling(rows, component, open, root, before, pending, current, neighbors);
        component := component[current := open];
        pending := pending + neighbors;
      }
    }
  }

  lemma VisitKeepsNumbered(
    rows: seq<LookupRow>, component: map<LookupId, int>, open: int, root: LookupId, current: LookupId)
    requires Numbered(rows, component, open) && current !in component && Node(rows, current)
             && Connected(rows, root, current)
    requires forall a :: a in component && component[a] == open ==> Connected(rows, root, a)
    ensures Numbered(rows, component[current := open], open)
  {
    var component' := component[current := open];
    forall a, b | a in component' && b in component' && component'[a] == component'[b] ensures Connected(rows, a, b) {
      if a == current || b == current {
        ConnectedSymmetric(rows, root, a);
        ConnectedTransitive(rows, a, root, b);
      }
    }
    forall a, b | a in component' && component'[a] < open && Adjacent(rows, a, b)
      ensures b in component' && component'[b] == component'[a]
    {
    }
  }

  lemma VisitKeepsFilling(rows: seq<LookupRow>, component: map<LookupId, int>, open: int, root: LookupId,
                          before: seq<LookupId>, rest: seq<LookupId>, current: LookupId, neighbors: seq<LookupId>)
    requires Filling(rows, component, open, root, before) && current in before && current !in component
    requires forall p :: p in before <==> p in rest || p == current
    requires forall b :: b in neighbors <==> Adjacent(rows, current, b) && b !in component && b != current
    ensures Filling(rows, component[current := open], open, root, rest + neighbors)
  {
    var component' := component[current := open];
    assert forall p :: p in rest + neighbors <==> p in rest || p in neighbors;
    VisitKeepsNumbered(rows, component, open, root, current);
    forall b | Adjacent(rows, current, b) ensures Node(rows, b) && Connected(rows, root, b) {
      AdjacentConnected(rows, current, b);
      ConnectedTransitive(rows, root, current, b);
      NeighborIsNode(rows, current, b);
    }
    forall b | Adjacent(rows, current, b)
      ensures (b in component' && component'[b] == open) || b in rest + neighbors
    {
      if b in component && component[b] < open {
        assert Adjacent(rows, b, current);
        assert false;
      }
    }
  }

  lemma NeighborIsNode(rows: seq<LookupRow>, a: LookupId, b: LookupId)
    requires Adjacent(rows, a, b)
    ensures Node(rows, b)
  {
    if Link(rows, b, a) {
      var i :| 0 <= i < |rows| && rows[i] == LookupRow(Some(b), Some(a));
      assert rows[i].lookupId == Some(b);
    }
  }

  // ----- chain tails -----

  ghost predicate IsLinkTarget(rows: seq<LookupRow>, a: LookupId) {
    exists i :: 0 <= i < |rows| && rows[i].linkedTo == Some(a)
  }

  /** `a` is a listed id of component `c` that nothing links to. */
  ghost predicate IsTail(rows: seq<LookupRow>, component: map<LookupId, int>, a: LookupId, c: int) {
    Listed(rows, a) && !IsLinkTarget(rows, a) && a in component && component[a] == c
  }

  /** For each component with an id nothing links to, one such id. */
  ghost predicate TailsOf(rows: seq<LookupRow>, component: map<LookupId, int>, tails: map<int, LookupId>) {
    && (forall a :: a in component && component[a] in tails ==>
        IsTail(rows, component, tails[component[a]], component[a]))
    && (forall a :: Listed(rows, a) && !IsLinkTarget(rows, a) && a in component ==> component[a] in tails)
  }

  /** Every id some row is linked to. */
  method LinkTargets(rows: seq<LookupRow>) returns (incoming: set<LookupId>)
    ensures forall a :: a in incoming <==> IsLinkTarget(rows, a)
  {
    incoming := {};
    for i := 0 to |rows|
      invariant forall a :: a in incoming ==> IsLinkTarget(rows, a)
      invariant forall k :: 0 <= k < i && rows[k].linkedTo.Some? ==> rows[k].linkedTo.value in incoming
    {
      if rows[i].linkedTo.Some? {
        assert rows[i].linkedTo == Some(rows[i].linkedTo.value);
        incoming := incoming + {rows[i].linkedTo.value};
      }
    }
  }

  /** The first row of each component that nothing links to. */
  method TailsByComponent(rows: seq<LookupRow>, component: map<LookupId, int>) returns (tails: map<int, LookupId>)
    ensures TailsOf(rows, component, tails)
  {
    var incoming := LinkTargets(rows);
    tails := map[];
    for i := 0 to |rows|
      invariant forall a :: a in component && component[a] in tails ==>
                IsTail(rows, component, tails[component[a]], component[a])
      invariant forall k :: 0 <= k < i && rows[k].lookupId.Some? && !IsLinkTarget(rows, rows[k].lookupId.value)
                            && rows[k].lookupId.value in component
                            ==> component[rows[k].lookupId.value] in tails
    {
      if rows[i].lookupId.Some? {
        var id := rows[i].lookupId.value;
        assert rows[i].lookupId == Some(id);
        if id in component && id !in incoming && component[id] !in tails {
          tails := tails[component[id] := id];
        }
      }
    }
  }

  method BuildChainTails(rows: seq<LookupRow>) returns (tails: map<int, LookupId>)
    ensures exists component :: IsNumbering(rows, component) && TailsOf(rows, component, tails)
  {
    var component := BuildComponents(rows);
    tails := TailsByComponent(rows, component);
  }
}
