/**
 * The unit orders of manual entry and the defaults carried down them:
 * the preorder flattening of the unit tree with the defaults propagated
 * from the root batch (`update_all_multi_units_comprehensive`), and the
 * order and defaults used when a batch is added to every unit
 * (`add_multi_unit_batch` with its `build_order`).
 */
module ManualHierarchy {
  import opened Wrappers
  import opened Sorting
  import opened ProductModels
  import opened ProductService
  import Usernames

  // ---------------------------------------------------------------------
  // Flattening the tree
  // ---------------------------------------------------------------------

  /** A unit in the flattened order: its id, its parent's id and its relation to the parent. */
  datatype FlatUnit = FlatUnit(id: int, parentId: Option<int>, relation: Option<int>)

  function FlatOf(u: UnitRow): FlatUnit { FlatUnit(u.id, u.parentId, u.relation) }

  /** `get_units_in_order`: the unit, then the flattening of each child in turn (preorder). */
  function Flatten(n: Node): (s: seq<FlatUnit>)
    ensures |s| > 0 && s[0] == FlatOf(n.unit)
    decreases n, 1
  {
    [FlatOf(n.unit)] + FlattenAll(n.children)
  }

  function FlattenAll(cs: seq<Node>): seq<FlatUnit>
    decreases cs, 0
  {
    if |cs| == 0 then [] else Flatten(cs[0]) + FlattenAll(cs[1..])
  }

  /** Every child records its parent's id: what `attach_children` builds. */
  ghost predicate Linked(n: Node)
    decreases n
  {
    forall c :: c in n.children ==> c.unit.parentId == Some(n.unit.id) && Linked(c)
  }

  /** Every unit's parent is in `above` or appears before it. */
  ghost predicate ParentBefore(s: seq<FlatUnit>, above: set<int>)
  {
    forall i :: 0 <= i < |s| ==> (s[i].parentId.Some? &&
      (s[i].parentId.value in above || exists j :: 0 <= j < i && s[j].id == s[i].parentId.value))
  }

  lemma ParentBeforeConcat(a: seq<FlatUnit>, b: seq<FlatUnit>, above: set<int>)
    requires ParentBefore(a, above) && ParentBefore(b, above)
    ensures ParentBefore(a + b, above)
  {
    var s := a + b;
    forall i | 0 <= i < |s|
      ensures s[i].parentId.Some? &&
        (s[i].parentId.value in above || exists j :: 0 <= j < i && s[j].id == s[i].parentId.value)
    {
      if i < |a| {
        assert s[i] == a[i];
        if a[i].parentId.value !in above {
          var j :| 0 <= j < i && a[j].id == a[i].parentId.value;
          assert s[j] == a[j];
        }
      } else {
        assert s[i] == b[i - |a|];
        if b[i - |a|].parentId.value !in above {
          var j :| 0 <= j < i - |a| && b[j].id == b[i - |a|].parentId.value;
          assert s[j + |a|] == b[j];
        }
      }
    }
  }

  lemma {:induction false} FlattenParentBefore(n: Node, parent: int)
    requires Linked(n) && n.unit.parentId == Some(parent)
    ensures ParentBefore(Flatten(n), {parent})
    decreases n, 1
  {
    FlattenAllParentBefore(n.children, n.unit.id);
    HeadThenParentBefore(FlatOf(n.unit), FlattenAll(n.children));
  }

  lemma {:induction false} FlattenAllParentBefore(cs: seq<Node>, parent: int)
    requires forall c :: c in cs ==> c.unit.parentId == Some(parent) && Linked(c)
    ensures ParentBefore(FlattenAll(cs), {parent})
    decreases cs, 0
  {
    if |cs| > 0 {
      assert cs[0] in cs;
      FlattenParentBefore(cs[0], parent);
      assert forall c :: c in cs[1..] ==> c in cs;
      FlattenAllParentBefore(cs[1..], parent);
      ParentBeforeConcat(Flatten(cs[0]), FlattenAll(cs[1..]), {parent});
    }
  }

  /** In the order from a linked tree every unit after the first has its parent earlier. */
  ghost predicate ParentsFirst(s: seq<FlatUnit>)
  {
    forall i :: 1 <= i < |s| ==> (s[i].parentId.Some? &&
      exists j :: 0 <= j < i && s[j].id == s[i].parentId.value)
  }

  lemma FlattenParentsFirst(n: Node)
    requires Linked(n)
    ensures ParentsFirst(Flatten(n))
  {
    FlattenAllParentBefore(n.children, n.unit.id);
    HeadThenParentBefore(FlatOf(n.unit), FlattenAll(n.children));
  }

  /** Units whose parents are the head or earlier: every one after the head has its parent earlier. */
  lemma HeadThenParentBefore(h: FlatUnit, rest: seq<FlatUnit>)
    requires ParentBefore(rest, {h.id})
    ensures ParentsFirst([h] + rest)
    ensures h.parentId.Some? ==> ParentBefore([h] + rest, {h.parentId.value})
  {
    var s := [h] + rest;
    forall i | 1 <= i < |s|
      ensures s[i].parentId.Some? && exists j :: 0 <= j < i && s[j].id == s[i].parentId.value
    {
      assert s[i] == rest[i - 1];
      if rest[i - 1].parentId.value == h.id {
        assert s[0].id == h.id;
      } else {
        var j :| 0 <= j < i - 1 && rest[j].id == rest[i - 1].parentId.value;
        assert s[j + 1] == rest[j];
      }
    }
  }

  /** The tree `get_product_hierarchy` builds is linked. */
  lemma {:induction false} AttachLinked(u: UnitRow, units: seq<UnitRow>, chain: seq<UnitRow>)
    requires DistinctIds(units) && IsChain(units, chain) && chain[|chain| - 1] == u
    ensures Linked(Attach(u, units, chain))
    decreases |IdsOf(units) - ChainIds(chain)|
  {
    var n := Attach(u, units, chain);
    var kids := ChildRows(units, u.id);
    forall c | c in n.children ensures Linked(c) {
      var i :| 0 <= i < |n.children| && n.children[i] == c;
      AttachChild(u, units, chain, i);
      AttachLinked(kids[i], units, chain + [kids[i]]);
    }
  }

  // ---------------------------------------------------------------------
  // Defaults from the root batch
  // ---------------------------------------------------------------------

  /** The batch a unit's defaults are labelled with: the selected root batch, or `CHILD_<id>`. */
  datatype Label = RootBatch(batchId: int, batchNumber: string) | ChildBatch(unitId: int)

  datatype UnitDefaults = UnitDefaults(
    origin: Label,
    buying: real,
    shipping: real,
    handling: real,
    quantity: int,
    expiry: Option<int>,
    landed: real,
    margin: real)

  /** A child's defaults: costs divided by its relation, quantity multiplied by it, expiry inherited, margin 0. */
  function ChildDefaults(unitId: int, p: UnitDefaults, relation: int): (d: UnitDefaults)
    requires relation != 0
    ensures d.buying * relation as real == p.buying && d.shipping * relation as real == p.shipping
    ensures d.handling * relation as real == p.handling
    ensures d.landed == d.buying + d.shipping + d.handling
    ensures d.quantity == p.quantity * relation && d.expiry == p.expiry && d.margin == 0.0
    ensures d.origin == ChildBatch(unitId)
  {
    var r := relation as real;
    UnitDefaults(ChildBatch(unitId), p.buying / r, p.shipping / r, p.handling / r, p.quantity * relation,
                 p.expiry, (p.buying + p.shipping + p.handling) / r, 0.0)
  }

  /** Whether unit `u` is given defaults from `m`: its parent id is set, non-zero and already has defaults. */
  predicate Inherits(u: FlatUnit, m: map<int, UnitDefaults>) {
    u.parentId.Some? && u.parentId.value != 0 && u.parentId.value in m
  }

  /**
   * The defaults after the first `n` units: the root gets the root batch's,
   * each later unit whose parent already has defaults gets the child
   * defaults. None when a relation used is NULL or zero (the division
   * raises and the update is rolled back).
   */
  function Propagate(units: seq<FlatUnit>, root: UnitDefaults, n: nat): (r: Option<map<int, UnitDefaults>>)
    requires 1 <= n <= |units|
  {
    if n == 1 then Some(map[units[0].id := root])
    else
      var prev := Propagate(units, root, n - 1);
      var u := units[n - 1];
      if prev.None? then None
      else if !Inherits(u, prev.value) then prev
      else if u.relation.None? || u.relation.value == 0 then None
      else Some(prev.value[u.id := ChildDefaults(u.id, prev.value[u.parentId.value], u.relation.value)])
  }

  method PropagateDefaults(units: seq<FlatUnit>, root: UnitDefaults) returns (r: Option<map<int, UnitDefaults>>)
    requires |units| > 0
    ensures r == Propagate(units, root, |units|)
  {
    var defaults := map[units[0].id := root];
    for i := 1 to |units|
      invariant Propagate(units, root, i) == Some(defaults)
    {
      var u := units[i];
      if u.parentId.Some? && u.parentId.value != 0 && u.parentId.value in defaults {
        if u.relation.None? || u.relation.value == 0 {
          PropagateStopped(units, root, i + 1, |units|);
          return None;
        }
        defaults := defaults[u.id := ChildDefaults(u.id, defaults[u.parentId.value], u.relation.value)];
      }
    }
    r := Some(defaults);
  }

  /** Once a division failed, the update stays failed. */
  lemma {:induction false} PropagateStopped(units: seq<FlatUnit>, root: UnitDefaults, a: nat, b: nat)
    requires 1 <= a <= b <= |units| && Propagate(units, root, a).None?
    ensures Propagate(units, root, b).None?
    decreases b - a
  {
    if a < b {
      PropagateStopped(units, root, a, b - 1);
    }
  }

  /** Units given defaults keep them. */
  lemma {:induction false} PropagateGrows(units: seq<FlatUnit>, root: UnitDefaults, a: nat, b: nat)
    requires 1 <= a <= b <= |units| && Propagate(units, root, b).Some?
    ensures Propagate(units, root, a).Some?
    ensures Propagate(units, root, a).value.Keys <= Propagate(units, root, b).value.Keys
    decreases b - a
  {
    if a < b {
      PropagateGrows(units, root, a, b - 1);
    }
  }

  /** The relations of every unit but the first are set and non-zero, and every id is non-zero (row ids start at 1). */
  predicate Usable(units: seq<FlatUnit>) {
    (forall i :: 0 <= i < |units| ==> units[i].id != 0)
    && forall i :: 1 <= i < |units| ==> units[i].relation.Some? && units[i].relation.value != 0
  }

  /**
   * With parents first, every unit of the order receives defaults: the
   * preorder of the tree is what makes the propagation reach every unit.
   */
  lemma {:induction false} PropagateCovers(units: seq<FlatUnit>, root: UnitDefaults, n: nat)
    requires 1 <= n <= |units| && ParentsFirst(units) && Usable(units)
    ensures Propagate(units, root, n).Some?
    ensures forall i :: 0 <= i < n ==> units[i].id in Propagate(units, root, n).value
  {
    if n > 1 {
      PropagateCovers(units, root, n - 1);
      var prev := Propagate(units, root, n - 1).value;
      var u := units[n - 1];
      var j :| 0 <= j < n - 1 && units[j].id == u.parentId.value;
      assert Inherits(u, prev);
    }
  }

  /** Every unit of a product's tree gets defaults from the root batch. */
  lemma HierarchyDefaultsCoverTree(units: seq<UnitRow>, root: UnitDefaults)
    requires DistinctIds(units)
    requires ProductHierarchy(units).Some?
    requires Usable(Flatten(ProductHierarchy(units).value))
    ensures var order := Flatten(ProductHierarchy(units).value);
      var r := Propagate(order, root, |order|);
      r.Some? && forall i :: 0 <= i < |order| ==> order[i].id in r.value
  {
    var t := ProductHierarchy(units).value;
    var k := FirstRoot(units).value;
    AttachLinked(units[k], units, [units[k]]);
    FlattenParentsFirst(t);
    var order := Flatten(t);
    PropagateCovers(order, root, |order|);
  }

  // ---------------------------------------------------------------------
  // Adding a batch to every unit
  // ---------------------------------------------------------------------

  /** A unit row of `add_multi_unit_batch`: id, relation (1 when the row has none) and parent. */
  datatype OrderUnit = OrderUnit(id: int, relation: int, parentId: Option<int>)

  /** The direct children of `parentId` among `children`, in row order. */
  function DirectKids(children: seq<OrderUnit>, parentId: int): (r: seq<OrderUnit>)
    ensures forall c :: c in r <==> c in children && c.parentId == Some(parentId)
    ensures |r| <= |children|
  {
    if |children| == 0 then []
    else
      var rest := DirectKids(children[1..], parentId);
      if children[0].parentId == Some(parentId) then [children[0]] + rest else rest
  }

  function RelationNotBelow(a: OrderUnit, b: OrderUnit): bool { a.relation >= b.relation }

  /** `direct_kids.sort(key=relation, reverse=True)`: stable, largest relation first. */
  function SortedKids(children: seq<OrderUnit>, parentId: int): seq<OrderUnit>
  {
    SortBy(DirectKids(children, parentId), RelationNotBelow)
  }

  /** The children of a unit come largest relation first, and are exactly its direct children. */
  lemma SortedKidsRule(children: seq<OrderUnit>, parentId: int)
    ensures SortedBy(SortedKids(children, parentId), RelationNotBelow)
    ensures multiset(SortedKids(children, parentId)) == multiset(DirectKids(children, parentId))
  {
    assert TotalPreorder(RelationNotBelow);
    SortBySorted(DirectKids(children, parentId), RelationNotBelow);
  }

  /**
   * `build_order`: the unit, then each child's order, children sorted by
   * relation, largest first. `depth` bounds the recursion (see README).
   */
  function BuildOrder(p: OrderUnit, children: seq<OrderUnit>, depth: nat): (s: seq<OrderUnit>)
    ensures |s| > 0 && s[0] == p
    decreases depth, 0
  {
    [p] + (if depth == 0 then [] else BuildOrderAll(SortedKids(children, p.id), children, depth - 1))
  }

  function BuildOrderAll(ks: seq<OrderUnit>, children: seq<OrderUnit>, depth: nat): seq<OrderUnit>
    decreases depth, 1, |ks|
  {
    if |ks| == 0 then [] else BuildOrder(ks[0], children, depth) + BuildOrderAll(ks[1..], children, depth)
  }

  /** Every unit of the order is the parent unit or a child row. */
  lemma {:induction false} BuildOrderMembers(p: OrderUnit, children: seq<OrderUnit>, depth: nat)
    ensures forall u :: u in BuildOrder(p, children, depth) ==> u == p || u in children
    decreases depth, 0
  {
    if depth > 0 {
      var ks := SortedKids(children, p.id);
      var rest := BuildOrderAll(ks, children, depth - 1);
      assert BuildOrder(p, children, depth) == [p] + rest;
      BuildOrderAllMembers(ks, children, depth - 1);
      SortedKidsAreChildren(children, p.id);
    }
  }

  lemma SortedKidsAreChildren(children: seq<OrderUnit>, parentId: int)
    ensures forall u :: u in SortedKids(children, parentId) ==> u in children && u.parentId == Some(parentId)
  {
    SortedKidsRule(children, parentId);
    forall u | u in SortedKids(children, parentId) ensures u in children && u.parentId == Some(parentId) {
      assert u in multiset(DirectKids(children, parentId));
    }
  }

  lemma {:induction false} BuildOrderAllMembers(ks: seq<OrderUnit>, children: seq<OrderUnit>, depth: nat)
    ensures forall u :: u in BuildOrderAll(ks, children, depth) ==> u in ks || u in children
    decreases depth, 1, |ks|
  {
    if |ks| > 0 {
      BuildOrderMembers(ks[0], children, depth);
      BuildOrderAllMembers(ks[1..], children, depth);
    }
  }

  /** The unit `add_multi_unit_batch` starts from: the last row without a parent. */
  function LastRoot(rows: seq<OrderUnit>): (r: Option<nat>)
    ensures r.Some? ==> (r.value < |rows| && rows[r.value].parentId.None?
      && forall j :: r.value < j < |rows| ==> rows[j].parentId.Some?)
    ensures r.None? <==> forall k :: 0 <= k < |rows| ==> rows[k].parentId.Some?
  {
    if |rows| == 0 then None
    else if rows[|rows| - 1].parentId.None? then Some(|rows| - 1)
    else LastRoot(rows[..|rows| - 1])
  }

  function WithParent(rows: seq<OrderUnit>): (r: seq<OrderUnit>)
    ensures forall u :: u in r <==> u in rows && u.parentId.Some?
  {
    if |rows| == 0 then []
    else if rows[0].parentId.Some? then [rows[0]] + WithParent(rows[1..]) else WithParent(rows[1..])
  }

  /** A unit in the order of `add_multi_unit_batch`, marked when it is the largest unit. */
  datatype OrderedUnit = OrderedUnit(unit: OrderUnit, isParent: bool)

  /**
   * The order of `add_multi_unit_batch`: from the last row without a parent,
   * the rest by `build_order`; with no such row, the rows as given and none
   * marked as the largest.
   */
  function BatchUnitOrder(rows: seq<OrderUnit>): (s: seq<OrderedUnit>)
    ensures LastRoot(rows).Some? ==> |s| > 0 && s[0].isParent && s[0].unit == rows[LastRoot(rows).value]
    ensures LastRoot(rows).Some? ==> forall i :: 1 <= i < |s| ==> !s[i].isParent
    ensures LastRoot(rows).None? ==> |s| == |rows| && forall i :: 0 <= i < |s| ==> s[i] == OrderedUnit(rows[i], false)
  {
    match LastRoot(rows)
    case None => seq(|rows|, i requires 0 <= i < |rows| => OrderedUnit(rows[i], false))
    case Some(k) =>
      var children := WithParent(rows);
      var order := BuildOrder(rows[k], children, |children|);
      seq(|order|, i requires 0 <= i < |order| => OrderedUnit(order[i], i == 0))
  }

  // ---------------------------------------------------------------------
  // The depth bound of build_order never cuts
  // ---------------------------------------------------------------------

  /** The unit rows of one product: ids are the table's primary key. */
  predicate DistinctOrderIds(rows: seq<OrderUnit>)
  {
    forall i, j :: 0 <= i < j < |rows| ==> rows[i].id != rows[j].id
  }

  /** The root and the child rows have distinct ids, as the rows of one product do. */
  predicate OrderIdsApart(root: OrderUnit, children: seq<OrderUnit>)
  {
    DistinctOrderIds(children) && forall c :: c in children ==> c.id != root.id
  }

  /** The walk `build_order` takes down to a unit: the root, then each unit a child of the one before. */
  ghost predicate OrderChain(root: OrderUnit, children: seq<OrderUnit>, chain: seq<OrderUnit>)
    decreases |chain|
  {
    && |chain| > 0
    && (|chain| == 1 ==> chain[0] == root)
    && (|chain| > 1 ==>
          chain[|chain| - 1] in children && chain[|chain| - 1].parentId == Some(chain[|chain| - 2].id)
          && OrderChain(root, children, chain[..|chain| - 1]))
  }

  lemma SameOrderId(rows: seq<OrderUnit>, x: OrderUnit, y: OrderUnit)
    requires DistinctOrderIds(rows) && x in rows && y in rows && x.id == y.id
    ensures x == y
  {
    var i :| 0 <= i < |rows| && rows[i] == x;
    var j :| 0 <= j < |rows| && rows[j] == y;
  }

  /** Two walks that end at the same id are the same walk. */
  lemma {:induction false} OrderChainsUnique(root: OrderUnit, children: seq<OrderUnit>, a: seq<OrderUnit>, b: seq<OrderUnit>)
    requires OrderIdsApart(root, children) && OrderChain(root, children, a) && OrderChain(root, children, b)
    requires a[|a| - 1].id == b[|b| - 1].id
    ensures a == b
    decreases |a|
  {
    if |a| > 1 && |b| > 1 {
      SameOrderId(children, a[|a| - 1], b[|b| - 1]);
      OrderChainsUnique(root, children, a[..|a| - 1], b[..|b| - 1]);
      assert a == a[..|a| - 1] + [a[|a| - 1]];
      assert b == b[..|b| - 1] + [b[|b| - 1]];
    }
  }

  lemma {:induction false} OrderChainPrefix(root: OrderUnit, children: seq<OrderUnit>, chain: seq<OrderUnit>, m: int)
    requires OrderChain(root, children, chain) && 0 < m <= |chain|
    ensures OrderChain(root, children, chain[..m])
    decreases |chain|
  {
    if m < |chain| {
      OrderChainPrefix(root, children, chain[..|chain| - 1], m);
      assert chain[..|chain| - 1][..m] == chain[..m];
    } else {
      assert chain[..m] == chain;
    }
  }

  lemma OrderChainInChildren(root: OrderUnit, children: seq<OrderUnit>, chain: seq<OrderUnit>, k: int)
    requires OrderChain(root, children, chain) && 0 < k < |chain|
    ensures chain[k] in children
  {
    OrderChainPrefix(root, children, chain, k + 1);
    assert chain[..k + 1][k] == chain[k];
  }

  /** A walk never comes back to a unit it has passed. */
  lemma OrderChainDistinct(root: OrderUnit, children: seq<OrderUnit>, chain: seq<OrderUnit>)
    requires OrderIdsApart(root, children) && OrderChain(root, children, chain)
    ensures DistinctOrderIds(chain)
  {
    forall i, j | 0 <= i < j < |chain| ensures chain[i].id != chain[j].id {
      if chain[i].id == chain[j].id {
        OrderChainPrefix(root, children, chain, i + 1);
        OrderChainPrefix(root, children, chain, j + 1);
        OrderChainsUnique(root, children, chain[..i + 1], chain[..j + 1]);
      }
    }
  }

  function OrderIds(s: seq<OrderUnit>): set<int>
  {
    set u | u in s :: u.id
  }

  lemma {:induction false} OrderIdsCount(s: seq<OrderUnit>)
    ensures |OrderIds(s)| <= |s|
    ensures DistinctOrderIds(s) ==> |OrderIds(s)| == |s|
  {
    if |s| > 0 {
      var init := s[..|s| - 1];
      OrderIdsCount(init);
      assert OrderIds(s) == OrderIds(init) + {s[|s| - 1].id} by {
        assert forall u :: u in s <==> u in init || u == s[|s| - 1];
      }
      if DistinctOrderIds(s) {
        assert DistinctOrderIds(init);
        forall u | u in init ensures u.id != s[|s| - 1].id {
          var k :| 0 <= k < |init| && init[k] == u;
        }
      }
    }
  }

  /** A walk passes each child row at most once, so it is at most one longer than the child rows. */
  lemma OrderChainFits(root: OrderUnit, children: seq<OrderUnit>, chain: seq<OrderUnit>)
    requires OrderIdsApart(root, children) && OrderChain(root, children, chain)
    ensures |chain| <= |children| + 1
  {
    OrderChainDistinct(root, children, chain);
    var below := chain[1..];
    assert DistinctOrderIds(below) by {
      forall i, j | 0 <= i < j < |below| ensures below[i].id != below[j].id {
        assert below[i] == chain[i + 1] && below[j] == chain[j + 1];
      }
    }
    forall u | u in below ensures u in children {
      var k :| 0 <= k < |below| && below[k] == u;
      OrderChainInChildren(root, children, chain, k + 1);
    }
    Usernames.SubsetSize(OrderIds(below), OrderIds(children));
    OrderIdsCount(below);
    OrderIdsCount(children);
  }

  /** A child row of the unit a walk ends at extends the walk. */
  lemma KidExtendsOrderChain(root: OrderUnit, children: seq<OrderUnit>, chain: seq<OrderUnit>, k: OrderUnit)
    requires OrderChain(root, children, chain)
    requires k in SortedKids(children, chain[|chain| - 1].id)
    ensures OrderChain(root, children, chain + [k])
  {
    SortedKidsAreChildren(children, chain[|chain| - 1].id);
    assert (chain + [k])[..|chain|] == chain;
  }

  /** A walk longer than the child rows ends at a unit without child rows. */
  lemma LongChainEnds(root: OrderUnit, children: seq<OrderUnit>, chain: seq<OrderUnit>)
    requires OrderIdsApart(root, children) && OrderChain(root, children, chain)
    requires |chain| > |children|
    ensures SortedKids(children, chain[|chain| - 1].id) == []
  {
    var ks := SortedKids(children, chain[|chain| - 1].id);
    if |ks| > 0 {
      KidExtendsOrderChain(root, children, chain, ks[0]);
      OrderChainFits(root, children, chain + [ks[0]]);
    }
  }

  /**
   * Below the end of a walk that leaves at most `d` more child rows to
   * pass, one more level of depth changes nothing.
   */
  lemma {:induction false} BuildOrderSettles(root: OrderUnit, children: seq<OrderUnit>, chain: seq<OrderUnit>, d: nat)
    requires OrderIdsApart(root, children) && OrderChain(root, children, chain)
    requires d + |chain| > |children|
    ensures BuildOrder(chain[|chain| - 1], children, d) == BuildOrder(chain[|chain| - 1], children, d + 1)
    decreases d, 0
  {
    var p := chain[|chain| - 1];
    var ks := SortedKids(children, p.id);
    if d == 0 {
      LongChainEnds(root, children, chain);
      assert BuildOrderAll(ks, children, 0) == [];
    } else {
      BuildOrderAllSettles(root, children, chain, ks, d - 1);
    }
  }

  lemma {:induction false} BuildOrderAllSettles(root: OrderUnit, children: seq<OrderUnit>, chain: seq<OrderUnit>,
                                                ks: seq<OrderUnit>, d: nat)
    requires OrderIdsApart(root, children) && OrderChain(root, children, chain)
    requires forall k :: k in ks ==> k in SortedKids(children, chain[|chain| - 1].id)
    requires d + |chain| + 1 > |children|
    ensures BuildOrderAll(ks, children, d) == BuildOrderAll(ks, children, d + 1)
    decreases d, 1, |ks|
  {
    if |ks| > 0 {
      assert ks[0] in ks;
      assert forall k :: k in ks[1..] ==> k in ks;
      KidExtendsOrderChain(root, children, chain, ks[0]);
      BuildOrderSettles(root, children, chain + [ks[0]], d);
      BuildOrderAllSettles(root, children, chain, ks[1..], d);
    }
  }

  /** The child rows of one product's rows keep their distinct ids, and none has the root's id. */
  lemma {:induction false} WithParentApart(rows: seq<OrderUnit>, k: nat)
    requires DistinctOrderIds(rows) && k < |rows| && rows[k].parentId.None?
    ensures OrderIdsApart(rows[k], WithParent(rows))
  {
    var children := WithParent(rows);
    WithParentDistinct(rows);
    forall c | c in children ensures c.id != rows[k].id {
      if c.id == rows[k].id {
        assert rows[k] in rows;
        SameOrderId(rows, c, rows[k]);
      }
    }
  }

  lemma {:induction false} WithParentDistinct(rows: seq<OrderUnit>)
    requires DistinctOrderIds(rows)
    ensures DistinctOrderIds(WithParent(rows))
  {
    if |rows| > 0 {
      var rest := WithParent(rows[1..]);
      WithParentDistinct(rows[1..]);
      if rows[0].parentId.Some? {
        forall j | 0 <= j < |rest| ensures rest[j].id != rows[0].id {
          assert rest[j] in rows[1..];
          var k :| 0 <= k < |rows[1..]| && rows[1..][k] == rest[j];
          assert rows[k + 1] == rest[j];
        }
        var r := [rows[0]] + rest;
        forall i, j | 0 <= i < j < |r| ensures r[i].id != r[j].id {
          if i > 0 {
            assert r[i] == rest[i - 1] && r[j] == rest[j - 1];
          } else {
            assert r[j] == rest[j - 1];
          }
        }
      }
    }
  }

  /**
   * `build_order` recurses without a bound; the model bounds it by the
   * number of child rows. When the root and the child rows have distinct
   * ids (as one product's rows do, see `WithParentApart`) that bound never
   * cuts: any deeper bound gives the same order.
   */
  lemma {:induction false} BuildOrderDepthSuffices(root: OrderUnit, children: seq<OrderUnit>, m: nat)
    requires OrderIdsApart(root, children)
    ensures BuildOrder(root, children, |children| + m) == BuildOrder(root, children, |children|)
    decreases m
  {
    if m > 0 {
      BuildOrderDepthSuffices(root, children, m - 1);
      var chain := [root];
      assert chain[|chain| - 1] == root;
      BuildOrderSettles(root, children, chain, |children| + m - 1);
    }
  }

  /**
   * What the loop offers for one unit: the default stock and the data
   * passed for its cost defaults, or the exception the fallback division
   * raises (ZeroDivisionError for a zero relation, TypeError for a NULL
   * cost), which ends `add_multi_unit_batch`.
   */
  datatype UnitPlan = UnitPlan(defaultStock: int, parent: Option<ParentData>) | DivisionRaises

  /** `get_current_product_data` for a unit: None when the product is not found. */
  function CurrentOf(currents: map<int, CurrentData>, id: int): Option<CurrentData> {
    if id in currents then Some(currents[id]) else None
  }

  /**
   * The plan for one unit once `parentQuantity` and `rootCosts` were
   * recorded. The largest unit gets its stored stock and no parent data.
   * Another unit gets the largest unit's entered quantity times its own
   * relation and the largest unit's costs passed as one-element tuples;
   * when there is no largest unit, its stored stock and its own current
   * costs divided by its relation (zeros without current data).
   */
  function PlanFor(u: OrderedUnit, currentStock: int, current: Option<CurrentData>,
                   parentQuantity: Option<int>, rootCosts: Option<ProductCosts>): UnitPlan
  {
    var rel := u.unit.relation;
    var stock := if u.isParent || parentQuantity.None? then currentStock else parentQuantity.value * rel;
    if u.isParent then UnitPlan(stock, None)
    else if rootCosts.Some? then
      UnitPlan(stock, Some(ParentData(rel as real, Tuple([rootCosts.value.buyingPrice]),
                                      Tuple([rootCosts.value.shippingCost]), Tuple([rootCosts.value.handlingCost]))))
    else if current.None? then
      UnitPlan(stock, Some(ParentData(rel as real, Number(0.0), Number(0.0), Number(0.0))))
    else
      var c := current.value;
      if rel == 0 || c.shipping.None? || c.handling.None? then DivisionRaises
      else UnitPlan(stock, Some(ParentData(rel as real, Number(c.buying / rel as real),
                                           Number(c.shipping.value / rel as real), Number(c.handling.value / rel as real))))
  }

  /** `current_stocks.get(unit_id, 0)`. */
  function StockOf(stocks: map<int, int>, id: int): int { if id in stocks then stocks[id] else 0 }

  /** The plans of the first `n` units; the largest unit's entered quantity and costs are kept for those after it. */
  function Plans(order: seq<OrderedUnit>, stocks: map<int, int>, currents: map<int, CurrentData>,
                 entered: seq<int>, costs: seq<ProductCosts>, n: nat): (r: (seq<UnitPlan>, Option<int>, Option<ProductCosts>))
    requires n <= |order| && |entered| == |order| && |costs| == |order|
    ensures |r.0| == n
  {
    if n == 0 then ([], None, None)
    else
      var (plans, pq, pc) := Plans(order, stocks, currents, entered, costs, n - 1);
      var u := order[n - 1];
      var plan := PlanFor(u, StockOf(stocks, u.unit.id), CurrentOf(currents, u.unit.id), pq, pc);
      (plans + [plan], if u.isParent then Some(entered[n - 1]) else pq, if u.isParent then Some(costs[n - 1]) else pc)
  }

  /**
   * The loop of `add_multi_unit_batch` over the units: `entered[i]` is the
   * quantity confirmed for unit i, `costs[i]` the costs confirmed for it
   * and `currents` the current data of the units. It stops at the first
   * unit whose fallback division raises.
   */
  method PlanMultiUnitBatch(order: seq<OrderedUnit>, stocks: map<int, int>, currents: map<int, CurrentData>,
                            entered: seq<int>, costs: seq<ProductCosts>)
    returns (plans: seq<UnitPlan>)
    requires |entered| == |order| && |costs| == |order|
    ensures |plans| <= |order| && plans == Plans(order, stocks, currents, entered, costs, |plans|).0
    ensures |plans| < |order| ==> |plans| > 0 && plans[|plans| - 1].DivisionRaises?
    ensures forall j :: 0 <= j < |plans| && plans[j].DivisionRaises? ==> j == |plans| - 1
  {
    plans := [];
    var parentQuantity: Option<int> := None;
    var parentCosts: Option<ProductCosts> := None;
    for i := 0 to |order|
      invariant (plans, parentQuantity, parentCosts) == Plans(order, stocks, currents, entered, costs, i)
      invariant forall j :: 0 <= j < i ==> !plans[j].DivisionRaises?
    {
      var u := order[i];
      var plan := PlanFor(u, StockOf(stocks, u.unit.id), CurrentOf(currents, u.unit.id), parentQuantity, parentCosts);
      plans := plans + [plan];
      if plan.DivisionRaises? {
        return;
      }
      if u.isParent {
        parentQuantity := Some(entered[i]);
        parentCosts := Some(costs[i]);
      }
    }
  }

  /**
   * With the largest unit first, every other unit is offered the largest
   * unit's entered quantity times its own relation, and, for a positive
   * relation, the largest unit's costs divided by that relation: a
   * grandchild is measured against the largest unit with its own relation,
   * not with the product of the relations above it.
   */
  lemma {:induction false} PlansFromLargest(order: seq<OrderedUnit>, stocks: map<int, int>, currents: map<int, CurrentData>,
                                            entered: seq<int>, costs: seq<ProductCosts>, n: nat, i: nat)
    requires |entered| == |order| && |costs| == |order| && |order| > 0
    requires order[0].isParent && forall k :: 1 <= k < |order| ==> !order[k].isParent
    requires 1 <= i < n <= |order|
    ensures var plan := Plans(order, stocks, currents, entered, costs, n).0[i];
      plan.UnitPlan?
      && plan.defaultStock == entered[0] * order[i].unit.relation
      && (order[i].unit.relation > 0 ==>
            SmartDefaults(None, false, plan.parent, None).buying == Some(costs[0].buyingPrice / order[i].unit.relation as real))
  {
    ParentRecorded(order, stocks, currents, entered, costs, n - 1);
    if i < n - 1 {
      PlansFromLargest(order, stocks, currents, entered, costs, n - 1, i);
    }
  }

  lemma {:induction false} ParentRecorded(order: seq<OrderedUnit>, stocks: map<int, int>, currents: map<int, CurrentData>,
                                          entered: seq<int>, costs: seq<ProductCosts>, n: nat)
    requires |entered| == |order| && |costs| == |order| && |order| > 0
    requires order[0].isParent && forall k :: 1 <= k < |order| ==> !order[k].isParent
    requires 1 <= n <= |order|
    ensures Plans(order, stocks, currents, entered, costs, n).1 == Some(entered[0])
    ensures Plans(order, stocks, currents, entered, costs, n).2 == Some(costs[0])
  {
    if n > 1 {
      ParentRecorded(order, stocks, currents, entered, costs, n - 1);
    }
  }

  /**
   * With no largest unit in the order, a unit with a positive relation and
   * current data is offered its own current buying price divided by the
   * relation twice: once before the call and once inside it.
   */
  lemma FallbackDividesTwice(u: OrderedUnit, currentStock: int, c: CurrentData, pq: Option<int>)
    requires !u.isParent && u.unit.relation > 0 && c.shipping.Some? && c.handling.Some?
    ensures var plan := PlanFor(u, currentStock, Some(c), pq, None);
      plan.UnitPlan?
      && SmartDefaults(None, false, plan.parent, None).buying
           == Some(c.buying / u.unit.relation as real / u.unit.relation as real)
  {
  }

  /** With no largest unit, a zero relation or a NULL cost makes the fallback division raise. */
  lemma FallbackRaises(u: OrderedUnit, currentStock: int, c: CurrentData, pq: Option<int>)
    requires !u.isParent && (u.unit.relation == 0 || c.shipping.None? || c.handling.None?)
    ensures PlanFor(u, currentStock, Some(c), pq, None).DivisionRaises?
  {
  }
}
