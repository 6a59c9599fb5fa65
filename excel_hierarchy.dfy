/**
 * The unit hierarchy of an Excel import (carton -> pack -> piece): the map
 * from each unit to its big unit, relation and values, the path from a unit
 * up its chain of big units, the cumulative relation along that path, the
 * nearest unit on the chain that carries values, and the child values filled
 * in from it.
 *
 * A row's RELATION_OF_UNITY is how many of its unit make one big unit, so a
 * cost is divided and a quantity multiplied going down.
 */
module ExcelHierarchy {
  import opened Wrappers
  import opened Text
  import opened Rounding

  // ---------------------------------------------------------------------
  // Cells and rows
  // ---------------------------------------------------------------------

  /** A numeric cell as the sheet reader hands it over: empty, a number, or text `float()` rejects. */
  datatype Cell = Blank | Value(x: real) | Unparsable

  /** `safe_float`: the number, or None for an empty or unreadable cell. */
  function SafeFloat(c: Cell): (r: Option<real>)
    ensures r.Some? <==> c.Value?
    ensures r.Some? ==> r.value == c.x
  {
    if c.Value? then Some(c.x) else None
  }

  /** A text cell: empty (NaN to the sheet reader) or holding text. */
  datatype TextCell = Missing | Text(s: string)

  /** `str()` of a text cell: an empty cell reads as "nan". */
  function Str(c: TextCell): (r: string)
    ensures c.Text? ==> r == c.s
    ensures c.Missing? ==> r == "nan"
  {
    match c
    case Missing => "nan"
    case Text(s) => s
  }

  /** A sheet row with the columns the hierarchy reads. */
  datatype SheetRow = SheetRow(name: TextCell, unit: TextCell, bigUnit: TextCell, relation: Cell,
                               stock: Cell, buying: Cell, shipping: Cell, handling: Cell, threshold: Cell)

  /** The relation of a row: 1.0 unless the cell holds a positive number. */
  function RelationOf(c: Cell): (r: real)
    ensures r > 0.0
    ensures c.Value? && c.x > 0.0 ==> r == c.x
    ensures !(c.Value? && c.x > 0.0) ==> r == 1.0
  {
    match c
    case Value(x) => if x <= 0.0 then 1.0 else x
    case _ => 1.0
  }

  /**
   * A row counts when its NAME cell is filled and not blank and its unit is
   * not blank, both after stripping (an empty UNIT cell reads as "nan").
   */
  predicate Listed(row: SheetRow) {
    row.name.Text? && Strip(row.name.s) != "" && Strip(Str(row.unit)) != ""
  }

  /** A field that is present and positive. */
  predicate Positive(x: Option<real>) {
    x.Some? && x.value > 0.0
  }

  /** A row carries values when one of stock, buying, shipping or handling is present and positive. */
  predicate HasValues(row: SheetRow) {
    Positive(SafeFloat(row.stock)) || Positive(SafeFloat(row.buying))
    || Positive(SafeFloat(row.shipping)) || Positive(SafeFloat(row.handling))
  }

  /** The map entry of a unit. */
  datatype Entry = Entry(bigUnit: Option<string>, relation: real, hasValues: bool,
                         stock: Option<real>, buying: Option<real>, shipping: Option<real>,
                         handling: Option<real>, threshold: Option<real>, productName: string)

  function EntryOf(row: SheetRow): (e: Entry)
  {
    var big := Strip(Str(row.bigUnit));
    Entry(if big != "" then Some(big) else None, RelationOf(row.relation), HasValues(row),
          SafeFloat(row.stock), SafeFloat(row.buying), SafeFloat(row.shipping), SafeFloat(row.handling),
          SafeFloat(row.threshold), Strip(Str(row.name)))
  }

  type Hierarchy = map<string, Entry>

  /** The unit a row defines with its entry, or None for a row that is skipped. */
  function Keyed(row: SheetRow): (k: Option<(string, Entry)>)
    ensures k.Some? <==> Listed(row)
  {
    if Listed(row) then Some((Strip(Str(row.unit)), EntryOf(row))) else None
  }

  /** Each row read through `Keyed`. */
  function KeyedRows(rows: seq<SheetRow>): (ks: seq<Option<(string, Entry)>>)
    ensures |ks| == |rows|
    ensures forall i :: 0 <= i < |rows| ==> ks[i] == Keyed(rows[i])
  {
    seq(|rows|, i requires 0 <= i < |rows| => Keyed(rows[i]))
  }

  /** The map the keyed rows build, each (re)defining its unit in turn. */
  function MapOf(ks: seq<Option<(string, Entry)>>): Hierarchy
  {
    if |ks| == 0 then map[]
    else
      var before := MapOf(ks[..|ks| - 1]);
      match ks[|ks| - 1]
      case None => before
      case Some((u, e)) => before[u := e]
  }

  /** `build_product_hierarchy`. */
  function HierarchyOf(rows: seq<SheetRow>): Hierarchy
  {
    MapOf(KeyedRows(rows))
  }

  lemma MapStep(ks: seq<Option<(string, Entry)>>, i: nat)
    requires i < |ks|
    ensures MapOf(ks[..i + 1]) ==
      if ks[i].Some? then MapOf(ks[..i])[ks[i].value.0 := ks[i].value.1] else MapOf(ks[..i])
  {
    assert ks[..i + 1][..i] == ks[..i];
  }

  method BuildProductHierarchy(rows: seq<SheetRow>) returns (h: Hierarchy)
    ensures h == HierarchyOf(rows)
  {
    ghost var ks := KeyedRows(rows);
    h := map[];
    for i := 0 to |rows|
      invariant h == MapOf(ks[..i])
    {
      MapStep(ks, i);
      var row := rows[i];
      if row.name.Text? && Strip(row.name.s) != "" {
        var unit := Strip(Str(row.unit));
        if unit != "" {
          h := h[unit := EntryOf(row)];
        }
      }
    }
    assert ks[..|rows|] == ks;
  }

  /** The index of the last of the first `n` keyed rows that defines `unit`. */
  function LastDefining(ks: seq<Option<(string, Entry)>>, unit: string, n: nat): (r: Option<nat>)
    requires n <= |ks|
    ensures r.Some? ==> (r.value < n && ks[r.value].Some? && ks[r.value].value.0 == unit
      && forall j :: r.value < j < n ==> !(ks[j].Some? && ks[j].value.0 == unit))
    ensures r.None? ==> forall i :: 0 <= i < n ==> !(ks[i].Some? && ks[i].value.0 == unit)
  {
    if n == 0 then None
    else if ks[n - 1].Some? && ks[n - 1].value.0 == unit then Some(n - 1)
    else LastDefining(ks, unit, n - 1)
  }

  lemma {:induction false} PrefixEntries(ks: seq<Option<(string, Entry)>>, unit: string, n: nat)
    requires n <= |ks|
    ensures unit in MapOf(ks[..n]) <==> LastDefining(ks, unit, n).Some?
    ensures unit in MapOf(ks[..n]) ==> MapOf(ks[..n])[unit] == ks[LastDefining(ks, unit, n).value].value.1
  {
    if n > 0 {
      PrefixEntries(ks, unit, n - 1);
      MapStep(ks, n - 1);
    }
  }

  /**
   * The map holds exactly the units of listed rows, and a unit's entry is
   * that of the last listed row for it: rows without a name or unit are
   * skipped and a later row for a unit overwrites an earlier one.
   */
  lemma HierarchyEntries(rows: seq<SheetRow>, unit: string)
    ensures unit in HierarchyOf(rows) <==> exists i :: 0 <= i < |rows| && Keyed(rows[i]).Some? && Keyed(rows[i]).value.0 == unit
    ensures unit in HierarchyOf(rows) ==> exists i :: (0 <= i < |rows| && Listed(rows[i]) && Strip(Str(rows[i].unit)) == unit
      && HierarchyOf(rows)[unit] == EntryOf(rows[i])
      && forall j :: i < j < |rows| ==> !(Keyed(rows[j]).Some? && Keyed(rows[j]).value.0 == unit))
  {
    var ks := KeyedRows(rows);
    PrefixEntries(ks, unit, |rows|);
    assert ks[..|rows|] == ks;
    var r := LastDefining(ks, unit, |rows|);
    if r.Some? {
      assert Keyed(rows[r.value]) == ks[r.value];
    }
  }

  /** What every map `build_product_hierarchy` makes satisfies. */
  predicate WellFormed(h: Hierarchy) {
    forall u :: u in h ==> u != "" && h[u].relation > 0.0 && (h[u].bigUnit.Some? ==> h[u].bigUnit.value != "")
  }

  lemma {:induction false} MapWellFormed(ks: seq<Option<(string, Entry)>>)
    requires forall i :: 0 <= i < |ks| && ks[i].Some? ==>
      ks[i].value.0 != "" && ks[i].value.1.relation > 0.0
      && (ks[i].value.1.bigUnit.Some? ==> ks[i].value.1.bigUnit.value != "")
    ensures WellFormed(MapOf(ks))
  {
    if |ks| > 0 {
      MapWellFormed(ks[..|ks| - 1]);
    }
  }

  /** Keys are non-empty units, relations positive, and a big unit is never the empty name. */
  lemma BuiltHierarchyWellFormed(rows: seq<SheetRow>)
    ensures WellFormed(HierarchyOf(rows))
  {
    MapWellFormed(KeyedRows(rows));
  }

  // ---------------------------------------------------------------------
  // The path up the chain of big units
  // ---------------------------------------------------------------------

  /** One element of `hierarchy_path`. */
  datatype PathStep = PathStep(unit: string, relation: real, parent: Option<string>)

  function StepOf(u: string, h: Hierarchy): PathStep
    requires u in h
  {
    PathStep(u, h[u].relation, h[u].bigUnit)
  }

  lemma Shrinks(keys: set<string>, visited: set<string>, p: string)
    requires p in keys && p !in visited
    ensures |keys - (visited + {p})| < |keys - visited|
  {
    assert keys - visited == (keys - (visited + {p})) + {p};
  }

  /**
   * The path above `current` (already on the path and in `visited`): follow
   * the big unit until there is none, it was visited, or it is not in the
   * map, in which case it is added with relation 1 and ends the path.
   */
  function PathFrom(current: string, h: Hierarchy, visited: set<string>): seq<PathStep>
    requires current in h
    decreases |h.Keys - visited|
  {
    match h[current].bigUnit
    case None => []
    case Some(p) =>
      if p == "" || p in visited then []
      else if p in h then
        Shrinks(h.Keys, visited, p);
        [StepOf(p, h)] + PathFrom(p, h, visited + {p})
      else [PathStep(p, 1.0, None)]
  }

  /** `build_hierarchy_path`: the unit itself (when in the map), then the units above it. */
  function HierarchyPath(start: string, h: Hierarchy): seq<PathStep>
  {
    if start !in h then []
    else [StepOf(start, h)] + (if start != "" then PathFrom(start, h, {start}) else [])
  }

  method BuildHierarchyPath(start: string, h: Hierarchy) returns (path: seq<PathStep>)
    ensures path == HierarchyPath(start, h)
  {
    path := [];
    var current := start;
    var visited: set<string> := {};
    if current in h {
      path := [StepOf(current, h)];
      visited := {current};
    }
    while current != "" && current in h
      invariant start in h && start != "" ==>
        current in h && current != "" && current in visited
        && path + PathFrom(current, h, visited) == HierarchyPath(start, h)
      invariant !(start in h && start != "") ==> path == HierarchyPath(start, h) && !(current != "" && current in h)
      decreases |h.Keys - visited|
    {
      var parent := h[current].bigUnit;
      StopAtParent(path, current, h, visited);
      if parent.None? || parent.value == "" || parent.value in visited {
        break;
      }
      var p := parent.value;
      if p in h {
        FollowParent(path, current, h, visited, p);
        path := path + [StepOf(p, h)];
        visited := visited + {p};
        current := p;
      } else {
        path := path + [PathStep(p, 1.0, None)];
        break;
      }
    }
  }

  /** Where the loop stops at `current`, the rest of the path is empty or the one unit outside the map. */
  lemma StopAtParent(path: seq<PathStep>, current: string, h: Hierarchy, visited: set<string>)
    requires current in h
    ensures var parent := h[current].bigUnit;
      (parent.None? || parent.value == "" || parent.value in visited ==> path + PathFrom(current, h, visited) == path)
      && (parent.Some? && parent.value != "" && parent.value !in visited && parent.value !in h ==>
            path + PathFrom(current, h, visited) == path + [PathStep(parent.value, 1.0, None)])
  {
    assert path + [] == path;
  }

  /** A big unit in the map and not yet visited is the next step, and fewer units remain unvisited. */
  lemma FollowParent(path: seq<PathStep>, current: string, h: Hierarchy, visited: set<string>, p: string)
    requires current in h && h[current].bigUnit == Some(p) && p != "" && p !in visited && p in h
    ensures |h.Keys - (visited + {p})| < |h.Keys - visited|
    ensures path + PathFrom(current, h, visited) == (path + [StepOf(p, h)]) + PathFrom(p, h, visited + {p})
  {
    Shrinks(h.Keys, visited, p);
    assert PathFrom(current, h, visited) == [StepOf(p, h)] + PathFrom(p, h, visited + {p});
  }

  /** Pairwise different units. */
  predicate DistinctUnits(path: seq<PathStep>) {
    forall i, j :: 0 <= i < j < |path| ==> path[i].unit != path[j].unit
  }

  /** Each step but the last is a map unit whose big unit is the next step. */
  predicate Linked(path: seq<PathStep>, h: Hierarchy) {
    forall i :: 0 <= i < |path| - 1 ==>
      path[i].unit in h && h[path[i].unit].bigUnit == Some(path[i + 1].unit)
  }

  /** Steps taken from the map carry its entry's relation; one outside it carries 1. */
  predicate Faithful(path: seq<PathStep>, h: Hierarchy) {
    forall i :: 0 <= i < |path| ==>
      (path[i].unit in h ==> path[i].relation == h[path[i].unit].relation)
      && (path[i].unit !in h ==> path[i].relation == 1.0 && i == |path| - 1)
  }

  lemma {:induction false} PathFromAvoids(current: string, h: Hierarchy, visited: set<string>)
    requires current in h
    ensures var r := PathFrom(current, h, visited);
      (forall i :: 0 <= i < |r| ==> r[i].unit !in visited)
      && (|r| > 0 ==> h[current].bigUnit == Some(r[0].unit))
    decreases |h.Keys - visited|
  {
    match h[current].bigUnit
    case None =>
    case Some(p) =>
      if p != "" && p !in visited && p in h {
        Shrinks(h.Keys, visited, p);
        PathFromAvoids(p, h, visited + {p});
      }
  }

  lemma {:induction false} PathFromDistinct(current: string, h: Hierarchy, visited: set<string>)
    requires current in h
    ensures DistinctUnits(PathFrom(current, h, visited))
    decreases |h.Keys - visited|
  {
    match h[current].bigUnit
    case None =>
    case Some(p) =>
      if p != "" && p !in visited && p in h {
        Shrinks(h.Keys, visited, p);
        PathFromDistinct(p, h, visited + {p});
        PathFromAvoids(p, h, visited + {p});
        PrependDistinct(StepOf(p, h), PathFrom(p, h, visited + {p}));
      }
  }

  /** A step whose unit the rest does not use can go in front of distinct steps. */
  lemma PrependDistinct(s: PathStep, rest: seq<PathStep>)
    requires DistinctUnits(rest)
    requires forall i :: 0 <= i < |rest| ==> rest[i].unit != s.unit
    ensures DistinctUnits([s] + rest)
  {
    var r := [s] + rest;
    assert forall i :: 1 <= i < |r| ==> r[i] == rest[i - 1];
  }

  lemma {:induction false} PathFromLinked(current: string, h: Hierarchy, visited: set<string>)
    requires current in h
    ensures Linked(PathFrom(current, h, visited), h)
    decreases |h.Keys - visited|
  {
    match h[current].bigUnit
    case None =>
    case Some(p) =>
      if p != "" && p !in visited && p in h {
        Shrinks(h.Keys, visited, p);
        PathFromLinked(p, h, visited + {p});
        PathFromAvoids(p, h, visited + {p});
        var rest := PathFrom(p, h, visited + {p});
        var r := [StepOf(p, h)] + rest;
        assert forall i :: 1 <= i < |r| ==> r[i] == rest[i - 1];
      }
  }

  lemma {:induction false} PathFromFaithful(current: string, h: Hierarchy, visited: set<string>)
    requires current in h
    ensures Faithful(PathFrom(current, h, visited), h)
    decreases |h.Keys - visited|
  {
    match h[current].bigUnit
    case None =>
    case Some(p) =>
      if p != "" && p !in visited && p in h {
        Shrinks(h.Keys, visited, p);
        PathFromFaithful(p, h, visited + {p});
        var rest := PathFrom(p, h, visited + {p});
        var r := [StepOf(p, h)] + rest;
        assert forall i :: 1 <= i < |r| ==> r[i] == rest[i - 1];
      }
  }

  lemma PathFromShape(current: string, h: Hierarchy, visited: set<string>)
    requires current in h
    ensures var r := PathFrom(current, h, visited);
      (forall i :: 0 <= i < |r| ==> r[i].unit !in visited)
      && DistinctUnits(r) && Linked(r, h) && Faithful(r, h)
      && (|r| > 0 ==> h[current].bigUnit == Some(r[0].unit))
  {
    PathFromAvoids(current, h, visited);
    PathFromDistinct(current, h, visited);
    PathFromLinked(current, h, visited);
    PathFromFaithful(current, h, visited);
  }

  /**
   * The path starts at the unit (when it is in the map), climbs one big unit
   * per step, never repeats a unit, carries the map's relations, and only
   * its last step may lie outside the map, with relation 1.
   */
  lemma PathShape(start: string, h: Hierarchy)
    ensures var path := HierarchyPath(start, h);
      (|path| > 0 <==> start in h)
      && (|path| > 0 ==> path[0].unit == start)
      && DistinctUnits(path) && Linked(path, h) && Faithful(path, h)
  {
    if start in h && start != "" {
      PathFromShape(start, h, {start});
      var rest := PathFrom(start, h, {start});
      var path := [StepOf(start, h)] + rest;
      assert forall i :: 1 <= i < |path| ==> path[i] == rest[i - 1];
    }
  }

  // ---------------------------------------------------------------------
  // Cumulative relation
  // ---------------------------------------------------------------------

  /** The first position at or after `i` whose unit is `target`. */
  function IndexFrom(path: seq<PathStep>, target: string, i: nat): (r: Option<nat>)
    requires i <= |path|
    ensures r.Some? ==> (i <= r.value < |path| && path[r.value].unit == target
      && forall j :: i <= j < r.value ==> path[j].unit != target)
    ensures r.None? ==> forall j :: i <= j < |path| ==> path[j].unit != target
    decreases |path| - i
  {
    if i == |path| then None
    else if path[i].unit == target then Some(i)
    else IndexFrom(path, target, i + 1)
  }

  function IndexOfUnit(path: seq<PathStep>, target: string): Option<nat>
  {
    IndexFrom(path, target, 0)
  }

  /** The product of the relations of steps `lo` to `hi - 1`. */
  function RelationProduct(path: seq<PathStep>, lo: nat, hi: nat): real
    requires lo <= hi <= |path|
    decreases hi - lo
  {
    if lo == hi then 1.0 else RelationProduct(path, lo, hi - 1) * path[hi - 1].relation
  }

  /**
   * `calculate_cumulative_relation`: the product of the relations from the
   * target's first position up to, but not including, the last step; 1 for
   * an empty path or a target not on it.
   */
  function CumulativeRelation(path: seq<PathStep>, target: string): real
  {
    if |path| == 0 then 1.0
    else match IndexOfUnit(path, target)
      case None => 1.0
      case Some(k) => RelationProduct(path, k, |path| - 1)
  }

  method CalculateCumulativeRelation(path: seq<PathStep>, target: string) returns (cumulative: real)
    ensures cumulative == CumulativeRelation(path, target)
  {
    if |path| == 0 {
      return 1.0;
    }
    var targetIndex := -1;
    var i := 0;
    while i < |path|
      invariant 0 <= i <= |path|
      invariant forall j :: 0 <= j < i ==> path[j].unit != target
    {
      if path[i].unit == target {
        targetIndex := i;
        break;
      }
      i := i + 1;
    }
    if targetIndex == -1 {
      return 1.0;
    }
    cumulative := 1.0;
    for j := targetIndex to |path| - 1
      invariant cumulative == RelationProduct(path, targetIndex, j)
    {
      cumulative := cumulative * path[j].relation;
    }
  }

  lemma {:induction false} RelationProductPositive(path: seq<PathStep>, lo: nat, hi: nat)
    requires lo <= hi <= |path|
    requires forall i :: lo <= i < hi ==> path[i].relation > 0.0
    ensures RelationProduct(path, lo, hi) > 0.0
    decreases hi - lo
  {
    if lo < hi {
      RelationProductPositive(path, lo, hi - 1);
      var a := RelationProduct(path, lo, hi - 1);
      var b := path[hi - 1].relation;
      assert a * b > 0.0 by {
        assert a > 0.0 && b > 0.0;
      }
    }
  }

  /** The product over adjacent ranges is the product of the two. */
  lemma {:induction false} RelationProductSplit(path: seq<PathStep>, lo: nat, mid: nat, hi: nat)
    requires lo <= mid <= hi <= |path|
    ensures RelationProduct(path, lo, hi) == RelationProduct(path, lo, mid) * RelationProduct(path, mid, hi)
    decreases hi - mid
  {
    if mid < hi {
      RelationProductSplit(path, lo, mid, hi - 1);
      var a := RelationProduct(path, lo, mid);
      var b := RelationProduct(path, mid, hi - 1);
      var c := path[hi - 1].relation;
      assert (a * b) * c == a * (b * c);
    }
  }

  /** The reasoning one level at a time: a unit's cumulative relation is its own relation times its big unit's. */
  lemma CumulativeSteps(path: seq<PathStep>, i: nat)
    requires DistinctUnits(path)
    requires i + 1 < |path|
    ensures CumulativeRelation(path, path[i].unit) == path[i].relation * CumulativeRelation(path, path[i + 1].unit)
  {
    assert IndexOfUnit(path, path[i].unit) == Some(i);
    assert IndexOfUnit(path, path[i + 1].unit) == Some(i + 1);
    RelationProductSplit(path, i, i + 1, |path| - 1);
  }

  /** Every relation on a path read from a well-formed map is positive. */
  lemma PathRelationsPositive(start: string, h: Hierarchy)
    requires WellFormed(h)
    ensures var path := HierarchyPath(start, h); forall i :: 0 <= i < |path| ==> path[i].relation > 0.0
  {
    PathShape(start, h);
  }

  /**
   * For a unit of the map, the cumulative relation is the product of the
   * relations along its whole path but the last step, and it is positive.
   */
  lemma CumulativeOfStart(unit: string, h: Hierarchy)
    requires WellFormed(h)
    requires unit in h
    ensures var path := HierarchyPath(unit, h);
      CumulativeRelation(path, unit) == RelationProduct(path, 0, |path| - 1)
      && CumulativeRelation(path, unit) > 0.0
  {
    PathShape(unit, h);
    PathRelationsPositive(unit, h);
    var path := HierarchyPath(unit, h);
    assert IndexOfUnit(path, unit) == Some(0);
    RelationProductPositive(path, 0, |path| - 1);
  }

  // ---------------------------------------------------------------------
  // The unit whose values are used
  // ---------------------------------------------------------------------

  /** `find_parent_with_values_recursive`: the nearest unit up the chain, from `unit` itself, that carries values. */
  function FindWithValues(unit: string, h: Hierarchy, visited: set<string>): Option<Entry>
    decreases |h.Keys - visited|
  {
    if unit in visited || unit !in h then None
    else if h[unit].hasValues then Some(h[unit])
    else if h[unit].bigUnit.Some? && h[unit].bigUnit.value != "" then
      Shrinks(h.Keys, visited, unit);
      FindWithValues(h[unit].bigUnit.value, h, visited + {unit})
    else None
  }

  /** A step whose unit is in the map and carries values. */
  predicate Supplies(s: PathStep, h: Hierarchy) {
    s.unit in h && h[s.unit].hasValues
  }

  /** The position of the first step of the path that carries values. */
  function Supplier(path: seq<PathStep>, h: Hierarchy): (r: Option<nat>)
    ensures r.Some? ==> (r.value < |path| && Supplies(path[r.value], h)
      && forall j :: 0 <= j < r.value ==> !Supplies(path[j], h))
    ensures r.None? ==> forall j :: 0 <= j < |path| ==> !Supplies(path[j], h)
  {
    if |path| == 0 then None
    else if Supplies(path[0], h) then Some(0)
    else match Supplier(path[1..], h)
      case None => None
      case Some(k) => Some(k + 1)
  }

  function SupplierEntry(path: seq<PathStep>, h: Hierarchy): Option<Entry>
  {
    match Supplier(path, h)
    case None => None
    case Some(k) => Some(h[path[k].unit])
  }

  lemma {:induction false} FindFollowsPath(current: string, h: Hierarchy, visited: set<string>)
    requires current in h && current !in visited
    ensures FindWithValues(current, h, visited)
      == SupplierEntry([StepOf(current, h)] + PathFrom(current, h, visited + {current}), h)
    decreases |h.Keys - visited|
  {
    var path := [StepOf(current, h)] + PathFrom(current, h, visited + {current});
    assert path[1..] == PathFrom(current, h, visited + {current});
    if !h[current].hasValues {
      Shrinks(h.Keys, visited, current);
      var w := visited + {current};
      match h[current].bigUnit
      case None =>
      case Some(p) =>
        if p != "" && p !in w && p in h {
          Shrinks(h.Keys, w, p);
          FindFollowsPath(p, h, w);
        } else if p != "" && p !in w {
          assert PathFrom(current, h, w) == [PathStep(p, 1.0, None)];
          assert Supplier(path[1..], h) == None by {
            assert !Supplies(path[1..][0], h);
            assert path[1..][1..] == [];
          }
        }
    }
  }

  /**
   * The recursive search finds exactly the first unit on the unit's path
   * that carries values, and nothing when no unit on the path does.
   */
  lemma FindIsPathSupplier(unit: string, h: Hierarchy)
    requires unit != ""
    ensures FindWithValues(unit, h, {}) == SupplierEntry(HierarchyPath(unit, h), h)
  {
    if unit in h {
      FindFollowsPath(unit, h, {});
      assert {} + {unit} == {unit};
    }
  }

  // ---------------------------------------------------------------------
  // Child values
  // ---------------------------------------------------------------------

  /** The five values a row gives (None where the cell is empty or unreadable). */
  datatype Given = Given(stock: Option<real>, buying: Option<real>, shipping: Option<real>,
                         handling: Option<real>, threshold: Option<real>)

  /** The tuple handed back: stock, buying price, shipping cost, handling cost, low-stock threshold. */
  datatype Quantities = Quantities(stock: real, buying: real, shipping: real, handling: real, threshold: real)

  datatype Field = StockField | BuyingField | ShippingField | HandlingField | ThresholdField

  /** Costs are divided going down; quantities are multiplied. */
  predicate IsCost(f: Field) {
    f.BuyingField? || f.ShippingField? || f.HandlingField?
  }

  function GivenField(g: Given, f: Field): Option<real>
  {
    match f
    case StockField => g.stock
    case BuyingField => g.buying
    case ShippingField => g.shipping
    case HandlingField => g.handling
    case ThresholdField => g.threshold
  }

  function EntryField(e: Entry, f: Field): Option<real>
  {
    match f
    case StockField => e.stock
    case BuyingField => e.buying
    case ShippingField => e.shipping
    case HandlingField => e.handling
    case ThresholdField => e.threshold
  }

  function Get(q: Quantities, f: Field): real
  {
    match f
    case StockField => q.stock
    case BuyingField => q.buying
    case ShippingField => q.shipping
    case HandlingField => q.handling
    case ThresholdField => q.threshold
  }

  function Set(q: Quantities, f: Field, v: real): (r: Quantities)
    ensures forall g :: Get(r, g) == if g == f then v else Get(q, g)
  {
    match f
    case StockField => q.(stock := v)
    case BuyingField => q.(buying := v)
    case ShippingField => q.(shipping := v)
    case HandlingField => q.(handling := v)
    case ThresholdField => q.(threshold := v)
  }

  lemma QuantitiesEqual(a: Quantities, b: Quantities)
    requires forall f :: Get(a, f) == Get(b, f)
    ensures a == b
  {
    assert Get(a, StockField) == Get(b, StockField) && Get(a, BuyingField) == Get(b, BuyingField);
    assert Get(a, ShippingField) == Get(b, ShippingField) && Get(a, HandlingField) == Get(b, HandlingField);
    assert Get(a, ThresholdField) == Get(b, ThresholdField);
  }

  /** The fields a row leaves empty, in the order the code lists them. */
  function MissingFields(g: Given): (r: seq<Field>)
    ensures forall f :: f in r <==> GivenField(g, f).None?
  {
    (if g.stock.None? then [StockField] else [])
    + (if g.buying.None? then [BuyingField] else [])
    + (if g.shipping.None? then [ShippingField] else [])
    + (if g.handling.None? then [HandlingField] else [])
    + (if g.threshold.None? then [ThresholdField] else [])
  }

  /** Whether filling the missing fields divides (some cost is missing). */
  predicate Divides(g: Given) {
    exists f :: IsCost(f) && GivenField(g, f).None?
  }

  /** The values as given, 0 for an empty one (`x if x is not None else 0`). */
  function Defaults(g: Given): Quantities
  {
    Quantities(g.stock.GetOr(0.0), g.buying.GetOr(0.0), g.shipping.GetOr(0.0),
               g.handling.GetOr(0.0), g.threshold.GetOr(0.0))
  }

  /** A missing field taken from `parent`: a cost divided by `n` and rounded to cents, a quantity multiplied by `n`. */
  function ScaledFrom(parent: Entry, f: Field, n: real): real
    requires n != 0.0 || !IsCost(f)
  {
    var v := EntryField(parent, f).GetOr(0.0);
    if IsCost(f) then Round2(v / n) else v * n
  }

  /** `calculate_child_values`: the given values, with each missing one taken from `parent` scaled by `n`. */
  function ChildValues(g: Given, parent: Entry, n: real): Quantities
    requires n != 0.0 || !Divides(g)
  {
    Quantities(
      if g.stock.Some? then g.stock.value else ScaledFrom(parent, StockField, n),
      if g.buying.Some? then g.buying.value else ScaledFrom(parent, BuyingField, n),
      if g.shipping.Some? then g.shipping.value else ScaledFrom(parent, ShippingField, n),
      if g.handling.Some? then g.handling.value else ScaledFrom(parent, HandlingField, n),
      if g.threshold.Some? then g.threshold.value else ScaledFrom(parent, ThresholdField, n))
  }

  /** The loop of `calculate_child_values` over the missing fields. */
  method CalculateChildValues(g: Given, parent: Entry, n: real) returns (q: Quantities)
    requires n != 0.0 || !Divides(g)
    ensures q == ChildValues(g, parent, n)
  {
    q := Defaults(g);
    var missing := MissingFields(g);
    for i := 0 to |missing|
      invariant forall f :: Get(q, f) == if f in missing[..i] then ScaledFrom(parent, f, n) else GivenField(g, f).GetOr(0.0)
    {
      assert missing[..i + 1] == missing[..i] + [missing[i]];
      q := Set(q, missing[i], ScaledFrom(parent, missing[i], n));
    }
    assert missing[..|missing|] == missing;
    FilledAreChildValues(q, g, parent, n);
  }

  lemma FilledAreChildValues(q: Quantities, g: Given, parent: Entry, n: real)
    requires n != 0.0 || !Divides(g)
    requires forall f :: Get(q, f) == if f in MissingFields(g) then ScaledFrom(parent, f, n) else GivenField(g, f).GetOr(0.0)
    ensures q == ChildValues(g, parent, n)
  {
    QuantitiesEqual(q, ChildValues(g, parent, n));
  }

  /**
   * A given value is kept; a missing quantity is the parent's times `n`; a
   * missing cost, times `n`, is within half a cent per unit of the parent's
   * (0 stands in for a parent value that is absent).
   */
  lemma ChildValuesRule(g: Given, parent: Entry, n: real, f: Field)
    requires n > 0.0
    ensures var v := Get(ChildValues(g, parent, n), f);
      var pv := EntryField(parent, f).GetOr(0.0);
      (GivenField(g, f).Some? ==> v == GivenField(g, f).value)
      && (GivenField(g, f).None? && !IsCost(f) ==> v == pv * n)
      && (GivenField(g, f).None? && IsCost(f) ==> pv - 0.005 * n < v * n <= pv + 0.005 * n)
  {
    var pv := EntryField(parent, f).GetOr(0.0);
    if GivenField(g, f).None? && IsCost(f) {
      CostScaling(pv, n);
    }
  }

  /** A cost divided by `n` and rounded to cents, times `n`, is within half a cent per unit of the cost. */
  lemma CostScaling(pv: real, n: real)
    requires n > 0.0
    ensures pv - 0.005 * n < Round2(pv / n) * n <= pv + 0.005 * n
  {
    Round2Bounds(pv / n);
    ScaleBounds(pv / n, Round2(pv / n), n, pv);
  }

  lemma ScaleBounds(x: real, v: real, n: real, pv: real)
    requires n > 0.0 && x == pv / n
    requires x - 0.005 < v <= x + 0.005
    ensures pv - 0.005 * n < v * n <= pv + 0.005 * n
  {
    var lo := v - (x - 0.005);
    var hi := x + 0.005 - v;
    MulPositive(lo, n);
    MulNonNegative(hi, n);
    assert x * n == pv;
    assert lo * n == v * n - pv + 0.005 * n;
    assert hi * n == pv + 0.005 * n - v * n;
  }

  lemma MulPositive(a: real, b: real)
    requires a > 0.0 && b > 0.0
    ensures a * b > 0.0
  {
  }

  lemma MulNonNegative(a: real, b: real)
    requires a >= 0.0 && b > 0.0
    ensures a * b >= 0.0
  {
  }

  // ---------------------------------------------------------------------
  // check_and_calculate_relation_values
  // ---------------------------------------------------------------------

  /** The values for a row and whether they were derived from a unit up its chain. */
  datatype Calculated = Calculated(values: Quantities, isChild: bool)

  /**
   * `check_and_calculate_relation_values` AS WRITTEN, after reading the row:
   * the divisor is the relation from the unit to the top of its path, even
   * when the values come from a unit part way up. A division by zero ends in
   * the exception handler, which returns the defaults.
   */
  function CalculateAsWritten(g: Given, unit: string, h: Hierarchy): Calculated
  {
    if |h| == 0 || unit == "" then Calculated(Defaults(g), false)
    else
      var path := HierarchyPath(unit, h);
      if |path| == 0 then Calculated(Defaults(g), false)
      else
        var cumulative := CumulativeRelation(path, unit);
        match FindWithValues(unit, h, {})
        case None => Calculated(Defaults(g), false)
        case Some(parent) =>
          if cumulative == 0.0 && Divides(g) then Calculated(Defaults(g), false)
          else Calculated(ChildValues(g, parent, cumulative), true)
  }

  /** The relation from the first step up to the supplying unit: how many of the unit make one of the supplier. */
  function SupplierRelation(path: seq<PathStep>, h: Hierarchy): real
  {
    match Supplier(path, h)
    case None => 1.0
    case Some(k) => RelationProduct(path, 0, k)
  }

  /** The same with the divisor corrected to the relation from the unit to the unit whose values are used. */
  function Calculate(g: Given, unit: string, h: Hierarchy): Calculated
  {
    if |h| == 0 || unit == "" then Calculated(Defaults(g), false)
    else
      var path := HierarchyPath(unit, h);
      if |path| == 0 then Calculated(Defaults(g), false)
      else
        var n := SupplierRelation(path, h);
        match FindWithValues(unit, h, {})
        case None => Calculated(Defaults(g), false)
        case Some(parent) =>
          if n == 0.0 && Divides(g) then Calculated(Defaults(g), false)
          else Calculated(ChildValues(g, parent, n), true)
  }

  /**
   * On a well-formed map, a row's values are derived exactly when its unit is
   * in the map and some unit on its path carries values; otherwise they are
   * the row's own, with 0 for the empty ones.
   */
  lemma CalculateRule(g: Given, unit: string, h: Hierarchy)
    requires WellFormed(h)
    ensures var c := Calculate(g, unit, h);
      (c.isChild <==> unit != "" && unit in h && Supplier(HierarchyPath(unit, h), h).Some?)
      && (!c.isChild ==> c.values == Defaults(g))
  {
    if unit != "" {
      FindIsPathSupplier(unit, h);
      PathShape(unit, h);
      if unit in h {
        SupplierRelationPositive(unit, h);
      }
    }
  }

  lemma SupplierRelationPositive(unit: string, h: Hierarchy)
    requires WellFormed(h)
    requires unit in h
    ensures SupplierRelation(HierarchyPath(unit, h), h) > 0.0
  {
    var path := HierarchyPath(unit, h);
    PathRelationsPositive(unit, h);
    match Supplier(path, h)
    case None =>
    case Some(k) => RelationProductPositive(path, 0, k);
  }

  /**
   * Derived values come from the first unit on the path that carries values,
   * each missing field scaled by the product of the relations of the units
   * below it: the number of the row's unit in one supplying unit.
   */
  lemma CalculateScaling(g: Given, unit: string, h: Hierarchy)
    requires WellFormed(h)
    requires Calculate(g, unit, h).isChild
    ensures var path := HierarchyPath(unit, h);
      var k := Supplier(path, h);
      k.Some? && path[0].unit == unit
      && Calculate(g, unit, h).values == ChildValues(g, h[path[k.value].unit], RelationProduct(path, 0, k.value))
      && RelationProduct(path, 0, k.value) > 0.0
  {
    CalculateRule(g, unit, h);
    FindIsPathSupplier(unit, h);
    PathShape(unit, h);
    SupplierRelationPositive(unit, h);
  }

  /**
   * The divisor the code uses is the corrected one times the relations from
   * the supplying unit to the end of the path: the two agree only when the
   * supplier is the last unit or those relations multiply to 1. The path the
   * code builds starts at the unit (`PathStartsAtUnit`).
   */
  lemma AsWrittenDivisor(path: seq<PathStep>, h: Hierarchy, unit: string)
    requires IndexOfUnit(path, unit) == Some(0)
    requires Supplier(path, h).Some?
    ensures CumulativeRelation(path, unit) == SupplierRelation(path, h) * AboveSupplier(path, h)
  {
    var k := Supplier(path, h).value;
    RelationProductSplit(path, 0, k, |path| - 1);
  }

  /** The relations from the supplying unit to the end of the path (1 with no supplier). */
  function AboveSupplier(path: seq<PathStep>, h: Hierarchy): real
    requires |path| > 0
  {
    match Supplier(path, h)
    case None => 1.0
    case Some(k) => RelationProduct(path, k, |path| - 1)
  }

  /** The hierarchy path of a unit in the hierarchy starts with that unit. */
  lemma PathStartsAtUnit(unit: string, h: Hierarchy)
    requires unit in h
    ensures IndexOfUnit(HierarchyPath(unit, h), unit) == Some(0)
  {
    assert HierarchyPath(unit, h)[0].unit == unit;
  }

  // ---------------------------------------------------------------------
  // The divisor on a three-level chain
  // ---------------------------------------------------------------------

  /**
   * 10 pieces make a pack, 6 packs a carton; only the row for packs gives a
   * buying price (12). The carton row's BIG_UNIT cell is empty and reads
   * as "nan".
   */
  function SoapChain(): Hierarchy
  {
    map["piece" := Entry(Some("pack"), 10.0, false, None, None, None, None, None, "Soap"),
        "pack" := Entry(Some("carton"), 6.0, true, None, Some(12.0), None, None, None, "Soap"),
        "carton" := Entry(Some("nan"), 1.0, false, None, None, None, None, None, "Soap")]
  }

  lemma SoapChainPath()
    ensures HierarchyPath("piece", SoapChain()) == [PathStep("piece", 10.0, Some("pack")), PathStep("pack", 6.0, Some("carton")),
                                                  PathStep("carton", 1.0, Some("nan")), PathStep("nan", 1.0, None)]
  {
    var h := SoapChain();
    assert HierarchyPath("piece", h) == [StepOf("piece", h)] + PathFrom("piece", h, {"piece"});
    assert StepOf("piece", h) == PathStep("piece", 10.0, Some("pack"));
    assert StepOf("pack", h) == PathStep("pack", 6.0, Some("carton"));
    assert StepOf("carton", h) == PathStep("carton", 1.0, Some("nan"));
    assert PathFrom("carton", h, {"piece", "pack", "carton"}) == [PathStep("nan", 1.0, None)];
    assert PathFrom("pack", h, {"piece", "pack"}) == [StepOf("carton", h)] + PathFrom("carton", h, {"piece", "pack"} + {"carton"});
    assert PathFrom("piece", h, {"piece"}) == [StepOf("pack", h)] + PathFrom("pack", h, {"piece"} + {"pack"});
  }

  /**
   * A piece row with every value empty: the code divides the price of a pack by
   * 60, the pieces in a carton, and prices a piece at 0.2; twelve divided
   * over the 10 pieces of a pack is 1.2.
   */
  lemma SoapPieceBuyingPrice()
    ensures CalculateAsWritten(Given(None, None, None, None, None), "piece", SoapChain()).values.buying == 0.2
    ensures Calculate(Given(None, None, None, None, None), "piece", SoapChain()).values.buying == 1.2
  {
    var h := SoapChain();
    var path := HierarchyPath("piece", h);
    SoapChainPath();
    assert FindWithValues("pack", h, {"piece"}) == Some(h["pack"]);
    assert FindWithValues("piece", h, {}) == Some(h["pack"]);
    assert IndexOfUnit(path, "piece") == Some(0);
    assert RelationProduct(path, 0, 3) == 60.0 by {
      assert RelationProduct(path, 0, 1) == 10.0;
      assert RelationProduct(path, 0, 2) == 60.0;
    }
    assert CumulativeRelation(path, "piece") == 60.0;
    assert Supplier(path, h) == Some(1) by {
      assert !Supplies(path[0], h) && Supplies(path[1], h);
    }
    assert SupplierRelation(path, h) == 10.0 by {
      assert RelationProduct(path, 0, 1) == 10.0;
    }
    assert (20.5).Floor == 20;
    assert (120.5).Floor == 120;
    assert Round2(12.0 / 60.0) == 0.2;
    assert Round2(12.0 / 10.0) == 1.2;
  }
}
