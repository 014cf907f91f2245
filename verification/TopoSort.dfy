/** Ordering the modules of a package so that each comes after its dependencies. */
module TopoSort {
  import opened Base

  /** A compiled module: its id, the ids it depends on, and its bytes. */
  datatype Module = Module(id: nat, deps: seq<nat>, code: nat)

  type Package = map<nat, Module>

  /** `y` is a dependency of `x`, and both are in the package. */
  predicate DependsOn(pkg: Package, x: nat, y: nat)
  {
    x in pkg && y in pkg && y in pkg[x].deps
  }

  ghost predicate IsPath(pkg: Package, path: seq<nat>)
  {
    forall i :: 0 <= i < |path| - 1 ==> Edge(pkg, path, i)
  }

  ghost predicate Edge(pkg: Package, path: seq<nat>, i: nat)
    requires i + 1 < |path|
  {
    DependsOn(pkg, path[i], path[i + 1])
  }

  /** No module depends on itself, directly or indirectly. */
  ghost predicate Acyclic(pkg: Package)
  {
    forall path :: IsPath(pkg, path) && |path| > 1 ==> path[0] != path[|path| - 1]
  }

  ghost predicate NoRepeats(order: seq<nat>)
  {
    forall i, j :: 0 <= i < j < |order| ==> order[i] != order[j]
  }

  /** All dependencies of the module at `i` within the package come earlier. */
  ghost predicate DepsEarlier(pkg: Package, order: seq<nat>, i: nat)
    requires i < |order|
  {
    forall dep :: DependsOn(pkg, order[i], dep) ==> dep in order[..i]
  }

  ghost predicate Sorted(pkg: Package, order: seq<nat>)
  {
    && NoRepeats(order)
    && (forall i :: 0 <= i < |order| ==> order[i] in pkg)
    && (forall i :: 0 <= i < |order| ==> DepsEarlier(pkg, order, i))
  }

  lemma SortedPush(pkg: Package, order: seq<nat>, id: nat)
    requires Sorted(pkg, order) && id in pkg && id !in order
    requires forall dep :: DependsOn(pkg, id, dep) ==> dep in order
    ensures Sorted(pkg, order + [id])
  {
    var order' := order + [id];
    forall i | 0 <= i < |order'| ensures DepsEarlier(pkg, order', i) {
      if i < |order| {
        assert DepsEarlier(pkg, order, i) && order'[..i] == order[..i];
      } else {
        assert order'[..i] == order;
      }
    }
  }

  /** Going back along a path to one of its modules would be a cycle. */
  lemma PathExtends(pkg: Package, path: seq<nat>, id: nat, dep: nat)
    requires Acyclic(pkg) && IsPath(pkg, path + [id]) && DependsOn(pkg, id, dep)
    ensures IsPath(pkg, path + [id] + [dep]) && dep !in path + [id]
  {
    var longer := path + [id] + [dep];
    forall i | 0 <= i < |longer| - 1 ensures Edge(pkg, longer, i) {
      if i < |path| { assert Edge(pkg, path + [id], i); }
    }
    forall k | 0 <= k < |path + [id]| ensures (path + [id])[k] != dep {
      var turn := longer[k..];
      forall i | 0 <= i < |turn| - 1 ensures Edge(pkg, turn, i) { assert Edge(pkg, longer, k + i); }
      assert IsPath(pkg, turn);
    }
  }

  function ToSet(path: seq<nat>): set<nat> { set x | x in path }

  lemma LessToVisit(pkg: Package, path: seq<nat>, id: nat)
    requires id in pkg && id !in path
    ensures pkg.Keys - ToSet(path + [id]) < pkg.Keys - ToSet(path)
    ensures |pkg.Keys - ToSet(path + [id])| == |pkg.Keys - ToSet(path)| - 1
  {
    assert id in path + [id] && id in pkg.Keys - ToSet(path);
    assert pkg.Keys - ToSet(path + [id]) == (pkg.Keys - ToSet(path)) - {id};
  }

  /******* The recursion as a function of its depth *******/

  /** The order after visiting `id` with a recursion of at most `depth` nested calls, if that is
      enough. */
  function Visit(pkg: Package, order: seq<nat>, id: nat, depth: nat): Option<seq<nat>>
    requires id in pkg
    decreases depth, 0
  {
    if depth == 0 then None
    else if id in order then Some(order)
    else
      match VisitAll(pkg, order, pkg[id].deps, depth - 1)
      case None => None
      case Some(order') => Some(order' + [id])
  }

  /** The order after visiting the ids of the list that are in the package. */
  function VisitAll(pkg: Package, order: seq<nat>, ids: seq<nat>, depth: nat): Option<seq<nat>>
    decreases depth, |ids|
  {
    if ids == [] then Some(order)
    else if ids[0] !in pkg then VisitAll(pkg, order, ids[1..], depth)
    else
      match Visit(pkg, order, ids[0], depth)
      case None => None
      case Some(order') => VisitAll(pkg, order', ids[1..], depth)
  }

  /** A set of modules each of which depends on one of them. */
  ghost predicate Tangled(pkg: Package, knot: set<nat>)
  {
    forall x {:trigger HasNext(pkg, knot, x)} :: x in knot ==> HasNext(pkg, knot, x)
  }

  ghost predicate HasNext(pkg: Package, knot: set<nat>, x: nat)
  {
    exists y :: y in knot && DependsOn(pkg, x, y)
  }

  predicate Avoids(order: seq<nat>, knot: set<nat>)
  {
    forall x :: x in order ==> x !in knot
  }

  /** The recursion does not get through a module of a knot, however deep it may go. */
  lemma {:induction false} VisitStaysOut(pkg: Package, knot: set<nat>, order: seq<nat>, id: nat, depth: nat)
    requires Tangled(pkg, knot) && Avoids(order, knot) && id in pkg && Visit(pkg, order, id, depth).Some?
    ensures id !in knot && Avoids(Visit(pkg, order, id, depth).value, knot)
    decreases depth, 0
  {
    if id !in order {
      VisitAllStaysOut(pkg, knot, order, pkg[id].deps, depth - 1);
      assert id in knot ==> HasNext(pkg, knot, id);
    }
  }

  lemma {:induction false} VisitAllStaysOut(pkg: Package, knot: set<nat>, order: seq<nat>, ids: seq<nat>, depth: nat)
    requires Tangled(pkg, knot) && Avoids(order, knot) && VisitAll(pkg, order, ids, depth).Some?
    ensures Avoids(VisitAll(pkg, order, ids, depth).value, knot)
    ensures forall x :: x in ids && x in pkg ==> x !in knot
    decreases depth, |ids|
  {
    if ids == [] {
    } else {
      assert ids == [ids[0]] + ids[1..];
      if ids[0] in pkg {
        VisitStaysOut(pkg, knot, order, ids[0], depth);
        VisitAllStaysOut(pkg, knot, Visit(pkg, order, ids[0], depth).value, ids[1..], depth);
      } else {
        VisitAllStaysOut(pkg, knot, order, ids[1..], depth);
      }
    }
  }

  lemma CycleIsTangled(pkg: Package, path: seq<nat>)
    requires IsPath(pkg, path) && |path| > 1 && path[0] == path[|path| - 1]
    ensures Tangled(pkg, ToSet(path)) && path[0] in ToSet(path) && path[0] in pkg
  {
    assert Edge(pkg, path, 0);
    forall x | x in ToSet(path) ensures HasNext(pkg, ToSet(path), x) {
      var i :| 0 <= i < |path| && path[i] == x;
      var j := if i == |path| - 1 then 0 else i;
      assert Edge(pkg, path, j);
      assert path[j + 1] in ToSet(path) && DependsOn(pkg, x, path[j + 1]);
    }
  }

  /** Without cycles, as many nested calls as there are modules off the path are enough. */
  lemma {:induction false} VisitEnds(pkg: Package, order: seq<nat>, id: nat, path: seq<nat>, depth: nat)
    requires Acyclic(pkg) && id in pkg && IsPath(pkg, path + [id]) && id !in path
    requires |pkg.Keys - ToSet(path)| <= depth
    ensures Visit(pkg, order, id, depth).Some?
    decreases depth, 0
  {
    LessToVisit(pkg, path, id);
    if id !in order {
      forall dep | dep in pkg[id].deps && dep in pkg
        ensures IsPath(pkg, path + [id] + [dep]) && dep !in path + [id]
      {
        PathExtends(pkg, path, id, dep);
      }
      VisitAllEnds(pkg, order, pkg[id].deps, path + [id], depth - 1);
    }
  }

  lemma {:induction false} VisitAllEnds(pkg: Package, order: seq<nat>, ids: seq<nat>, path: seq<nat>, depth: nat)
    requires Acyclic(pkg) && |pkg.Keys - ToSet(path)| <= depth
    requires forall id :: id in ids && id in pkg ==> IsPath(pkg, path + [id]) && id !in path
    ensures VisitAll(pkg, order, ids, depth).Some?
    decreases depth, |ids|
  {
    if ids == [] {
    } else {
      assert forall id :: id in ids[1..] ==> id in ids;
      if ids[0] in pkg {
        VisitEnds(pkg, order, ids[0], path, depth);
        VisitAllEnds(pkg, Visit(pkg, order, ids[0], depth).value, ids[1..], path, depth);
      } else {
        VisitAllEnds(pkg, order, ids[1..], path, depth);
      }
    }
  }

  /** On a cyclic package the recursion over all modules does not end, however deep it may go. */
  lemma CyclicNeverEnds(pkg: Package, ids: seq<nat>, depth: nat)
    requires (forall id :: id in pkg ==> id in ids) && !Acyclic(pkg)
    ensures VisitAll(pkg, [], ids, depth).None?
  {
    var path :| IsPath(pkg, path) && |path| > 1 && path[0] == path[|path| - 1];
    CycleIsTangled(pkg, path);
    if VisitAll(pkg, [], ids, depth).Some? { VisitAllStaysOut(pkg, ToSet(path), [], ids, depth); }
  }

  /** The recursion over all modules of a package ends at some depth exactly when no module depends
      on itself, directly or indirectly. */
  lemma EndsExactlyWhenAcyclic(pkg: Package, ids: seq<nat>)
    requires forall id :: id in ids <==> id in pkg
    ensures (exists depth: nat :: VisitAll(pkg, [], ids, depth).Some?) <==> Acyclic(pkg)
  {
    if Acyclic(pkg) {
      VisitAllEnds(pkg, [], ids, [], |pkg.Keys - ToSet([])|);
    } else {
      forall depth: nat ensures VisitAll(pkg, [], ids, depth).None? { CyclicNeverEnds(pkg, ids, depth); }
    }
  }

  /** The vector that the recursion pushes to. */
  class Order {
    var order: seq<nat>

    constructor ()
      ensures order == []
    {
      order := [];
    }

    /** `path` is how the recursion got here; none of it has been pushed yet. */
    method SortByDeps(pkg: Package, id: nat, ghost path: seq<nat>)
      requires Acyclic(pkg) && id in pkg && Sorted(pkg, order)
      requires IsPath(pkg, path + [id]) && id !in path
      requires forall x :: x in path ==> x !in order
      modifies this
      ensures Sorted(pkg, order) && old(order) <= order && id in order
      ensures forall x :: x in path ==> x !in order
      ensures Some(order) == Visit(pkg, old(order), id, |pkg.Keys - ToSet(path)|)
      decreases pkg.Keys - ToSet(path), 1
    {
      LessToVisit(pkg, path, id);
      if id in order { return; }
      SortAll(pkg, id, path);
      assert id in path + [id];
      SortedPush(pkg, order, id);
      order := order + [id];
    }

    /** The loop over the dependencies of `id`. */
    method SortAll(pkg: Package, id: nat, ghost path: seq<nat>)
      requires Acyclic(pkg) && id in pkg && Sorted(pkg, order)
      requires IsPath(pkg, path + [id]) && id !in path
      requires forall x :: x in path + [id] ==> x !in order
      modifies this
      ensures Sorted(pkg, order) && old(order) <= order
      ensures forall x :: x in path + [id] ==> x !in order
      ensures forall dep :: DependsOn(pkg, id, dep) ==> dep in order
      ensures Some(order) == VisitAll(pkg, old(order), pkg[id].deps, |pkg.Keys - ToSet(path + [id])|)
      decreases pkg.Keys - ToSet(path), 0
    {
      ghost var depth := |pkg.Keys - ToSet(path + [id])|;
      var deps := pkg[id].deps;
      assert deps[0..] == deps;
      LessToVisit(pkg, path, id);
      for i := 0 to |deps|
        invariant Sorted(pkg, order) && old(order) <= order
        invariant forall x :: x in path + [id] ==> x !in order
        invariant forall j :: 0 <= j < i && deps[j] in pkg ==> deps[j] in order
        invariant VisitAll(pkg, old(order), deps, depth) == VisitAll(pkg, order, deps[i..], depth)
      {
        assert deps[i..][0] == deps[i] && deps[i..][1..] == deps[i + 1..];
        if deps[i] in pkg {
          PathExtends(pkg, path, id, deps[i]);
          ghost var before := order;
          SortByDeps(pkg, deps[i], path + [id]);
          assert forall j :: 0 <= j < i && deps[j] in pkg ==> deps[j] in before && deps[j] in order;
        }
      }
    }
  }

  /** The module at `i` is the last one with its id. */
  predicate IsLast(modules: seq<Module>, i: nat)
    requires i < |modules|
  {
    NotAfter(modules, i, modules[i].id)
  }

  predicate NotAfter(modules: seq<Module>, i: nat, id: nat)
  {
    forall l :: i < l < |modules| ==> modules[l].id != id
  }

  /** The package that the list of modules makes up: of several with one id, the last is kept. */
  ghost predicate IsPackage(modules: seq<Module>, pkg: Package)
  {
    && (forall i :: 0 <= i < |modules| ==> modules[i].id in pkg)
    && (forall i :: 0 <= i < |modules| && IsLast(modules, i) ==> pkg[modules[i].id] == modules[i])
    && (forall id :: id in pkg ==> HasLast(modules, id))
  }

  ghost predicate HasLast(modules: seq<Module>, id: nat)
  {
    exists i :: 0 <= i < |modules| && modules[i].id == id && IsLast(modules, i)
  }

  method Collect(modules: seq<Module>) returns (pkg: Package)
    ensures IsPackage(modules, pkg)
  {
    pkg := map[];
    for n := 0 to |modules|
      invariant IsPackage(modules[..n], pkg)
    {
      ghost var before := pkg;
      pkg := pkg[modules[n].id := modules[n]];
      assert modules[..n + 1] == modules[..n] + [modules[n]];
      CollectOne(modules[..n], before, modules[n]);
    }
    assert modules[..|modules|] == modules;
  }

  lemma CollectOne(modules: seq<Module>, pkg: Package, m: Module)
    requires IsPackage(modules, pkg)
    ensures IsPackage(modules + [m], pkg[m.id := m])
  {
    var longer, pkg' := modules + [m], pkg[m.id := m];
    forall i | 0 <= i < |longer|
      ensures longer[i].id in pkg'
      ensures IsLast(longer, i) ==> pkg'[longer[i].id] == longer[i]
    {
      if i < |modules| && IsLast(longer, i) {
        assert longer[|modules|].id != longer[i].id;
        NotAfterPrefix(modules, m, i, longer[i].id);
      }
    }
    forall id | id in pkg' ensures HasLast(longer, id) {
      if id == m.id {
        assert IsLast(longer, |modules|);
      } else {
        assert HasLast(modules, id);
        var i :| 0 <= i < |modules| && modules[i].id == id && IsLast(modules, i);
        NotAfterPrefix(modules, m, i, id);
        assert longer[i].id == id && IsLast(longer, i);
      }
    }
  }

  lemma NotAfterPrefix(modules: seq<Module>, m: Module, i: nat, id: nat)
    requires m.id != id
    ensures NotAfter(modules + [m], i, id) <==> NotAfter(modules, i, id)
  {
    if NotAfter(modules + [m], i, id) {
      forall l | i < l < |modules| ensures modules[l].id != id { assert (modules + [m])[l] == modules[l]; }
    }
  }

  predicate Ascending(ids: seq<nat>)
  {
    forall i, j :: 0 <= i < j < |ids| ==> ids[i] < ids[j]
  }

  /** All ids of the package in ascending order. */
  ghost predicate ListsInOrder(pkg: Package, ids: seq<nat>)
  {
    Ascending(ids) && forall id :: id in ids <==> id in pkg
  }

  /** The order that the recursion makes when it starts from the ids one after the other. */
  ghost predicate IsVisit(pkg: Package, ids: seq<nat>, order: seq<nat>)
  {
    exists depth: nat :: VisitAll(pkg, [], ids, depth) == Some(order)
  }

  predicate IsLeast(id: nat, ids: set<nat>)
  {
    id in ids && forall x :: x in ids ==> id <= x
  }

  lemma {:induction false} LeastExists(ids: set<nat>) returns (id: nat)
    requires ids != {}
    ensures IsLeast(id, ids)
  {
    var y :| y in ids;
    var rest := ids - {y};
    if rest == {} {
      id := y;
      forall x | x in ids ensures id <= x { assert x == y || x in rest; }
    } else {
      var least := LeastExists(rest);
      id := Min(least, y);
      forall x | x in ids ensures id <= x { assert x == y || x in rest; }
    }
  }

  method Least(ids: set<nat>) returns (id: nat)
    requires ids != {}
    ensures IsLeast(id, ids) && id in ids
  {
    ghost var least := LeastExists(ids);
    id :| id in ids && IsLeast(id, ids);
  }

  lemma {:induction false} VisitOneMore(pkg: Package, order: seq<nat>, ids: seq<nat>, id: nat, depth: nat)
    requires id in pkg && VisitAll(pkg, order, ids, depth).Some?
    ensures VisitAll(pkg, order, ids + [id], depth) == Visit(pkg, VisitAll(pkg, order, ids, depth).value, id, depth)
    decreases |ids|
  {
    if ids == [] {
      assert (ids + [id])[1..] == [];
    } else {
      assert (ids + [id])[1..] == ids[1..] + [id];
      if ids[0] in pkg {
        VisitOneMore(pkg, Visit(pkg, order, ids[0], depth).value, ids[1..], id, depth);
      } else {
        VisitOneMore(pkg, order, ids[1..], id, depth);
      }
    }
  }

  /** The ids of `ids`, the least ones of the package, have been visited. */
  ghost predicate VisitedSoFar(pkg: Package, todo: set<nat>, ids: seq<nat>)
  {
    && todo <= pkg.Keys && Ascending(ids)
    && (forall id :: id in ids <==> id in pkg && id !in todo)
    && (forall x, y :: x in ids && y in todo ==> x < y)
  }

  lemma VisitLeast(pkg: Package, todo: set<nat>, ids: seq<nat>, id: nat)
    requires VisitedSoFar(pkg, todo, ids) && IsLeast(id, todo)
    ensures VisitedSoFar(pkg, todo - {id}, ids + [id])
  {
    assert forall i :: 0 <= i < |ids| ==> ids[i] in ids;
    forall x ensures x in ids + [id] <==> x in pkg && x !in todo - {id} {
      assert x in ids + [id] <==> x in ids || x == id;
    }
  }

  /** The ids of the package, each after its dependencies, starting from the least. */
  method SortIds(pkg: Package) returns (order: seq<nat>)
    requires Acyclic(pkg)
    ensures Sorted(pkg, order) && forall id :: id in order <==> id in pkg
    ensures forall ids :: ListsInOrder(pkg, ids) ==> IsVisit(pkg, ids, order)
  {
    var sorter := new Order();
    var todo := pkg.Keys;
    ghost var ids: seq<nat>, depth := [], |pkg.Keys - ToSet([])|;
    while todo != {}
      invariant Sorted(pkg, sorter.order) && fresh(sorter)
      invariant forall id :: id in pkg && id !in todo ==> id in sorter.order
      invariant VisitedSoFar(pkg, todo, ids) && VisitAll(pkg, [], ids, depth) == Some(sorter.order)
      decreases |todo|
    {
      var id := Least(todo);
      ghost var before := sorter.order;
      sorter.SortByDeps(pkg, id, []);
      assert forall x :: x in before ==> x in sorter.order;
      VisitOneMore(pkg, [], ids, id, depth);
      VisitLeast(pkg, todo, ids, id);
      ids := ids + [id];
      todo := todo - {id};
    }
    order := sorter.order;
    forall ids' | ListsInOrder(pkg, ids') ensures IsVisit(pkg, ids', order) { OneAscending(ids, ids'); }
  }

  lemma NoMembers(ids: seq<nat>)
    requires forall id :: id !in ids
    ensures ids == []
  {
    if ids != [] { FirstMember(ids); }
  }

  lemma FirstMember(ids: seq<nat>)
    requires ids != []
    ensures exists id :: id in ids
  {
    assert ids[0] in ids;
  }

  /** There is one way of listing ids in ascending order. */
  lemma {:induction false} OneAscending(ids: seq<nat>, ids': seq<nat>)
    requires Ascending(ids) && Ascending(ids') && forall id :: id in ids <==> id in ids'
    ensures ids == ids'
    decreases |ids|
  {
    if ids == [] {
      NoMembers(ids');
    } else {
      assert ids[0] in ids' && ids'[0] in ids;
      assert ids[0] == ids'[0];
      forall id ensures id in ids[1..] <==> id in ids'[1..] {
        assert id in ids[1..] <==> id in ids && id != ids[0];
        assert id in ids'[1..] <==> id in ids' && id != ids'[0];
      }
      OneAscending(ids[1..], ids'[1..]);
    }
  }

  /** Removing the modules from the map in the given order never misses one. */
  method TakeInOrder(pkg: Package, order: seq<nat>) returns (result: seq<Module>)
    requires NoRepeats(order) && forall i :: 0 <= i < |order| ==> order[i] in pkg
    ensures |result| == |order| && forall i :: 0 <= i < |order| ==> result[i] == pkg[order[i]]
  {
    var rest := pkg;
    result := [];
    for i := 0 to |order|
      invariant |result| == i && forall j :: 0 <= j < i ==> result[j] == pkg[order[j]]
      invariant forall j :: i <= j < |order| ==> order[j] in rest
      invariant forall id :: id in rest ==> id in pkg && rest[id] == pkg[id]
    {
      result := result + [rest[order[i]]];
      rest := rest - {order[i]};
    }
  }

  ghost function Ids(result: seq<Module>): seq<nat> { seq(|result|, i requires 0 <= i < |result| => result[i].id) }

  /** Every id of the list is listed. */
  ghost predicate ListsAll(modules: seq<Module>, result: seq<Module>)
  {
    forall m :: m in modules ==> HasId(result, |result|, m.id)
  }

  ghost predicate HasId(result: seq<Module>, n: nat, id: nat)
    requires n <= |result|
  {
    exists j :: 0 <= j < n && result[j].id == id
  }

  /** What is listed is the last module of the list with its id. */
  ghost predicate ListsLast(modules: seq<Module>, result: seq<Module>)
  {
    forall j :: 0 <= j < |result| ==> ListedLast(modules, result[j])
  }

  ghost predicate ListedLast(modules: seq<Module>, m: Module)
  {
    exists i :: 0 <= i < |modules| && modules[i] == m && NotAfter(modules, i, m.id)
  }

  predicate DistinctIds(modules: seq<Module>)
  {
    forall i, j :: 0 <= i < j < |modules| ==> modules[i].id != modules[j].id
  }

  /** The dependencies of a listed module come before it, if they are modules of the list at all. */
  ghost predicate DepsListedEarlier(modules: seq<Module>, result: seq<Module>)
  {
    forall j, m :: 0 <= j < |result| && m in modules && m.id in result[j].deps ==> HasId(result, j, m.id)
  }

  /** For a package without dependency cycles: terminates, never removes a missing module, and
      lists every module once, after its dependencies in the package.  Of several modules with one id
      the last is listed, and if there are none such, the result is the list in another order. */
  method SortedCodeAndModules(modules: seq<Module>) returns (result: seq<Module>)
    requires forall pkg :: IsPackage(modules, pkg) ==> Acyclic(pkg)
    ensures forall pkg :: IsPackage(modules, pkg) ==> Sorted(pkg, Ids(result))
    ensures ListsAll(modules, result) && ListsLast(modules, result) && DistinctIds(result)
    ensures DepsListedEarlier(modules, result)
    ensures forall pkg, ids :: IsPackage(modules, pkg) && ListsInOrder(pkg, ids) ==> IsVisit(pkg, ids, Ids(result))
    ensures DistinctIds(modules) ==> multiset(result) == multiset(modules)
  {
    var pkg := Collect(modules);
    var order := SortIds(pkg);
    result := TakeInOrder(pkg, order);
    OrderIsListing(modules, pkg, order, result);
    if DistinctIds(modules) { SameModules(modules, result); }
    forall other | IsPackage(modules, other) ensures other == pkg { SamePackage(modules, pkg, other); }
  }

  lemma OrderIsListing(modules: seq<Module>, pkg: Package, order: seq<nat>, result: seq<Module>)
    requires IsPackage(modules, pkg) && Sorted(pkg, order) && (forall id :: id in order <==> id in pkg)
    requires |result| == |order| && forall i :: 0 <= i < |order| ==> result[i] == pkg[order[i]]
    ensures Ids(result) == order && ListsAll(modules, result) && ListsLast(modules, result) && DistinctIds(result)
    ensures DepsListedEarlier(modules, result)
  {
    forall j | 0 <= j < |result|
      ensures result[j].id == order[j]
      ensures ListedLast(modules, result[j])
    {
      assert HasLast(modules, order[j]);
      var i :| 0 <= i < |modules| && modules[i].id == order[j] && IsLast(modules, i);
      assert modules[i] == result[j] && NotAfter(modules, i, order[j]);
    }
    forall m | m in modules ensures HasId(result, |result|, m.id) {
      assert m.id in order;
      var j :| 0 <= j < |order| && order[j] == m.id;
      assert result[j].id == m.id;
    }
    forall j, m | 0 <= j < |result| && m in modules && m.id in result[j].deps ensures HasId(result, j, m.id) {
      assert DepsEarlier(pkg, order, j) && DependsOn(pkg, order[j], m.id);
      var l :| 0 <= l < j && order[..j][l] == m.id;
      assert result[l].id == m.id;
    }
  }

  /** Lists of modules with distinct ids that have the same members are permutations of each other. */
  lemma SameModules(modules: seq<Module>, result: seq<Module>)
    requires DistinctIds(modules) && DistinctIds(result) && ListsAll(modules, result) && ListsLast(modules, result)
    ensures multiset(result) == multiset(modules)
  {
    CountedOnce(modules);
    CountedOnce(result);
    forall m ensures m in result <==> m in modules {
      if m in modules {
        var j :| 0 <= j < |result| && result[j].id == m.id;
        assert ListedLast(modules, result[j]);
        var i :| 0 <= i < |modules| && modules[i] == result[j];
        var l :| 0 <= l < |modules| && modules[l] == m;
        assert i == l;
      }
    }
    forall m ensures multiset(result)[m] == multiset(modules)[m] {
      assert m in result <==> m in modules;
    }
  }

  lemma {:induction false} CountedOnce(modules: seq<Module>)
    requires DistinctIds(modules)
    ensures forall m :: m in modules ==> multiset(modules)[m] == 1
  {
    if modules == [] {
    } else {
      var n := |modules| - 1;
      CountedOnce(modules[..n]);
      assert modules == modules[..n] + [modules[n]];
      forall m | m in modules ensures multiset(modules)[m] == 1 {
        assert multiset(modules)[m] == multiset(modules[..n])[m] + multiset([modules[n]])[m];
        if m in modules[..n] {
          var i :| 0 <= i < n && modules[i] == m;
          assert m != modules[n];
        } else {
          assert m == modules[n];
        }
      }
    }
  }

  lemma SamePackage(modules: seq<Module>, pkg: Package, other: Package)
    requires IsPackage(modules, pkg) && IsPackage(modules, other)
    ensures pkg == other
  {
    forall id | id in pkg ensures id in other && pkg[id] == other[id] {
      assert HasLast(modules, id);
    }
    forall id | id in other ensures id in pkg { assert HasLast(modules, id); }
  }
}
