/**
 The order in which a flattened file takes in its dependencies
 (crates/compilers/crates/compilers/src/flatten.rs): a depth-first closure over imports,
 then a sort by the number of dependencies.
 */
module FlattenOrder {
  import opened Common
  import opened Reachability

  /** A path component, numbered in the byte order of components. */
  type Name = nat
  /** An absolute path; the empty one is the root, which has neither parent nor file name. */
  type Path = seq<Name>

  datatype FlattenError = NoParent(path: Path) | CannotResolve(path: Path) | ImportFailed(path: Path)
  type Outcome = Result<(), FlattenError>

  /** The imports of each file in source order, with the paths they resolve to, if they do. */
  type ImportMap = map<Path, seq<Option<Path>>>

  function Imports(g: ImportMap): Graph<Path> {
    map x | x in g :: set i | 0 <= i < |g[x]| && g[x][i].Some? :: g[x][i].value
  }

  /** Collecting fails at files without a parent, outside the graph, or with an import that does not resolve. */
  predicate Broken(g: ImportMap, x: Path) {
    x == [] || x !in g || None in g[x]
  }

  /** The files `a` depends on, itself included. */
  ghost function DepsOf(g: ImportMap, a: Path): set<Path> {
    set x | x in g && Reaches(Imports(g), a, x)
  }

  ghost predicate Flattens(g: ImportMap, a: Path) {
    forall x :: Reaches(Imports(g), a, x) ==> !Broken(g, x)
  }

  // ---------- Depth-first closure ----------

  /** What a successful search from `path` adds to what was visited before. */
  ghost predicate Collected(g: ImportMap, path: Path, before: set<Path>, after: set<Path>) {
    && before <= after
    && forall x :: x in after - before ==>
         Reaches(Imports(g), path, x) && !Broken(g, x) && Imports(g)[x] <= after
  }

  ghost predicate ReachesBroken(g: ImportMap, path: Path) {
    exists x :: Reaches(Imports(g), path, x) && Broken(g, x)
  }

  lemma StepInto(g: ImportMap, path: Path, next: Path, before: set<Path>, between: set<Path>, after: set<Path>)
    requires Edge(Imports(g), path, next)
    requires before <= between && Collected(g, next, between, after)
    ensures forall x :: x in after - between ==> Reaches(Imports(g), path, x) && !Broken(g, x) && Imports(g)[x] <= after
  {
    forall x | x in after - between ensures Reaches(Imports(g), path, x) { ReachesFirst(Imports(g), path, next, x); }
  }

  /** Depth-first search that does not enter a file twice; `deps` is updated in place in the source. */
  method CollectDeps(path: Path, graph: ImportMap, deps: set<Path>) returns (r: Outcome, deps': set<Path>)
    ensures r.Ok? ==> Collected(graph, path, deps, deps') && path in deps'
    ensures r.Err? ==> ReachesBroken(graph, path)
    decreases graph.Keys - deps
  {
    deps' := deps;
    ReachesItself(Imports(graph), path);
    if path in deps { return Ok(()), deps'; }
    deps' := deps + {path};
    if path == [] { return Err(NoParent(path)), deps'; }
    if path !in graph { return Err(CannotResolve(path)), deps'; }
    var imports := graph[path];
    for i := 0 to |imports|
      invariant deps + {path} <= deps' && None !in imports[..i]
      invariant forall x :: x in deps' - deps - {path} ==>
                  Reaches(Imports(graph), path, x) && !Broken(graph, x) && Imports(graph)[x] <= deps'
      invariant forall j :: 0 <= j < i ==> imports[j].value in deps'
    {
      if imports[i].None? { return Err(ImportFailed(path)), deps'; }
      var next := imports[i].value;
      ghost var between := deps';
      assert Edge(Imports(graph), path, next);
      r, deps' := CollectDeps(next, graph, deps');
      if r.Err? {
        ghost var x :| Reaches(Imports(graph), next, x) && Broken(graph, x);
        ReachesFirst(Imports(graph), path, next, x);
        return r, deps';
      }
      StepInto(graph, path, next, deps, between, deps');
    }
    assert imports[..|imports|] == imports;
    r := Ok(());
  }

  /** From scratch the search finds exactly the dependencies, and fails exactly if one of them is broken. */
  method CollectAllDeps(path: Path, graph: ImportMap) returns (r: Outcome, deps: set<Path>)
    ensures r.Ok? <==> Flattens(graph, path)
    ensures r.Ok? ==> deps == DepsOf(graph, path) && path in deps
  {
    r, deps := CollectDeps(path, graph, {});
    if r.Ok? {
      var g := Imports(graph);
      forall x | x in deps ensures x in graph && Reaches(g, path, x) && !Broken(graph, x) { assert x in deps - {}; }
      forall x | Reaches(g, path, x) ensures x in deps { StaysInside(g, deps, path, x); }
    }
  }

  // ---------- The sort order ----------

  /** `Path::cmp`: component by component, a prefix first. */
  predicate PathLe(a: Path, b: Path) {
    a == [] || (b != [] && (a[0] < b[0] || (a[0] == b[0] && PathLe(a[1..], b[1..]))))
  }

  lemma {:induction false} PathLeTotal(a: Path, b: Path)
    ensures PathLe(a, b) || PathLe(b, a)
    ensures PathLe(a, b) && PathLe(b, a) ==> a == b
  {
    if a != [] && b != [] {
      PathLeTotal(a[1..], b[1..]);
      assert a == [a[0]] + a[1..] && b == [b[0]] + b[1..];
    }
  }

  lemma {:induction false} PathLeTransitive(a: Path, b: Path, c: Path)
    requires PathLe(a, b) && PathLe(b, c)
    ensures PathLe(a, c)
  {
    if a != [] && a[0] == b[0] && b[0] == c[0] { PathLeTransitive(a[1..], b[1..], c[1..]); }
  }

  datatype Counted = Counted(count: nat, path: Path)

  function FileName(p: Path): Option<Name> {
    if p == [] then None else Some(p[|p| - 1])
  }

  /** Fewer dependencies first, then by file name, then by path. */
  predicate Le(a: Counted, b: Counted) {
    if a.count != b.count then a.count < b.count
    else
      var m, n := FileName(a.path), FileName(b.path);
      if m.Some? && n.Some? && m != n then m.value < n.value
      else PathLe(a.path, b.path)
  }

  lemma LeTotal(a: Counted, b: Counted)
    ensures Le(a, b) || Le(b, a)
    ensures Le(a, b) && Le(b, a) ==> a == b
  {
    PathLeTotal(a.path, b.path);
  }

  lemma LeTransitive(a: Counted, b: Counted, c: Counted)
    requires Le(a, b) && Le(b, c)
    ensures Le(a, c)
  {
    if PathLe(a.path, b.path) && PathLe(b.path, c.path) { PathLeTransitive(a.path, b.path, c.path); }
  }

  predicate Sorted(v: seq<Counted>) {
    forall i, j :: 0 <= i < j < |v| ==> Le(v[i], v[j])
  }

  predicate Distinct<T(==)>(v: seq<T>) {
    forall i, j :: 0 <= i < j < |v| ==> v[i] != v[j]
  }

  function Elements<T>(v: seq<T>): set<T> {
    set x | x in v
  }

  /** Inserts into a sorted vector; the sort of the standard library, one element at a time. */
  method Insert(v: seq<Counted>, x: Counted) returns (w: seq<Counted>)
    requires Sorted(v) && Distinct(v) && x !in v
    ensures Sorted(w) && Distinct(w) && Elements(w) == Elements(v) + {x}
  {
    hide Le;
    var i := |v|;
    while i > 0 && !Le(v[i - 1], x)
      invariant 0 <= i <= |v|
      invariant forall j :: i <= j < |v| ==> Le(x, v[j])
    {
      LeTotal(v[i - 1], x);
      i := i - 1;
    }
    forall j | 0 <= j < i ensures Le(v[j], x) { if j < i - 1 { LeTransitive(v[j], v[i - 1], x); } }
    InsertedAt(v, i, x);
    w := v[..i] + [x] + v[i..];
  }

  lemma InsertedAt(v: seq<Counted>, i: nat, x: Counted)
    requires i <= |v| && Sorted(v) && Distinct(v) && x !in v
    requires forall j :: 0 <= j < i ==> Le(v[j], x)
    requires forall j :: i <= j < |v| ==> Le(x, v[j])
    ensures var w := v[..i] + [x] + v[i..];
            Sorted(w) && Distinct(w) && Elements(w) == Elements(v) + {x}
  {
    hide Le;
    var w := v[..i] + [x] + v[i..];
    assert |w| == |v| + 1;
    assert forall j :: 0 <= j < |w| ==> w[j] == if j < i then v[j] else if j == i then x else v[j - 1];
    InsertedElements(v, i, x);
  }

  lemma InsertedElements(v: seq<Counted>, i: nat, x: Counted)
    requires i <= |v|
    ensures Elements(v[..i] + [x] + v[i..]) == Elements(v) + {x}
  {
    var w := v[..i] + [x] + v[i..];
    assert v == v[..i] + v[i..];
    assert forall y :: y in w <==> y in v || y == x;
  }

  // ---------- The order ----------

  /** The files to write: every dependency of `path` once, sorted by count, `path` itself last. */
  ghost predicate IsOrdered(g: ImportMap, path: Path, r: seq<Path>) {
    && |r| > 0 && r[|r| - 1] == path
    && Distinct(r) && Elements(r) == DepsOf(g, path)
    && forall i, j :: 0 <= i < j < |r| - 1 ==> Le(Counted(|DepsOf(g, r[i])|, r[i]), Counted(|DepsOf(g, r[j])|, r[j]))
  }

  function PathsOf(v: seq<Counted>): seq<Path> {
    seq(|v|, i requires 0 <= i < |v| => v[i].path)
  }

  /** Every non-target dependency with the number of its own dependencies. */
  method CountDeps(path: Path, graph: ImportMap, deps: set<Path>) returns (r: Outcome, counted: seq<Counted>)
    requires Flattens(graph, path) && deps == DepsOf(graph, path) - {path}
    ensures r.Ok? && Sorted(counted) && Distinct(counted)
    ensures Elements(counted) == set x | x in deps :: Counted(|DepsOf(graph, x)|, x)
  {
    r, counted := Ok(()), [];
    var todo := deps;
    while todo != {}
      invariant todo <= deps && r.Ok? && Sorted(counted) && Distinct(counted)
      invariant Elements(counted) == set x | x in deps - todo :: Counted(|DepsOf(graph, x)|, x)
      decreases todo
    {
      var x :| x in todo;
      forall y | Reaches(Imports(graph), x, y) ensures !Broken(graph, y) { ReachesThrough(Imports(graph), path, x, y); }
      var pathDeps;
      r, pathDeps := CollectAllDeps(x, graph);
      assert Counted(|pathDeps|, x) !in Elements(counted);
      counted := Insert(counted, Counted(|pathDeps|, x));
      todo := todo - {x};
    }
    assert deps - {} == deps;
  }

  method CollectOrderedDeps(path: Path, graph: ImportMap) returns (r: Outcome, ordered: seq<Path>)
    ensures r.Ok? <==> Flattens(graph, path)
    ensures r.Ok? <==>
            forall x :: Reaches(Imports(graph), path, x) ==> x != [] && x in graph && None !in graph[x]
    ensures r.Ok? ==> IsOrdered(graph, path, ordered)
  {
    var deps;
    r, deps := CollectAllDeps(path, graph);
    if r.Err? { return r, []; }
    var counted;
    r, counted := CountDeps(path, graph, deps - {path});
    ordered := PathsOf(counted) + [path];
    CountedIsOrdered(graph, path, counted);
  }

  lemma CountedIsOrdered(g: ImportMap, path: Path, counted: seq<Counted>)
    requires path in DepsOf(g, path) && Sorted(counted) && Distinct(counted)
    requires Elements(counted) == set x | x in DepsOf(g, path) - {path} :: Counted(|DepsOf(g, x)|, x)
    ensures IsOrdered(g, path, PathsOf(counted) + [path])
  {
    var r := PathsOf(counted) + [path];
    forall i | 0 <= i < |counted|
      ensures counted[i].path in DepsOf(g, path) - {path} && counted[i].count == |DepsOf(g, counted[i].path)|
    {
      assert counted[i] in Elements(counted);
    }
    forall i, j | 0 <= i < j < |r| ensures r[i] != r[j] {
      if j < |counted| { assert counted[i] != counted[j]; }
    }
    forall x | x in DepsOf(g, path) ensures x in r {
      if x != path {
        assert Counted(|DepsOf(g, x)|, x) in Elements(counted);
        var i :| 0 <= i < |counted| && counted[i] == Counted(|DepsOf(g, x)|, x);
        assert r[i] == x;
      } else {
        assert r[|counted|] == path;
      }
    }
    assert forall x :: x in r ==> x in DepsOf(g, path);
  }

  // ---------- What the order means ----------

  lemma {:induction false} SubsetIsSmaller<T>(a: set<T>, b: set<T>)
    requires a < b
    ensures |a| < |b|
  {
    assert !(b <= a);
    var x :| x in b && x !in a;
    SubsetIsNotLarger(a, b - {x});
  }

  lemma {:induction false} SubsetIsNotLarger<T>(a: set<T>, b: set<T>)
    requires a <= b
    ensures |a| <= |b|
    decreases a
  {
    if a != {} {
      var x :| x in a;
      SubsetIsNotLarger(a - {x}, b - {x});
    }
  }

  /** A file has more dependencies than any file it reaches that does not reach it back. */
  lemma MoreDeps(g: ImportMap, a: Path, b: Path)
    requires Reaches(Imports(g), a, b) && !Reaches(Imports(g), b, a) && a in g
    ensures |DepsOf(g, b)| < |DepsOf(g, a)|
  {
    forall x | x in DepsOf(g, b) ensures x in DepsOf(g, a) { ReachesThrough(Imports(g), a, b, x); }
    ReachesItself(Imports(g), a);
    assert a in DepsOf(g, a) && a !in DepsOf(g, b);
    SubsetIsSmaller(DepsOf(g, b), DepsOf(g, a));
  }

  /** In `Path::cmp` the first component that differs decides, and a proper prefix comes first. */
  lemma {:induction false} FirstDifference(a: Path, b: Path) returns (k: nat)
    requires PathLe(a, b)
    ensures k <= |a| && k <= |b| && a[..k] == b[..k]
    ensures k == |a| || (k < |b| && a[k] < b[k])
  {
    k := 0;
    if a != [] && a[0] == b[0] {
      var n := FirstDifference(a[1..], b[1..]);
      assert a == [a[0]] + a[1..] && b == [b[0]] + b[1..];
      assert a[..n + 1] == [a[0]] + a[1..][..n] && b[..n + 1] == [b[0]] + b[1..][..n];
      k := n + 1;
    }
  }

  /**
   The order spelled out for two files before the target: the earlier one has fewer
   dependencies, or as many and the smaller file name, or the same file name too and the
   smaller path.
   */
  lemma EarlierIsSmaller(g: ImportMap, path: Path, r: seq<Path>, i: nat, j: nat) returns (k: nat)
    requires IsOrdered(g, path, r) && i < j < |r| - 1
    ensures |DepsOf(g, r[i])| <= |DepsOf(g, r[j])|
    ensures |DepsOf(g, r[i])| == |DepsOf(g, r[j])| && r[i] != [] && r[j] != [] ==>
              r[i][|r[i]| - 1] <= r[j][|r[j]| - 1]
    ensures && |DepsOf(g, r[i])| == |DepsOf(g, r[j])|
            && (r[i] == [] || r[j] == [] || r[i][|r[i]| - 1] == r[j][|r[j]| - 1]) ==>
              && k <= |r[i]| && k <= |r[j]| && r[i][..k] == r[j][..k]
              && (k == |r[i]| || (k < |r[j]| && r[i][k] < r[j][k]))
  {
    assert Le(Counted(|DepsOf(g, r[i])|, r[i]), Counted(|DepsOf(g, r[j])|, r[j]));
    k := 0;
    if PathLe(r[i], r[j]) { k := FirstDifference(r[i], r[j]); }
  }

  /**
   Sorting by dependency count is topological: of two files other than the target, one that
   reaches the other and is not reached back comes later.
   */
  lemma OrderIsTopological(g: ImportMap, path: Path, r: seq<Path>, i: nat, j: nat)
    requires IsOrdered(g, path, r) && i < |r| - 1 && j < |r| - 1
    requires Reaches(Imports(g), r[i], r[j]) && !Reaches(Imports(g), r[j], r[i])
    ensures j < i
  {
    assert r[i] in Elements(r);
    ReachesItself(Imports(g), r[i]);
    MoreDeps(g, r[i], r[j]);
  }

  ghost predicate Acyclic(g: ImportMap) {
    forall a, b :: Reaches(Imports(g), a, b) && Reaches(Imports(g), b, a) ==> a == b
  }

  /** Without import cycles every file follows everything it imports, the target included. */
  lemma ImportsComeFirst(g: ImportMap, path: Path, r: seq<Path>, i: nat, x: Path)
    requires IsOrdered(g, path, r) && Acyclic(g) && i < |r| && r[i] in g && x in Imports(g)[r[i]] && x != r[i] && x in g
    ensures exists j :: 0 <= j < i && r[j] == x
  {
    var gr := Imports(g);
    assert r[i] in Elements(r);
    assert Edge(gr, r[i], x);
    ReachesItself(gr, r[i]);
    ReachesOnward(gr, r[i], r[i], x);
    ReachesThrough(gr, path, r[i], x);
    assert x in Elements(r);
    var j :| 0 <= j < |r| && r[j] == x;
    assert Reaches(gr, path, r[i]);
    if j < |r| - 1 && i < |r| - 1 { OrderIsTopological(g, path, r, i, j); }
  }

  /** The order does not depend on how hash sets iterate: there is only one. */
  lemma OrderIsUnique(g: ImportMap, path: Path, r: seq<Path>, s: seq<Path>)
    requires IsOrdered(g, path, r) && IsOrdered(g, path, s)
    ensures r == s
  {
    var v, w := r[..|r| - 1], s[..|s| - 1];
    forall x ensures x in v <==> x in w {
      assert x in v ==> x in Elements(r) && x != path;
      assert x in w ==> x in Elements(s) && x != path;
      assert x in Elements(r) && x != path ==> x in v;
      assert x in Elements(s) && x != path ==> x in w;
    }
    SortedIsUnique(g, v, w);
    assert r == v + [path] && s == w + [path];
  }

  ghost predicate InOrder(g: ImportMap, v: seq<Path>) {
    forall i, j :: 0 <= i < j < |v| ==> Le(Counted(|DepsOf(g, v[i])|, v[i]), Counted(|DepsOf(g, v[j])|, v[j]))
  }

  lemma {:induction false} SortedIsUnique(g: ImportMap, v: seq<Path>, w: seq<Path>)
    requires InOrder(g, v) && InOrder(g, w) && Distinct(v) && Distinct(w)
    requires forall x :: x in v <==> x in w
    ensures v == w
    decreases |v|
  {
    assert w != [] ==> w[0] in v;
    if v != [] {
      assert v[0] in w && w[0] in v;
      var i :| 0 <= i < |w| && w[i] == v[0];
      var j :| 0 <= j < |v| && v[j] == w[0];
      LeTotal(Counted(|DepsOf(g, v[0])|, v[0]), Counted(|DepsOf(g, w[0])|, w[0]));
      assert v[0] == w[0];
      forall x ensures x in v[1..] <==> x in w[1..] {
        assert x in v[1..] <==> x in v && x != v[0];
        assert x in w[1..] <==> x in w && x != w[0];
      }
      SortedIsUnique(g, v[1..], w[1..]);
      assert v == [v[0]] + v[1..] && w == [w[0]] + w[1..];
    }
  }
}
