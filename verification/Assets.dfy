/** Asset fingerprints (assets/compile.go): what a file refers to, what is hashed, under which name. */
module Assets {
  import opened Results

  type Path = string
  type Content = seq<bv8>

  // ----- Sorting names -----

  /** Go's order on strings. */
  predicate Leq(a: Path, b: Path) {
    a == [] || (b != [] && (a[0] < b[0] || (a[0] == b[0] && Leq(a[1..], b[1..]))))
  }

  lemma {:induction false} LeqTotal(a: Path, b: Path)
    ensures Leq(a, b) || Leq(b, a)
    ensures Leq(a, b) && Leq(b, a) ==> a == b
  {
    if a != [] && b != [] && a[0] == b[0] {
      LeqTotal(a[1..], b[1..]);
      assert a == [a[0]] + a[1..] && b == [b[0]] + b[1..];
    }
  }

  lemma {:induction false} LeqTransitive(a: Path, b: Path, c: Path)
    requires Leq(a, b) && Leq(b, c)
    ensures Leq(a, c)
  {
    if a != [] && a[0] == b[0] == c[0] {
      LeqTransitive(a[1..], b[1..], c[1..]);
    }
  }

  ghost predicate Ascending(s: seq<Path>) {
    forall i, j :: 0 <= i < j < |s| ==> Leq(s[i], s[j])
  }

  function Insert(x: Path, s: seq<Path>): seq<Path> {
    if s == [] || Leq(x, s[0]) then [x] + s else [s[0]] + Insert(x, s[1..])
  }

  /** sort.Strings. */
  function Sorted(s: seq<Path>): seq<Path> {
    if s == [] then [] else Insert(s[0], Sorted(s[1..]))
  }

  lemma {:induction false} InsertSorts(x: Path, s: seq<Path>)
    requires Ascending(s)
    ensures Ascending(Insert(x, s)) && multiset(Insert(x, s)) == multiset{x} + multiset(s)
  {
    if s == [] {
    } else if Leq(x, s[0]) {
      forall j | 0 <= j < |s|
        ensures Leq(x, s[j])
      {
        if j > 0 { LeqTransitive(x, s[0], s[j]); }
      }
    } else {
      var rest := Insert(x, s[1..]);
      InsertSorts(x, s[1..]);
      LeqTotal(x, s[0]);
      assert s == [s[0]] + s[1..];
      forall j | 0 <= j < |rest|
        ensures Leq(s[0], rest[j])
      {
        assert rest[j] in multiset(rest);
        if rest[j] != x {
          assert rest[j] in s[1..];
        }
      }
    }
  }

  lemma {:induction false} SortedSorts(s: seq<Path>)
    ensures Ascending(Sorted(s)) && multiset(Sorted(s)) == multiset(s)
  {
    if s != [] {
      SortedSorts(s[1..]);
      InsertSorts(s[0], Sorted(s[1..]));
      assert s == [s[0]] + s[1..];
    }
  }

  /** There is one way to sort. */
  lemma {:induction false} AscendingUnique(a: seq<Path>, b: seq<Path>)
    requires Ascending(a) && Ascending(b) && multiset(a) == multiset(b)
    ensures a == b
    decreases |a|
  {
    assert |multiset(a)| == |a| && |multiset(b)| == |b|;
    if a != [] {
      SameFirst(a, b);
      hide Leq;
      var first, rest, other := a[0], a[1..], b[1..];
      assert a == [first] + rest && b == [first] + other;
      WithoutFirst(first, rest);
      WithoutFirst(first, other);
      AscendingUnique(rest, other);
    }
  }

  lemma WithoutFirst(x: Path, s: seq<Path>)
    ensures multiset([x] + s) - multiset{x} == multiset(s)
  {
  }

  lemma SameFirst(a: seq<Path>, b: seq<Path>)
    requires Ascending(a) && Ascending(b) && a != [] && b != [] && multiset(a) == multiset(b)
    ensures a[0] == b[0]
  {
    assert a[0] in multiset(a) && b[0] in multiset(b);
    assert a[0] in b && b[0] in a;
    hide Leq;
    FirstIsLeast(b, a[0]);
    FirstIsLeast(a, b[0]);
    LeqTotal(a[0], b[0]);
  }

  lemma FirstIsLeast(s: seq<Path>, x: Path)
    requires Ascending(s) && x in s
    ensures Leq(s[0], x)
  {
    LeqTotal(x, x);
  }

  // ----- References -----

  const FILE_TYPES := [".css", ".js"]      // the types whose references are looked for

  predicate IsPrefix(p: string, s: string) {
    |p| <= |s| && s[..|p|] == p
  }

  predicate IsExternal(target: string) {
    IsPrefix("http://", target) || IsPrefix("https://", target) || IsPrefix("//", target) || IsPrefix("data:", target)
  }

  /** path.Ext: from the last dot of the last element on; the length of s if there is none. */
  function ExtAt(s: string): (k: nat)
    ensures k <= |s|
  {
    ExtBefore(s, |s|)
  }

  function ExtBefore(s: string, i: nat): (k: nat)
    requires i <= |s|
    ensures k <= |s|
    ensures k < |s| ==> k < i && s[k] == '.' && forall j :: k < j < i ==> s[j] != '.' && s[j] != '/'
  {
    if i == 0 then |s|
    else if s[i - 1] == '.' then i - 1
    else if s[i - 1] == '/' then |s|
    else ExtBefore(s, i - 1)
  }

  type Graph = map<Path, seq<Path>>

  function RefsOf(refs: Graph, p: Path): seq<Path> {
    if p in refs then refs[p] else []
  }

  ghost predicate Closed(names: set<Path>, refs: Graph) {
    forall p, r :: p in refs && r in refs[p] ==> r in names
  }

  // ----- The order files are hashed in -----

  /** The files walk visits after those already visited, in order, and all it has visited then. */
  function Visits(names: set<Path>, refs: Graph, todo: seq<Path>, visited: set<Path>): (r: (seq<Path>, set<Path>))
    requires Closed(names, refs) && visited <= names && forall t <- todo :: t in names
    ensures visited <= r.1 <= names
    decreases names - visited, |todo|
  {
    if todo == [] then ([], visited)
    else if todo[0] in visited then Visits(names, refs, todo[1..], visited)
    else
      var p := todo[0];
      SortedSorts(RefsOf(refs, p));
      assert forall t <- Sorted(RefsOf(refs, p)) :: t in multiset(Sorted(RefsOf(refs, p)));
      var (below, v) := Visits(names, refs, Sorted(RefsOf(refs, p)), visited + {p});
      var (after, all) := Visits(names, refs, todo[1..], v);
      ([p] + below + after, all)
  }

  /** Every file the digest of start covers, in the order it is written to the hash. */
  function HashOrder(names: set<Path>, refs: Graph, start: Path): seq<Path>
    requires Closed(names, refs) && start in names
  {
    Visits(names, refs, [start], {}).0
  }

  function Bytes(files: map<Path, Content>, order: seq<Path>): Content
    requires forall p <- order :: p in files
  {
    if order == [] then [] else files[order[0]] + Bytes(files, order[1..])
  }

  // ----- Exactly the reachable files, each once -----

  /** A chain of references. */
  ghost predicate Route(refs: Graph, route: seq<Path>) {
    route != [] && forall i :: 0 <= i < |route| - 1 ==> route[i + 1] in RefsOf(refs, route[i])
  }

  ghost predicate Reachable(refs: Graph, start: Path, p: Path) {
    exists route :: Route(refs, route) && route[0] == start && route[|route| - 1] == p
  }

  lemma ReachStep(refs: Graph, start: Path, via: Path, p: Path)
    requires via in RefsOf(refs, start) && Reachable(refs, via, p)
    ensures Reachable(refs, start, p)
  {
    var route :| Route(refs, route) && route[0] == via && route[|route| - 1] == p;
    assert Route(refs, [start] + route);
  }

  lemma ReachSelf(refs: Graph, p: Path)
    ensures Reachable(refs, p, p)
  {
    assert Route(refs, [p]);
  }

  ghost predicate Distinct(s: seq<Path>) {
    forall i, j :: 0 <= i < j < |s| ==> s[i] != s[j]
  }

  /** A walk lists what it adds to the visited files, each once. */
  lemma {:induction false} VisitsOnce(names: set<Path>, refs: Graph, todo: seq<Path>, visited: set<Path>)
    requires Closed(names, refs) && visited <= names && forall t <- todo :: t in names
    ensures var (order, all) := Visits(names, refs, todo, visited);
            && Distinct(order) && (forall q :: q in all <==> q in visited || q in order) && forall q <- order :: q !in visited
    decreases names - visited, |todo|
  {
    if todo == [] {
    } else if todo[0] in visited {
      VisitsOnce(names, refs, todo[1..], visited);
    } else {
      var p := todo[0];
      SortedNames(names, refs, p);
      var (below, v) := Visits(names, refs, Sorted(RefsOf(refs, p)), visited + {p});
      var (after, all) := Visits(names, refs, todo[1..], v);
      VisitsOnce(names, refs, Sorted(RefsOf(refs, p)), visited + {p});
      VisitsOnce(names, refs, todo[1..], v);
      JoinedOnce(p, below, after, visited, v, all);
      assert Visits(names, refs, todo, visited) == ([p] + below + after, all);
    }
  }

  lemma JoinedOnce(p: Path, below: seq<Path>, after: seq<Path>, visited: set<Path>, v: set<Path>, all: set<Path>)
    requires Distinct(below) && (forall q :: q in v <==> q in visited + {p} || q in below) && forall q <- below :: q !in visited + {p}
    requires Distinct(after) && (forall q :: q in all <==> q in v || q in after) && forall q <- after :: q !in v
    requires p !in visited
    ensures var order := [p] + below + after;
            && Distinct(order) && (forall q :: q in all <==> q in visited || q in order) && forall q <- order :: q !in visited
  {
    var order := [p] + below + after;
    assert forall q :: q in order <==> q == p || q in below || q in after;
    forall i, j | 0 <= i < j < |order|
      ensures order[i] != order[j]
    {
      assert i == 0 || i > |below| || (order[i] == below[i - 1] && below[i - 1] in below);
      assert i <= |below| || order[i] == after[i - 1 - |below|];
      if j <= |below| {
        assert order[j] == below[j - 1] && below[j - 1] in below;
      } else {
        assert order[j] == after[j - 1 - |below|] && after[j - 1 - |below|] in after;
      }
    }
  }

  lemma SortedNames(names: set<Path>, refs: Graph, p: Path)
    requires Closed(names, refs)
    ensures forall t :: t in Sorted(RefsOf(refs, p)) <==> t in RefsOf(refs, p)
    ensures forall t <- Sorted(RefsOf(refs, p)) :: t in names
  {
    SortedSorts(RefsOf(refs, p));
    forall t
      ensures t in Sorted(RefsOf(refs, p)) <==> t in RefsOf(refs, p)
    {
      assert t in Sorted(RefsOf(refs, p)) <==> t in multiset(Sorted(RefsOf(refs, p)));
      assert t in RefsOf(refs, p) <==> t in multiset(RefsOf(refs, p));
    }
  }

  // ----- In which order -----

  /** r comes first among the files of todo that are not in seen. */
  ghost predicate FirstUnseen(todo: seq<Path>, seen: set<Path>, r: Path) {
    exists i :: 0 <= i < |todo| && todo[i] == r && r !in seen && forall j :: 0 <= j < i ==> todo[j] in seen
  }

  /** r comes first by name among the files of s that are not in seen. */
  ghost predicate LeastUnseen(s: seq<Path>, seen: set<Path>, r: Path) {
    r in s && r !in seen && forall x <- s :: x !in seen ==> Leq(r, x)
  }

  /** As long as the file at this place refers to one not hashed yet, the first such by name comes next. */
  ghost predicate Descends(refs: Graph, visited: set<Path>, order: seq<Path>, i: nat) {
    i < |order| ==> GoesOnWith(RefsOf(refs, order[i]), visited + Among(order[..i + 1]), order[i + 1..])
  }

  ghost predicate GoesOnWith(s: seq<Path>, seen: set<Path>, rest: seq<Path>) {
    forall r :: LeastUnseen(s, seen, r) ==> rest != [] && rest[0] == r
  }

  ghost predicate DepthFirst(refs: Graph, visited: set<Path>, order: seq<Path>) {
    forall i: nat :: Descends(refs, visited, order, i)
  }

  lemma {:induction false} SomeFirst(todo: seq<Path>, seen: set<Path>, x: Path) returns (r: Path)
    requires x in todo && x !in seen
    ensures FirstUnseen(todo, seen, r)
  {
    if todo[0] in seen {
      r := SomeFirst(todo[1..], seen, x);
      var i :| 0 <= i < |todo| - 1 && todo[1..][i] == r && r !in seen && forall j :: 0 <= j < i ==> todo[1..][j] in seen;
      forall j | 0 <= j < i + 1 ensures todo[j] in seen { assert j > 0 ==> todo[1..][j - 1] == todo[j]; }
      assert todo[i + 1] == r;
    } else {
      r := todo[0];
    }
  }

  /** The least is the first once sorted. */
  lemma LeastIsFirst(s: seq<Path>, seen: set<Path>, r: Path)
    requires LeastUnseen(s, seen, r)
    ensures FirstUnseen(Sorted(s), seen, r)
  {
    SortedSorts(s);
    forall x ensures x in s <==> x in Sorted(s) { assert x in multiset(s) <==> x in multiset(Sorted(s)); }
    var sorted := Sorted(s);
    hide Sorted, Leq;
    var q := SomeFirst(sorted, seen, r);
    var i :| 0 <= i < |sorted| && sorted[i] == q && q !in seen && forall j :: 0 <= j < i ==> sorted[j] in seen;
    var k :| 0 <= k < |sorted| && sorted[k] == r;
    assert sorted[i] in s;
    if i < k { assert Leq(q, r); }
    LeqTotal(q, r);
  }

  function Among(s: seq<Path>): set<Path> {
    set p | p in s
  }

  /** A walk starts at the first file of its list that has not been visited. */
  lemma {:induction false} VisitsFirst(names: set<Path>, refs: Graph, todo: seq<Path>, visited: set<Path>, r: Path)
    requires Closed(names, refs) && visited <= names && (forall t <- todo :: t in names) && FirstUnseen(todo, visited, r)
    ensures var order := Visits(names, refs, todo, visited).0; order != [] && order[0] == r
    decreases |todo|
  {
    if todo[0] in visited {
      var i :| 0 <= i < |todo| && todo[i] == r && r !in visited && forall j :: 0 <= j < i ==> todo[j] in visited;
      assert todo[1..][i - 1] == r && forall j :: 0 <= j < i - 1 ==> todo[1..][j] == todo[j + 1];
      VisitsFirst(names, refs, todo[1..], visited, r);
    } else {
      SortedNames(names, refs, todo[0]);
    }
  }

  lemma {:induction false} VisitsDepthFirst(names: set<Path>, refs: Graph, todo: seq<Path>, visited: set<Path>)
    requires Closed(names, refs) && visited <= names && forall t <- todo :: t in names
    ensures DepthFirst(refs, visited, Visits(names, refs, todo, visited).0)
    decreases names - visited, |todo|
  {
    if todo == [] {
    } else if todo[0] in visited {
      VisitsDepthFirst(names, refs, todo[1..], visited);
    } else {
      var p := todo[0];
      SortedNames(names, refs, p);
      var mine := Sorted(RefsOf(refs, p));
      var (below, v) := Visits(names, refs, mine, visited + {p});
      var (after, all) := Visits(names, refs, todo[1..], v);
      VisitsDepthFirst(names, refs, mine, visited + {p});
      VisitsDepthFirst(names, refs, todo[1..], v);
      VisitsOnce(names, refs, mine, visited + {p});
      forall r | LeastUnseen(RefsOf(refs, p), visited + {p}, r)
        ensures below != [] && below[0] == r
      {
        LeastIsFirst(RefsOf(refs, p), visited + {p}, r);
        VisitsFirst(names, refs, mine, visited + {p}, r);
      }
      assert Visits(names, refs, todo, visited).0 == [p] + below + after;
      hide Visits, Sorted;
      assert v == visited + {p} + Among(below);
      DepthFirstJoined(refs, visited, p, below, after);
    }
  }

  lemma DepthFirstJoined(refs: Graph, visited: set<Path>, p: Path, below: seq<Path>, after: seq<Path>)
    requires DepthFirst(refs, visited + {p}, below) && DepthFirst(refs, visited + {p} + Among(below), after)
    requires forall r :: LeastUnseen(RefsOf(refs, p), visited + {p}, r) ==> below != [] && below[0] == r
    ensures DepthFirst(refs, visited, [p] + below + after)
  {
    hide RefsOf, LeastUnseen;
    var order := [p] + below + after;
    forall i: nat
      ensures Descends(refs, visited, order, i)
    {
      if i == 0 {
        assert order[..1] == [p] && visited + Among([p]) == visited + {p};
      } else if i <= |below| {
        assert Descends(refs, visited + {p}, below, i - 1);
        assert order[..i + 1] == [p] + below[..i] && order[i] == below[i - 1];
        assert visited + Among(order[..i + 1]) == visited + {p} + Among(below[..i]);
        assert below[..i - 1 + 1] == below[..i] && (below[i..] != [] ==> order[i + 1..][0] == below[i..][0]);
      } else if i < |order| {
        var k := i - 1 - |below|;
        assert Descends(refs, visited + {p} + Among(below), after, k);
        assert order[..i + 1] == [p] + below + after[..k + 1] && order[i] == after[k];
        assert visited + Among(order[..i + 1]) == visited + {p} + Among(below) + Among(after[..k + 1]);
        assert order[i + 1..] == after[k + 1..];
      }
    }
  }

  /** Right after a file the digest takes the first by name of those it refers to that have not been taken, if there is one. */
  lemma HashOrderDepthFirst(names: set<Path>, refs: Graph, start: Path)
    requires Closed(names, refs) && start in names
    ensures DepthFirst(refs, {}, HashOrder(names, refs, start))
  {
    VisitsDepthFirst(names, refs, [start], {});
  }

  /** A walk leaves nothing out: everything on its list, and everything those refer to, is visited in the end. */
  lemma {:induction false} VisitsClosed(names: set<Path>, refs: Graph, todo: seq<Path>, visited: set<Path>)
    requires Closed(names, refs) && visited <= names && forall t <- todo :: t in names
    ensures forall t <- todo :: t in Visits(names, refs, todo, visited).1
    ensures forall q, r :: q in Visits(names, refs, todo, visited).0 && r in RefsOf(refs, q) ==> r in Visits(names, refs, todo, visited).1
    decreases names - visited, |todo|
  {
    hide RefsOf;
    assert forall t :: t in todo ==> t == todo[0] || t in todo[1..];
    if todo == [] {
    } else if todo[0] in visited {
      VisitsClosed(names, refs, todo[1..], visited);
    } else {
      var p := todo[0];
      SortedNames(names, refs, p);
      var (below, v) := Visits(names, refs, Sorted(RefsOf(refs, p)), visited + {p});
      var (after, all) := Visits(names, refs, todo[1..], v);
      VisitsClosed(names, refs, Sorted(RefsOf(refs, p)), visited + {p});
      VisitsClosed(names, refs, todo[1..], v);
      assert Visits(names, refs, todo, visited) == ([p] + below + after, all) && visited + {p} <= v <= all;
      forall q, r | q in [p] + below + after && r in RefsOf(refs, q)
        ensures r in all
      {
        if q in after {
        } else if q in below {
          assert r in v;
        } else {
          assert q == p && r in Sorted(RefsOf(refs, p));
        }
      }
    }
  }

  /** A walk adds nothing that its list does not lead to. */
  lemma {:induction false} VisitsReachable(names: set<Path>, refs: Graph, todo: seq<Path>, visited: set<Path>, q: Path) returns (from: Path)
    requires Closed(names, refs) && visited <= names && forall t <- todo :: t in names
    requires q in Visits(names, refs, todo, visited).0
    ensures from in todo && Reachable(refs, from, q)
    decreases names - visited, |todo|
  {
    if todo[0] in visited {
      from := VisitsReachable(names, refs, todo[1..], visited, q);
    } else {
      var p := todo[0];
      SortedNames(names, refs, p);
      var (below, v) := Visits(names, refs, Sorted(RefsOf(refs, p)), visited + {p});
      if q == p {
        ReachSelf(refs, p);
        from := p;
      } else if q in below {
        var via := VisitsReachable(names, refs, Sorted(RefsOf(refs, p)), visited + {p}, q);
        ReachStep(refs, p, via, q);
        from := p;
      } else {
        from := VisitsReachable(names, refs, todo[1..], v, q);
      }
    }
  }

  lemma {:induction false} RouteStays(refs: Graph, all: set<Path>, route: seq<Path>)
    requires Route(refs, route) && route[0] in all
    requires forall q, r :: q in all && r in RefsOf(refs, q) ==> r in all
    ensures route[|route| - 1] in all
    decreases |route|
  {
    if |route| > 1 {
      assert Route(refs, route[1..]);
      RouteStays(refs, all, route[1..]);
    }
  }

  /** The digest of a file covers exactly the files it reaches, itself included, each once, cycles or not. */
  lemma HashesReachable(names: set<Path>, refs: Graph, start: Path)
    requires Closed(names, refs) && start in names
    ensures Distinct(HashOrder(names, refs, start))
    ensures forall p :: p in HashOrder(names, refs, start) <==> Reachable(refs, start, p)
    ensures HashOrder(names, refs, start) != [] && HashOrder(names, refs, start)[0] == start
  {
    var (order, all) := Visits(names, refs, [start], {});
    VisitsOnce(names, refs, [start], {});
    VisitsClosed(names, refs, [start], {});
    forall p
      ensures p in order <==> Reachable(refs, start, p)
    {
      if p in order {
        var from := VisitsReachable(names, refs, [start], {}, p);
      }
      if Reachable(refs, start, p) {
        var route :| Route(refs, route) && route[0] == start && route[|route| - 1] == p;
        RouteStays(refs, all, route);
      }
    }
  }

  lemma {:induction false} VisitsSame(names: set<Path>, refs: Graph, other: Graph, todo: seq<Path>, visited: set<Path>)
    requires Closed(names, refs) && Closed(names, other) && visited <= names && forall t <- todo :: t in names
    requires forall p :: multiset(RefsOf(refs, p)) == multiset(RefsOf(other, p))
    ensures Visits(names, refs, todo, visited) == Visits(names, other, todo, visited)
    decreases names - visited, |todo|
  {
    if todo == [] {
    } else if todo[0] in visited {
      VisitsSame(names, refs, other, todo[1..], visited);
    } else {
      var p := todo[0];
      SortedSorts(RefsOf(refs, p));
      SortedSorts(RefsOf(other, p));
      AscendingUnique(Sorted(RefsOf(refs, p)), Sorted(RefsOf(other, p)));
      SortedNames(names, refs, p);
      VisitsSame(names, refs, other, Sorted(RefsOf(refs, p)), visited + {p});
      VisitsSame(names, refs, other, todo[1..], Visits(names, refs, Sorted(RefsOf(refs, p)), visited + {p}).1);
    }
  }

  /** The order in which a file's references were found does not matter. */
  lemma HashOrderIgnoresListOrder(names: set<Path>, refs: Graph, other: Graph, start: Path)
    requires Closed(names, refs) && Closed(names, other) && start in names
    requires forall p :: multiset(RefsOf(refs, p)) == multiset(RefsOf(other, p))
    ensures HashOrder(names, refs, start) == HashOrder(names, other, start)
  {
    VisitsSame(names, refs, other, [start], {});
  }

  // ----- What the digest notices -----

  lemma {:induction false} BytesSame(files: map<Path, Content>, other: map<Path, Content>, order: seq<Path>)
    requires forall p <- order :: p in files && p in other && files[p] == other[p]
    ensures Bytes(files, order) == Bytes(other, order)
    decreases |order|
  {
    if order != [] {
      BytesSame(files, other, order[1..]);
    }
  }

  lemma CancelRight(a: Content, b: Content, rest: Content)
    ensures a + rest == b + rest ==> a == b
  {
    if a + rest == b + rest {
      assert |a| + |rest| == |a + rest| == |b + rest|;
      assert a == (a + rest)[..|a|] && b == (b + rest)[..|a|];
    }
  }

  lemma {:induction false} BytesDiffer(files: map<Path, Content>, order: seq<Path>, p: Path, content: Content)
    requires Distinct(order) && (forall q <- order :: q in files) && p in order && content != files[p]
    ensures Bytes(files, order) != Bytes(files[p := content], order)
    decreases |order|
  {
    var other := files[p := content];
    var rest, rest' := Bytes(files, order[1..]), Bytes(other, order[1..]);
    if order[0] == p {
      BytesSame(files, other, order[1..]);
      CancelRight(files[p], content, rest);
    } else {
      BytesDiffer(files, order[1..], p, content);
      var first := files[order[0]];
      assert (first + rest)[|first|..] == rest && (first + rest')[|first|..] == rest';
    }
  }

  /** With the references as they are, changing one file changes the digested bytes of exactly the files that reach it. */
  lemma DigestNotices(files: map<Path, Content>, refs: Graph, start: Path, p: Path, content: Content)
    requires Closed(files.Keys, refs) && start in files && p in files && content != files[p]
    ensures var order := HashOrder(files.Keys, refs, start);
            var other := files[p := content];
            && other.Keys == files.Keys && (forall q <- order :: q in files)
            && (Bytes(files, order) != Bytes(other, order) <==> Reachable(refs, start, p))
  {
    var order := HashOrder(files.Keys, refs, start);
    var other := files[p := content];
    assert other.Keys == files.Keys;
    HashesReachable(files.Keys, refs, start);
    OrderNames(files.Keys, refs, start);
    if p in order {
      BytesDiffer(files, order, p, content);
    } else {
      BytesSame(files, other, order);
    }
  }

  lemma OrderNames(names: set<Path>, refs: Graph, start: Path)
    requires Closed(names, refs) && start in names
    ensures forall q <- HashOrder(names, refs, start) :: q in names
  {
    VisitsOnce(names, refs, [start], {});
    assert Visits(names, refs, [start], {}).1 <= names;
  }

  // ----- Names -----

  function Ext(s: Path): string {
    s[ExtAt(s)..]
  }

  function DigestedName(relPath: Path, digest: string): Path {
    relPath[..ExtAt(relPath)] + "-" + digest + Ext(relPath)
  }

  predicate Hex16(digest: string) {
    |digest| == 16 && forall c <- digest :: c != '.' && c != '/'
  }

  lemma {:induction false} ExtUnique(s: string, i: nat, k: nat)
    requires k < i <= |s| && s[k] == '.' && forall j :: k < j < i ==> s[j] != '.' && s[j] != '/'
    ensures ExtBefore(s, i) == k
    decreases i
  {
    if i - 1 > k {
      ExtUnique(s, i - 1, k);
    }
  }

  /** A digested name tells the file and the digest it was made from, so no two outputs collide. */
  lemma DigestedNameInjective(p: Path, q: Path, d: string, e: string)
    requires Ext(p) != "" && Ext(q) != "" && Hex16(d) && Hex16(e)
    ensures DigestedName(p, d) == DigestedName(q, e) ==> p == q && d == e
  {
    if DigestedName(p, d) == DigestedName(q, e) {
      var name := DigestedName(p, d);
      var k, m := ExtAt(p), ExtAt(q);
      DigestedExt(p, d);
      DigestedExt(q, e);
      assert k == m;
      assert p[..k] == name[..k] && q[..k] == name[..k];
      assert d == name[k + 1..k + 17] && e == name[k + 1..k + 17];
      assert p[k..] == name[k + 17..] && q[k..] == name[k + 17..];
      assert p == p[..k] + p[k..] && q == q[..k] + q[k..];
    }
  }

  lemma DigestedExt(p: Path, d: string)
    requires Ext(p) != "" && Hex16(d)
    ensures ExtAt(DigestedName(p, d)) == ExtAt(p) + 17
  {
    var name, k := DigestedName(p, d), ExtAt(p);
    forall j | k + 17 < j < |name|
      ensures name[j] == p[j - 17]
    {
    }
    ExtUnique(name, |name|, k + 17);
  }

  lemma {:induction false} NoExt(s: string, i: nat, k: nat)
    requires k <= i <= |s| && (k == 0 || s[k - 1] == '/') && forall j :: k <= j < i ==> s[j] != '.' && s[j] != '/'
    ensures ExtBefore(s, i) == |s|
    decreases i
  {
    if k < i {
      NoExt(s, i - 1, k);
    }
  }

  /** The digest goes between a file's base name and its extension, and its directory stays. */
  lemma DigestedNameIs(dir: string, base: string, ext: string, d: string)
    requires dir == "" || dir[|dir| - 1] == '/'
    requires forall c <- base + ext :: c != '/'
    requires if ext == "" then forall c <- base :: c != '.' else ext[0] == '.' && forall c <- ext[1..] :: c != '.'
    ensures DigestedName(dir + base + ext, d) == dir + base + "-" + d + ext
  {
    var p, k := dir + base + ext, |dir| + |base|;
    forall j | |dir| <= j < |p| ensures p[j] != '/' { assert p[j] == (base + ext)[j - |dir|] && p[j] in base + ext; }
    if ext == "" {
      forall j | |dir| <= j < |p| ensures p[j] != '.' { assert p[j] == base[j - |dir|] && p[j] in base; }
      NoExt(p, |p|, |dir|);
    } else {
      forall j | k < j < |p| ensures p[j] != '.' { assert p[j] == ext[1..][j - k - 1] && p[j] in ext[1..]; }
      ExtUnique(p, |p|, k);
    }
    assert p[..k] == dir + base && p[k..] == ext;
  }

  // ----- The code -----

  /** A target is somebody else's when it starts like an address: two slashes, a web scheme, or inline data. */
  ghost predicate Remote(t: string) {
    || (|t| >= 2 && t[0] == '/' && t[1] == '/')
    || (|t| >= 5 && t[..5] == "data:")
    || (|t| >= 7 && t[..7] == "http://")
    || (|t| >= 8 && t[..8] == "https://")
  }

  /** Any other target is local: every path that does not start with two slashes and has no colon among its first six characters. */
  lemma ExternalIff(t: string)
    ensures IsExternal(t) <==> Remote(t)
    ensures (forall i :: 0 <= i < |t| && i < 6 ==> t[i] != ':') ==> (IsExternal(t) <==> |t| >= 2 && t[0] == '/' && t[1] == '/')
  {
    assert |t| >= 2 ==> t[..2] == [t[0], t[1]];
    assert "http://"[4] == ':' && "https://"[5] == ':' && "data:"[4] == ':';
    assert |t| >= 7 && t[..7] == "http://" ==> t[4] == ':';
    assert |t| >= 8 && t[..8] == "https://" ==> t[5] == ':';
    assert |t| >= 5 && t[..5] == "data:" ==> t[4] == ':';
  }

  datatype UnknownReference = UnknownReference(file: Path, target: string)

  /** The local files a list of targets names, in order. */
  function Locals(relPath: Path, targets: seq<string>, join: (Path, string) -> Path): seq<Path> {
    if targets == [] then []
    else (if IsExternal(targets[0]) then [] else [join(relPath, targets[0])]) + Locals(relPath, targets[1..], join)
  }

  lemma {:induction false} LocalsSnoc(relPath: Path, targets: seq<string>, t: string, join: (Path, string) -> Path)
    ensures Locals(relPath, targets + [t], join)
            == Locals(relPath, targets, join) + if IsExternal(t) then [] else [join(relPath, t)]
    decreases |targets|
  {
    hide IsExternal;
    if targets == [] {
      assert targets + [t] == [t];
      assert Locals(relPath, [t], join) == (if IsExternal(t) then [] else [join(relPath, t)]) + Locals(relPath, [], join);
    } else {
      assert (targets + [t])[1..] == targets[1..] + [t];
      LocalsSnoc(relPath, targets[1..], t, join);
    }
  }

  /** They are what its local targets join to, and nothing else. */
  lemma {:induction false} LocalsAre(relPath: Path, targets: seq<string>, join: (Path, string) -> Path)
    ensures forall r :: r in Locals(relPath, targets, join) <==> exists t <- targets :: !Remote(t) && join(relPath, t) == r
    decreases |targets|
  {
    if targets != [] {
      LocalsAre(relPath, targets[1..], join);
      ExternalIff(targets[0]);
      hide IsExternal, Remote;
      assert forall t :: t in targets <==> t == targets[0] || t in targets[1..];
    }
  }

  predicate Known(names: set<Path>, relPath: Path, target: string, join: (Path, string) -> Path) {
    IsExternal(target) || join(relPath, target) in names
  }

  /** What a file's references come to, for a file whose type has any. */
  function ReferencesOf(p: Path, find: Path -> seq<string>, join: (Path, string) -> Path): seq<Path> {
    if Ext(p) in FILE_TYPES then Locals(p, find(p), join) else []
  }

  /** The targets of one file: its local references, or the first that names no known file. */
  method LocalReferences(names: set<Path>, relPath: Path, targets: seq<string>, join: (Path, string) -> Path)
    returns (res: Result<seq<Path>, UnknownReference>)
    ensures res.Success? ==> res.value == Locals(relPath, targets, join) && forall t <- targets :: Known(names, relPath, t, join)
    ensures res.Success? ==> forall r <- res.value :: r in names
    ensures res.Success? ==> forall r :: r in res.value <==> exists t <- targets :: !Remote(t) && join(relPath, t) == r
    ensures res.Failure? ==> res.error.file == relPath && exists i ::
      && 0 <= i < |targets| && targets[i] == res.error.target && !Remote(targets[i]) && join(relPath, targets[i]) !in names
      && forall j :: 0 <= j < i ==> Remote(targets[j]) || join(relPath, targets[j]) in names
    ensures res.Failure? ==> res.error.target in targets && !Known(names, relPath, res.error.target, join)
  {
    LocalsAre(relPath, targets, join);
    forall t ensures IsExternal(t) <==> Remote(t) { ExternalIff(t); }
    hide IsExternal, Remote;
    var refs := [];
    for i := 0 to |targets|
      invariant refs == Locals(relPath, targets[..i], join) && forall r <- refs :: r in names
      invariant forall t <- targets[..i] :: Known(names, relPath, t, join)
      invariant forall j :: 0 <= j < i ==> Remote(targets[j]) || join(relPath, targets[j]) in names
    {
      var target := targets[i];
      LocalsSnoc(relPath, targets[..i], target, join);
      assert targets[..i + 1] == targets[..i] + [target];
      if IsExternal(target) {
        continue;
      }
      var resolved := join(relPath, target);
      if resolved !in names {
        return Failure(UnknownReference(relPath, target));
      }
      refs := refs + [resolved];
    }
    assert targets[..|targets|] == targets;
    return Success(refs);
  }

  /**
   resolveReferences: find gives the targets the file's pattern matches, join resolves one
   against the file's directory. It fails exactly when some local target is no known file.
   */
  method ResolveReferences(names: set<Path>, find: Path -> seq<string>, join: (Path, string) -> Path)
    returns (res: Result<Graph, UnknownReference>)
    ensures res.Success? ==> Closed(names, res.value) && forall p <- names :: RefsOf(res.value, p) == ReferencesOf(p, find, join)
    ensures res.Success? ==> forall p, r :: p in names ==>
      (r in RefsOf(res.value, p) <==> (Ext(p) == ".css" || Ext(p) == ".js") && exists t <- find(p) :: !Remote(t) && join(p, t) == r)
    ensures res.Failure? ==>
      var UnknownReference(p, t) := res.error;
      p in names && Ext(p) in FILE_TYPES && t in find(p) && !Known(names, p, t, join)
    ensures res.Success? ==> forall p, t :: p in names && Ext(p) in FILE_TYPES && t in find(p) ==> Known(names, p, t, join)
  {
    forall p, r
      ensures r in Locals(p, find(p), join) <==> exists t <- find(p) :: !Remote(t) && join(p, t) == r
    {
      LocalsAre(p, find(p), join);
    }
    hide Known, Ext, Locals, Remote;
    var refs: Graph := map[];
    var left := names;
    while left != {}
      invariant left <= names && Closed(names, refs) && refs.Keys !! left
      invariant forall p :: p in names && p !in left ==> RefsOf(refs, p) == ReferencesOf(p, find, join)
      invariant forall p, t :: p in names && p !in left && Ext(p) in FILE_TYPES && t in find(p) ==> Known(names, p, t, join)
      decreases |left|
    {
      var relPath :| relPath in left;
      left := left - {relPath};
      if Ext(relPath) !in FILE_TYPES {
        continue;
      }
      var locals := LocalReferences(names, relPath, find(relPath), join);
      if locals.Failure? {
        return Failure(locals.error);
      }
      if locals.value != [] {
        refs := refs[relPath := locals.value];
      }
    }
    return Success(refs);
  }

  /** The walk's next turn. */
  lemma VisitsStep(names: set<Path>, refs: Graph, todo: seq<Path>, i: nat, visited: set<Path>)
    requires Closed(names, refs) && visited <= names && i < |todo| && forall t <- todo :: t in names
    ensures forall t <- Sorted(RefsOf(refs, todo[i])) :: t in names
    ensures todo[i] in visited ==> Visits(names, refs, todo[i..], visited) == Visits(names, refs, todo[i + 1..], visited)
    ensures todo[i] !in visited ==>
      var (below, v) := Visits(names, refs, Sorted(RefsOf(refs, todo[i])), visited + {todo[i]});
      var (after, all) := Visits(names, refs, todo[i + 1..], v);
      Visits(names, refs, todo[i..], visited) == ([todo[i]] + below + after, all)
  {
    SortedNames(names, refs, todo[i]);
    assert todo[i..][0] == todo[i] && todo[i..][1..] == todo[i + 1..];
  }

  lemma BytesPair(files: map<Path, Content>, done: seq<Path>, p: Path, below: seq<Path>)
    requires (forall q <- done :: q in files) && p in files && forall q <- below :: q in files
    ensures forall q <- done + [p] + below :: q in files
    ensures Bytes(files, done + [p] + below) == Bytes(files, done) + files[p] + Bytes(files, below)
  {
    BytesAppended(files, done, [p]);
    BytesAppended(files, done + [p], below);
    assert Bytes(files, [p]) == files[p] + Bytes(files, []);
  }

  /** A walk that has come to place i of its list, having hashed done, on the way to goal. */
  ghost predicate Underway(names: set<Path>, refs: Graph, todo: seq<Path>, i: nat, visited: set<Path>, done: seq<Path>, goal: (seq<Path>, set<Path>)) {
    && Closed(names, refs) && visited <= names && i <= |todo| && (forall t <- todo :: t in names) && (forall q <- done :: q in names)
    && var (rest, all) := Visits(names, refs, todo[i..], visited);
       goal == (done + rest, all)
  }

  lemma UnderwayStart(names: set<Path>, refs: Graph, todo: seq<Path>, visited: set<Path>)
    requires Closed(names, refs) && visited <= names && forall t <- todo :: t in names
    ensures Underway(names, refs, todo, 0, visited, [], Visits(names, refs, todo, visited))
  {
    var rest := Visits(names, refs, todo, visited).0;
    assert todo[0..] == todo && [] + rest == rest;
  }

  lemma UnderwaySkip(names: set<Path>, refs: Graph, todo: seq<Path>, i: nat, visited: set<Path>, done: seq<Path>, goal: (seq<Path>, set<Path>))
    requires Underway(names, refs, todo, i, visited, done, goal) && i < |todo| && todo[i] in visited
    ensures Underway(names, refs, todo, i + 1, visited, done, goal)
  {
    VisitsStep(names, refs, todo, i, visited);
  }

  lemma UnderwayDown(names: set<Path>, refs: Graph, todo: seq<Path>, i: nat, visited: set<Path>, done: seq<Path>, goal: (seq<Path>, set<Path>))
    requires Underway(names, refs, todo, i, visited, done, goal) && i < |todo| && todo[i] !in visited
    ensures todo[i] in names && forall t <- Sorted(RefsOf(refs, todo[i])) :: t in names
    ensures var (below, v) := Visits(names, refs, Sorted(RefsOf(refs, todo[i])), visited + {todo[i]});
            (forall q <- below :: q in names) && Underway(names, refs, todo, i + 1, v, done + [todo[i]] + below, goal)
  {
    VisitsStep(names, refs, todo, i, visited);
    var (below, v) := Visits(names, refs, Sorted(RefsOf(refs, todo[i])), visited + {todo[i]});
    VisitsOnce(names, refs, Sorted(RefsOf(refs, todo[i])), visited + {todo[i]});
    SeqAssociates(done, [todo[i]] + below, Visits(names, refs, todo[i + 1..], v).0);
    SeqAssociates(done, [todo[i]], below);
    hide Visits;
  }

  lemma UnderwayEnd(names: set<Path>, refs: Graph, todo: seq<Path>, visited: set<Path>, done: seq<Path>, goal: (seq<Path>, set<Path>))
    requires Underway(names, refs, todo, |todo|, visited, done, goal)
    ensures goal == (done, visited)
  {
    assert todo[|todo|..] == [] && done + [] == done;
  }

  class Digester {
    const files: map<Path, Content>
    const refs: Graph
    var visited: set<Path>
    var written: Content     // everything given to the hash so far

    constructor (files: map<Path, Content>, refs: Graph, start: Path)
      requires start in files
      ensures this.files == files && this.refs == refs && visited == {start} && written == files[start]
    {
      this.files, this.refs := files, refs;
      visited, written := {start}, files[start];
    }

    /** walk: hashes what p leads to and has not been visited. */
    method Walk(p: Path)
      requires Closed(files.Keys, refs) && p in visited && visited <= files.Keys
      modifies this
      ensures forall t <- Sorted(RefsOf(refs, p)) :: t in files.Keys
      ensures var (order, all) := Visits(files.Keys, refs, Sorted(RefsOf(refs, p)), old(visited));
              visited == all && (forall q <- order :: q in files) && written == old(written) + Bytes(files, order)
      decreases files.Keys - visited
    {
      SortedNames(files.Keys, refs, p);
      var refList := Sorted(RefsOf(refs, p));
      ghost var goal := Visits(files.Keys, refs, refList, visited);
      UnderwayStart(files.Keys, refs, refList, visited);
      ghost var done: seq<Path>, before := [], written;
      assert Bytes(files, done) == [];
      hide Visits, Bytes, Sorted, Closed, RefsOf, Underway;
      for i := 0 to |refList|
        invariant old(visited) <= visited <= files.Keys && (forall q <- done :: q in files)
        invariant Underway(files.Keys, refs, refList, i, visited, done, goal)
        invariant written == before + Bytes(files, done)
      {
        var ref := refList[i];
        if ref in visited {
          UnderwaySkip(files.Keys, refs, refList, i, visited, done, goal);
          continue;
        }
        UnderwayDown(files.Keys, refs, refList, i, visited, done, goal);
        visited := visited + {ref};
        written := written + files[ref];
        ghost var below := Visits(files.Keys, refs, Sorted(RefsOf(refs, ref)), visited).0;
        Walk(ref);
        BytesPair(files, done, ref, below);
        done := done + [ref] + below;
      }
      UnderwayEnd(files.Keys, refs, refList, visited, done, goal);
    }
  }

  lemma HashOrderIs(names: set<Path>, refs: Graph, start: Path)
    requires Closed(names, refs) && start in names
    ensures forall t <- Sorted(RefsOf(refs, start)) :: t in names
    ensures HashOrder(names, refs, start) == [start] + Visits(names, refs, Sorted(RefsOf(refs, start)), {start}).0
  {
    VisitsStep(names, refs, [start], 0, {});
    assert {} + {start} == {start} && [start][0..] == [start] && [start][1..] == [];
  }

  lemma {:induction false} BytesAppended(files: map<Path, Content>, a: seq<Path>, b: seq<Path>)
    requires (forall p <- a :: p in files) && (forall p <- b :: p in files)
    ensures Bytes(files, a + b) == Bytes(files, a) + Bytes(files, b)
    decreases |a|
  {
    if a == [] {
      assert a + b == b;
    } else {
      BytesAppended(files, a[1..], b);
      assert (a + b)[1..] == a[1..] + b;
    }
  }

  /** digest; hash is the hex form of SHA-256. */
  method Digest(files: map<Path, Content>, refs: Graph, start: Path, hash: Content -> string) returns (digest: string)
    requires Closed(files.Keys, refs) && start in files && forall c :: |hash(c)| >= 16
    ensures (forall q <- HashOrder(files.Keys, refs, start) :: q in files)
    ensures digest == hash(Bytes(files, HashOrder(files.Keys, refs, start)))[..16]
  {
    var d := new Digester(files, refs, start);
    HashOrderIs(files.Keys, refs, start);
    d.Walk(start);
    BytesPair(files, [], start, Visits(files.Keys, refs, Sorted(RefsOf(refs, start)), {start}).0);
    hide Visits;
    digest := hash(d.written)[..16];
  }

  /** The fingerprinting half of Compile: every file gets a name of its own, made from what it reaches. */
  method Fingerprint(files: map<Path, Content>, refs: Graph, hash: Content -> string) returns (manifest: map<Path, Path>)
    requires Closed(files.Keys, refs) && forall p <- files.Keys :: Ext(p) != ""
    requires forall c :: |hash(c)| >= 16 && Hex16(hash(c)[..16])
    ensures manifest.Keys == files.Keys
    ensures forall p <- files.Keys ::
      && (forall q <- HashOrder(files.Keys, refs, p) :: q in files)
      && manifest[p] == DigestedName(p, hash(Bytes(files, HashOrder(files.Keys, refs, p)))[..16])
    ensures forall p, q :: p in files && q in files && p != q ==> manifest[p] != manifest[q]
  {
    hide HashOrder, Bytes, DigestedName, Ext, Hex16;
    manifest := map[];
    var left := files.Keys;
    while left != {}
      invariant left <= files.Keys && manifest.Keys == files.Keys - left
      invariant forall p <- manifest.Keys ::
        && (forall q <- HashOrder(files.Keys, refs, p) :: q in files)
        && manifest[p] == DigestedName(p, hash(Bytes(files, HashOrder(files.Keys, refs, p)))[..16])
      decreases |left|
    {
      var relPath :| relPath in left;
      left := left - {relPath};
      var digest := Digest(files, refs, relPath, hash);
      manifest := manifest[relPath := DigestedName(relPath, digest)];
    }
    forall p, q | p in files && q in files && p != q
      ensures manifest[p] != manifest[q]
    {
      DigestedNameInjective(p, q, hash(Bytes(files, HashOrder(files.Keys, refs, p)))[..16], hash(Bytes(files, HashOrder(files.Keys, refs, q)))[..16]);
    }
  }
}
