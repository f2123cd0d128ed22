/** Ordering the loaded binaries so that every bundled dependency is initialised before the
    binaries that need it: Kahn's algorithm over maps whose iteration order is arbitrary. */
module LoadOrder {
  import opened Counting

  datatype Node = Node(name: string, dependencies: seq<string>)

  datatype Result = Ok(order: seq<nat>) | Cycle(with: nat)

  const PREFIX := "/usr/lib/"

  /** Binary names lack the directory that library paths carry. */
  function Strip(path: string): string { if PREFIX <= path then path[|PREFIX|..] else path }

  predicate DistinctNames(graph: seq<Node>) { forall i, j | 0 <= i < j < |graph| :: graph[i].name != graph[j].name }

  /** The i-th node depends on the j-th: some library path of i names j. */
  predicate DependsOn(graph: seq<Node>, i: nat, j: nat) {
    i < |graph| && j < |graph| && exists k | 0 <= k < |graph[i].dependencies| :: Strip(graph[i].dependencies[k]) == graph[j].name
  }

  /** The paths that name a node: its name in the directory of libraries, or its name itself unless that
      is such a path already. */
  lemma DependencyPaths(graph: seq<Node>, i: nat, j: nat)
    requires i < |graph| && j < |graph|
    ensures DependsOn(graph, i, j) <==> exists k | 0 <= k < |graph[i].dependencies| ::
      var path, name := graph[i].dependencies[k], graph[j].name;
      path == "/usr/lib/" + name || (path == name && !("/usr/lib/" <= path))
  {
    forall k | 0 <= k < |graph[i].dependencies|
      ensures var path, name := graph[i].dependencies[k], graph[j].name;
        Strip(path) == name <==> path == "/usr/lib/" + name || (path == name && !("/usr/lib/" <= path))
    {
      var path := graph[i].dependencies[k];
      if PREFIX <= path { assert path == PREFIX + path[|PREFIX|..]; }
    }
  }

  /** A walk along dependencies. */
  predicate Walk(graph: seq<Node>, p: seq<nat>) {
    && (forall i | 0 <= i < |p| :: p[i] < |graph|)
    && (forall i | 0 <= i < |p| - 1 :: DependsOn(graph, p[i], p[i + 1]))
  }

  predicate IsCycle(graph: seq<Node>, p: seq<nat>) { |p| >= 2 && Walk(graph, p) && p[0] == p[|p| - 1] }

  ghost predicate HasCycle(graph: seq<Node>) { exists p :: IsCycle(graph, p) }

  ghost predicate LeadsToCycle(graph: seq<Node>, v: nat) {
    exists p, q :: Walk(graph, p) && p != [] && p[0] == v && IsCycle(graph, q) && q[0] == p[|p| - 1]
  }

  ghost predicate OnCycle(graph: seq<Node>, v: nat) { exists p :: IsCycle(graph, p) && p[0] == v }

  /** The first node of an order that leads to a cycle. */
  ghost predicate FirstLeading(graph: seq<Node>, iteration: seq<nat>, v: nat) {
    exists at | 0 <= at < |iteration| :: LeadsAt(graph, iteration, at) && iteration[at] == v
  }

  ghost predicate LeadsAt(graph: seq<Node>, iteration: seq<nat>, at: nat) {
    && at < |iteration| && LeadsToCycle(graph, iteration[at])
    && forall k | 0 <= k < at :: !LeadsToCycle(graph, iteration[k])
  }

  predicate IsPermutation(s: seq<nat>, n: nat) {
    |s| == n && NoRepeats(s) && (forall v | v in s :: v < n) && (forall v | 0 <= v < n :: v in s)
  }

  /** Every dependency comes before its dependents. */
  predicate Topological(graph: seq<Node>, s: seq<nat>) {
    forall p | 0 <= p < |s| :: s[p] < |graph| && DependenciesIn(graph, s[p], s[..p])
  }

  predicate DependenciesIn(graph: seq<Node>, v: nat, s: seq<nat>) { forall j | 0 <= j < |graph| && DependsOn(graph, v, j) :: j in s }

  // ---- Counting dependencies, repeated ones included ----

  /** Which node a library path means, the last one of that name; -1 outside the bundle. */
  function IndexOf(graph: seq<Node>, path: string): (j: int)
    ensures -1 <= j < |graph|
    ensures j >= 0 ==> graph[j].name == path
    ensures forall i | j < i < |graph| :: graph[i].name != path
  {
    if graph == [] then -1
    else if graph[|graph| - 1].name == path then |graph| - 1
    else IndexOf(graph[..|graph| - 1], path)
  }

  /** The library paths of every node, resolved. */
  function Links(graph: seq<Node>): (links: seq<seq<int>>)
    ensures |links| == |graph|
  {
    seq(|graph|, v requires 0 <= v < |graph| => Resolve(graph, graph[v].dependencies))
  }

  function Resolve(graph: seq<Node>, paths: seq<string>): (targets: seq<int>)
    ensures |targets| == |paths|
  {
    seq(|paths|, k requires 0 <= k < |paths| => IndexOf(graph, Strip(paths[k])))
  }

  /** How many of the targets are bundled nodes that are not done. */
  function Pending(targets: seq<int>, done: set<nat>): nat {
    if targets == [] then 0 else
      var j := targets[|targets| - 1];
      Pending(targets[..|targets| - 1], done) + (if j >= 0 && j !in done then 1 else 0)
  }

  /** How many of the targets are the node u. */
  function Naming(targets: seq<int>, u: nat): nat {
    if targets == [] then 0 else
      Naming(targets[..|targets| - 1], u) + (if targets[|targets| - 1] == u then 1 else 0)
  }

  lemma PendingPush(targets: seq<int>, j: int, done: set<nat>)
    ensures Pending(targets + [j], done) == Pending(targets, done) + (if j >= 0 && j !in done then 1 else 0)
  {
    assert (targets + [j])[..|targets|] == targets;
  }

  lemma NamingPush(targets: seq<int>, j: int, u: nat)
    ensures Naming(targets + [j], u) == Naming(targets, u) + (if j == u then 1 else 0)
  {
    assert (targets + [j])[..|targets|] == targets;
  }

  lemma {:induction false} PendingAfter(targets: seq<int>, done: set<nat>, u: nat)
    requires u !in done
    ensures Pending(targets, done + {u}) == Pending(targets, done) - Naming(targets, u)
  {
    if targets != [] { PendingAfter(targets[..|targets| - 1], done, u); }
  }

  /** The count is zero exactly when all bundled targets are done. */
  lemma {:induction false} PendingZero(targets: seq<int>, done: set<nat>)
    ensures Pending(targets, done) == 0 <==> forall j | j in targets :: j < 0 || j in done
  {
    if targets != [] {
      var init, last := targets[..|targets| - 1], targets[|targets| - 1];
      PendingZero(init, done);
      assert targets == init + [last];
    }
  }

  /** For distinct names, the targets of a node are the nodes it depends on. */
  lemma TargetsAreDependencies(graph: seq<Node>, v: nat, j: nat)
    requires v < |graph| && j < |graph| && DistinctNames(graph)
    ensures j in Links(graph)[v] <==> DependsOn(graph, v, j)
  {
    var paths := graph[v].dependencies;
    if j in Links(graph)[v] {
      var k :| 0 <= k < |paths| && Links(graph)[v][k] == j;
      assert Strip(paths[k]) == graph[j].name;
    }
    if DependsOn(graph, v, j) {
      var k :| 0 <= k < |paths| && Strip(paths[k]) == graph[j].name;
      assert IndexOf(graph, Strip(paths[k])) == j;
      assert Links(graph)[v][k] == j;
    }
  }

  lemma TargetsAreNodes(graph: seq<Node>, v: nat, j: int)
    requires v < |graph| && j in Links(graph)[v]
    ensures -1 <= j < |graph|
  {}

  lemma DegreeZero(graph: seq<Node>, v: nat, s: seq<nat>)
    requires v < |graph| && DistinctNames(graph)
    ensures Pending(Links(graph)[v], Elements(s)) == 0 <==> DependenciesIn(graph, v, s)
  {
    var targets := Links(graph)[v];
    PendingZero(targets, Elements(s));
    if DependenciesIn(graph, v, s) {
      forall j | j in targets ensures j < 0 || j in Elements(s) {
        TargetsAreNodes(graph, v, j);
        if j >= 0 { TargetsAreDependencies(graph, v, j); }
      }
    }
    if forall j | j in targets :: j < 0 || j in Elements(s) {
      forall j | 0 <= j < |graph| && DependsOn(graph, v, j) ensures j in s { TargetsAreDependencies(graph, v, j); }
    }
  }

  function Elements(s: seq<nat>): set<nat> { set v | v in s }

  // ---- Cycles ----

  /** Along a walk in a topological order, positions fall; so no walk returns to its start. */
  lemma {:induction false} WalkDescends(graph: seq<Node>, s: seq<nat>, p: seq<nat>, a: nat) returns (b: nat)
    requires NoRepeats(s) && Topological(graph, s) && Walk(graph, p) && |p| >= 1 && a < |s| && s[a] == p[0]
    ensures b <= a && s[b] == p[|p| - 1] && (|p| >= 2 ==> b < a)
    decreases |p|
  {
    if |p| == 1 { return a; }
    assert DependsOn(graph, p[0], p[1]) && DependenciesIn(graph, s[a], s[..a]);
    var c :| 0 <= c < a && s[c] == p[1];
    b := WalkDescends(graph, s, p[1..], c);
  }

  lemma TopologicalMeansAcyclic(graph: seq<Node>, s: seq<nat>)
    requires IsPermutation(s, |graph|) && Topological(graph, s)
    ensures !HasCycle(graph)
  {
    forall p | IsCycle(graph, p) ensures false {
      assert p[0] in s;
      var a :| 0 <= a < |s| && s[a] == p[0];
      var b := WalkDescends(graph, s, p, a);
    }
  }

  predicate Stuck(graph: seq<Node>, s: seq<nat>, v: nat) { v < |graph| && v !in s }

  /** Nodes left over each depend on another one left over, so one can walk on for ever. */
  lemma {:induction false} StuckWalk(graph: seq<Node>, s: seq<nat>, v: nat, n: nat) returns (p: seq<nat>)
    requires Stuck(graph, s, v) && forall u | Stuck(graph, s, u) :: !DependenciesIn(graph, u, s)
    ensures |p| == n + 1 && p[0] == v && Walk(graph, p) && forall i | 0 <= i < |p| :: Stuck(graph, s, p[i])
    decreases n
  {
    if n == 0 { return [v]; }
    var j :| 0 <= j < |graph| && DependsOn(graph, v, j) && j !in s;
    var q := StuckWalk(graph, s, j, n - 1);
    p := [v] + q;
  }

  lemma LongWalkRepeats(p: seq<nat>, n: nat) returns (i: nat, j: nat)
    requires |p| > n && forall v | v in p :: v < n
    ensures i < j < |p| && p[i] == p[j]
  {
    if NoRepeats(p) { Pigeonhole(p, n); }
    i, j :| 0 <= i < j < |p| && p[i] == p[j];
  }

  lemma StuckMeansCycle(graph: seq<Node>, s: seq<nat>, v: nat)
    requires Stuck(graph, s, v) && forall u | Stuck(graph, s, u) :: !DependenciesIn(graph, u, s)
    ensures HasCycle(graph) && LeadsToCycle(graph, v)
  {
    var p := StuckWalk(graph, s, v, |graph|);
    var i, j := LongWalkRepeats(p, |graph|);
    SliceIsCycle(graph, p, i, j);
    PrefixIsWalk(graph, p, i);
    var q, a := p[i..j + 1], p[..i + 1];
    assert a[0] == v && q[0] == a[|a| - 1];
  }

  lemma PrefixIsWalk(graph: seq<Node>, p: seq<nat>, i: nat)
    requires Walk(graph, p) && i < |p|
    ensures Walk(graph, p[..i + 1])
  {}

  lemma SliceIsCycle(graph: seq<Node>, p: seq<nat>, i: nat, j: nat)
    requires Walk(graph, p) && i < j < |p| && p[i] == p[j]
    ensures IsCycle(graph, p[i..j + 1])
  {
    var q := p[i..j + 1];
    forall k | 0 <= k < |q| - 1 ensures DependsOn(graph, q[k], q[k + 1]) {
      assert DependsOn(graph, p[i + k], p[i + k + 1]);
    }
  }

  /** A sorted node leads to no cycle: positions would have to fall on the way round. */
  lemma SortedLeadsNowhere(graph: seq<Node>, s: seq<nat>, v: nat)
    requires NoRepeats(s) && Topological(graph, s) && v in s
    ensures !LeadsToCycle(graph, v)
  {
    if LeadsToCycle(graph, v) {
      var p, q :| Walk(graph, p) && p != [] && p[0] == v && IsCycle(graph, q) && q[0] == p[|p| - 1];
      var a :| 0 <= a < |s| && s[a] == v;
      var b := WalkDescends(graph, s, p, a);
      var c := WalkDescends(graph, s, q, b);
    }
  }

  // ---- Which node is reported ----

  lemma OnlyOneFirst(graph: seq<Node>, iteration: seq<nat>, v: nat, u: nat)
    requires FirstLeading(graph, iteration, v) && FirstLeading(graph, iteration, u)
    ensures v == u
  {
    hide LeadsToCycle;
    var i :| 0 <= i < |iteration| && LeadsAt(graph, iteration, i) && iteration[i] == v;
    var j :| 0 <= j < |iteration| && LeadsAt(graph, iteration, j) && iteration[j] == u;
    assert !(i < j) && !(j < i);
  }

  /** Some order starts with v. */
  lemma StartingWith(n: nat, v: nat) returns (s: seq<nat>)
    requires v < n
    ensures IsPermutation(s, n) && s[0] == v
  {
    s := seq<nat>(n, i requires 0 <= i < n => if i == 0 then v else if i <= v then i - 1 else i);
    forall u | 0 <= u < n ensures u in s { assert s[if u == v then 0 else if u < v then u + 1 else u] == u; }
  }

  /** The first node leading to a cycle is on one, whatever the order, exactly when every node
      that leads to a cycle is on one. */
  lemma ReportedNodeIsOnCycle(graph: seq<Node>)
    ensures (forall iteration, v | IsPermutation(iteration, |graph|) && FirstLeading(graph, iteration, v) :: OnCycle(graph, v))
         <==> (forall v | 0 <= v < |graph| && LeadsToCycle(graph, v) :: OnCycle(graph, v))
  {
    hide LeadsToCycle, OnCycle;
    if forall iteration, v | IsPermutation(iteration, |graph|) && FirstLeading(graph, iteration, v) :: OnCycle(graph, v) {
      forall v | 0 <= v < |graph| && LeadsToCycle(graph, v) ensures OnCycle(graph, v) {
        var iteration := StartingWith(|graph|, v);
        assert LeadsAt(graph, iteration, 0);
        assert FirstLeading(graph, iteration, v);
      }
    }
    if forall v | 0 <= v < |graph| && LeadsToCycle(graph, v) :: OnCycle(graph, v) {
      forall iteration, v | IsPermutation(iteration, |graph|) && FirstLeading(graph, iteration, v) ensures OnCycle(graph, v) {
        var at :| 0 <= at < |iteration| && LeadsAt(graph, iteration, at) && iteration[at] == v;
        assert iteration[at] in iteration;
      }
    }
  }

  /** "a" needs "b", which needs itself. */
  function LeadingIn(): seq<Node> { [Node("a", ["b"]), Node("b", ["b"])] }

  /** Iterated in that order, "a" is reported and is on no cycle. */
  lemma ReportedNodeOffCycle()
    ensures DistinctNames(LeadingIn()) && IsPermutation([0, 1], |LeadingIn()|)
    ensures FirstLeading(LeadingIn(), [0, 1], 0) && !OnCycle(LeadingIn(), 0)
  {
    hide DependsOn;
    var graph := LeadingIn();
    LeadingInLinks();
    var p, q: seq<nat> := [0, 1], [1, 1];
    assert Walk(graph, p) && IsCycle(graph, q) && q[0] == p[|p| - 1];
    assert LeadsAt(graph, p, 0);
    forall p | IsCycle(graph, p) ensures p[0] != 0 { assert DependsOn(graph, p[|p| - 2], p[|p| - 1]); }
  }

  lemma LeadingInLinks()
    ensures DependsOn(LeadingIn(), 0, 1) && DependsOn(LeadingIn(), 1, 1) && forall i: nat :: !DependsOn(LeadingIn(), i, 0)
  {
    var graph := LeadingIn();
    assert Strip(graph[0].dependencies[0]) == "b" && Strip(graph[1].dependencies[0]) == "b";
  }

  // ---- The algorithm ----

  /** Entries of `dependents` are lists with one entry per library path. */
  function Dependents(m: map<nat, seq<nat>>, u: nat): seq<nat> { if u in m then m[u] else [] }

  /** The targets of v among the first k of node i and all those of the nodes before it. */
  function Seen(links: seq<seq<int>>, v: nat, i: nat, k: nat): seq<int>
    requires v < |links| && (i < |links| ==> k <= |links[i]|)
  {
    if v < i then links[v] else if v == i then links[v][..k] else []
  }

  ghost predicate DegreesFor(links: seq<seq<int>>, degrees: map<nat, nat>, i: nat, k: nat)
    requires i < |links| ==> k <= |links[i]|
  {
    && (forall v: nat :: v in degrees <==> v < |links|)
    && (forall v | 0 <= v < |links| :: degrees[v] == Pending(Seen(links, v, i, k), {}))
  }

  ghost predicate ListsFor(links: seq<seq<int>>, dependents: map<nat, seq<nat>>, i: nat, k: nat)
    requires i < |links| ==> k <= |links[i]|
  {
    forall u: nat :: ListFor(links, Dependents(dependents, u), u, i, k)
  }

  ghost predicate ListFor(links: seq<seq<int>>, ds: seq<nat>, u: nat, i: nat, k: nat)
    requires i < |links| ==> k <= |links[i]|
  {
    && (forall v | v in ds :: v < |links|)
    && (forall v | 0 <= v < |links| :: multiset(ds)[v] == Naming(Seen(links, v, i, k), u))
  }

  lemma SeenOne(links: seq<seq<int>>, v: nat, i: nat, k: nat)
    requires i < |links| && k < |links[i]| && v < |links|
    ensures Seen(links, v, i, k + 1) == if v == i then Seen(links, v, i, k) + [links[i][k]] else Seen(links, v, i, k)
  {}

  lemma DegreeOne(links: seq<seq<int>>, degrees: map<nat, nat>, i: nat, k: nat)
    requires i < |links| && k < |links[i]| && DegreesFor(links, degrees, i, k)
    ensures DegreesFor(links, if links[i][k] < 0 then degrees else degrees[i := degrees[i] + 1], i, k + 1)
  {
    var degrees' := if links[i][k] < 0 then degrees else degrees[i := degrees[i] + 1];
    forall v | 0 <= v < |links| ensures degrees'[v] == Pending(Seen(links, v, i, k + 1), {}) {
      hide Pending, Seen;
      SeenOne(links, v, i, k);
      PendingPush(Seen(links, v, i, k), links[i][k], {});
    }
  }

  lemma PushCount(ds: seq<nat>, d: nat, v: nat)
    ensures multiset(ds + [d])[v] == multiset(ds)[v] + (if v == d then 1 else 0)
  {}

  lemma ListOne(links: seq<seq<int>>, ds: seq<nat>, u: nat, i: nat, k: nat)
    requires i < |links| && k < |links[i]| && ListFor(links, ds, u, i, k)
    ensures ListFor(links, if links[i][k] == u then ds + [i] else ds, u, i, k + 1)
  {
    var ds': seq<nat> := if links[i][k] == u then ds + [i] else ds;
    forall v | 0 <= v < |links| ensures multiset(ds')[v] == Naming(Seen(links, v, i, k + 1), u) {
      SeenOne(links, v, i, k);
      NamingPush(Seen(links, v, i, k), links[i][k], u);
      PushCount(ds, i, v);
    }
  }

  lemma ListsOne(links: seq<seq<int>>, dependents: map<nat, seq<nat>>, i: nat, k: nat)
    requires i < |links| && k < |links[i]| && ListsFor(links, dependents, i, k)
    ensures var j := links[i][k];
      ListsFor(links, if j < 0 then dependents else dependents[j := Dependents(dependents, j) + [i]], i, k + 1)
  {
    var j := links[i][k];
    var dependents' := if j < 0 then dependents else dependents[j := Dependents(dependents, j) + [i]];
    forall u: nat ensures ListFor(links, Dependents(dependents', u), u, i, k + 1) {
      ListOne(links, Dependents(dependents, u), u, i, k);
      assert Dependents(dependents', u) == if j == u then Dependents(dependents, u) + [i] else Dependents(dependents, u);
    }
  }

  /** Moving on to the next node changes what is counted for nobody. */
  lemma SeenNext(links: seq<seq<int>>, v: nat, i: nat)
    requires i < |links| && v < |links|
    ensures Seen(links, v, i + 1, 0) == Seen(links, v, i, |links[i]|)
  {}

  lemma DegreesNext(links: seq<seq<int>>, degrees: map<nat, nat>, i: nat)
    requires i < |links| && DegreesFor(links, degrees, i, |links[i]|)
    ensures DegreesFor(links, degrees, i + 1, 0)
  {
    forall v | 0 <= v < |links| ensures degrees[v] == Pending(Seen(links, v, i + 1, 0), {}) { SeenNext(links, v, i); }
  }

  lemma ListsNext(links: seq<seq<int>>, dependents: map<nat, seq<nat>>, i: nat)
    requires i < |links| && ListsFor(links, dependents, i, |links[i]|)
    ensures ListsFor(links, dependents, i + 1, 0)
  {
    forall u: nat ensures ListFor(links, Dependents(dependents, u), u, i + 1, 0) {
      ListNext(links, Dependents(dependents, u), u, i);
    }
  }

  lemma ListNext(links: seq<seq<int>>, ds: seq<nat>, u: nat, i: nat)
    requires i < |links| && ListFor(links, ds, u, i, |links[i]|)
    ensures ListFor(links, ds, u, i + 1, 0)
  {
    forall v | 0 <= v < |links| ensures multiset(ds)[v] == Naming(Seen(links, v, i + 1, 0), u) { SeenNext(links, v, i); }
  }

  /** A bundled path adds a dependent and a degree. */
  method CountPath(ghost links: seq<seq<int>>, degrees0: map<nat, nat>, dependents0: map<nat, seq<nat>>, i: nat, ghost k: nat, j: int)
      returns (degrees: map<nat, nat>, dependents: map<nat, seq<nat>>)
    requires i < |links| && k < |links[i]| && j == links[i][k]
    requires DegreesFor(links, degrees0, i, k) && ListsFor(links, dependents0, i, k)
    ensures DegreesFor(links, degrees, i, k + 1) && ListsFor(links, dependents, i, k + 1)
  {
    DegreeOne(links, degrees0, i, k);
    ListsOne(links, dependents0, i, k);
    degrees, dependents := degrees0, dependents0;
    if j >= 0 {
      dependents := dependents[j := Dependents(dependents, j) + [i]];
      degrees := degrees[i := degrees[i] + 1];
    }
  }

  /** The paths of one node. */
  method CountNode(graph: seq<Node>, degrees0: map<nat, nat>, dependents0: map<nat, seq<nat>>, i: nat)
      returns (degrees: map<nat, nat>, dependents: map<nat, seq<nat>>)
    requires i < |graph| && DegreesFor(Links(graph), degrees0, i, 0) && ListsFor(Links(graph), dependents0, i, 0)
    ensures DegreesFor(Links(graph), degrees, i + 1, 0) && ListsFor(Links(graph), dependents, i + 1, 0)
  {
    degrees, dependents := degrees0, dependents0;
    ghost var links := Links(graph);
    var k := 0;
    while k < |graph[i].dependencies|
      invariant k <= |graph[i].dependencies| == |links[i]|
      invariant DegreesFor(links, degrees, i, k)
      invariant ListsFor(links, dependents, i, k)
    {
      var j := IndexOf(graph, Strip(graph[i].dependencies[k]));
      degrees, dependents := CountPath(links, degrees, dependents, i, k, j);
      k := k + 1;
    }
    DegreesNext(links, degrees, i);
    ListsNext(links, dependents, i);
  }

  lemma NothingCounted(graph: seq<Node>, degrees: map<nat, nat>)
    requires (forall u: nat :: u in degrees <==> u < |graph|) && forall u | 0 <= u < |graph| :: degrees[u] == 0
    ensures DegreesFor(Links(graph), degrees, 0, 0) && ListsFor(Links(graph), map[], 0, 0)
  {}

  method CountDependencies(graph: seq<Node>) returns (degrees: map<nat, nat>, dependents: map<nat, seq<nat>>)
    ensures DegreesFor(Links(graph), degrees, |graph|, 0) && ListsFor(Links(graph), dependents, |graph|, 0)
  {
    hide DegreesFor, ListsFor, Links;
    degrees, dependents := map[], map[];
    for v := 0 to |graph|
      invariant forall u: nat :: u in degrees <==> u < v
      invariant forall u | 0 <= u < v :: degrees[u] == 0
    {
      degrees := degrees[v := 0];
    }
    NothingCounted(graph, degrees);
    for i := 0 to |graph|
      invariant DegreesFor(Links(graph), degrees, i, 0) && ListsFor(Links(graph), dependents, i, 0)
    {
      degrees, dependents := CountNode(graph, degrees, dependents, i);
    }
  }

  /** While a node is being removed, the dependents `handled` so far being one degree down: each
      degree counts the dependencies that remain. */
  ghost predicate DegreesLeft(links: seq<seq<int>>, degrees: map<nat, nat>, handled: seq<nat>, done: set<nat>) {
    && (forall v: nat :: v in degrees <==> v < |links|)
    && (forall v | 0 <= v < |links| :: degrees[v] == Pending(links[v], done) - multiset(handled)[v])
  }

  /** The nodes of degree 0 are exactly the ones listed, each once. */
  ghost predicate ListedAreZero(degrees: map<nat, nat>, listed: seq<nat>) {
    NoRepeats(listed) && forall v :: v in listed <==> v in degrees && degrees[v] == 0
  }

  lemma EdgeCount(links: seq<seq<int>>, ds: seq<nat>, u: nat, v: nat)
    requires v < |links| && ListFor(links, ds, u, |links|, 0)
    ensures multiset(ds)[v] == Naming(links[v], u)
  {
    assert Seen(links, v, |links|, 0) == links[v];
  }

  lemma DecrementDegrees(links: seq<seq<int>>, degrees: map<nat, nat>, ds: seq<nat>, x: nat, done: set<nat>, u: nat)
    requires x < |ds| && u !in done && DegreesLeft(links, degrees, ds[..x], done) && ListFor(links, ds, u, |links|, 0)
    ensures ds[x] in degrees && degrees[ds[x]] > 0
    ensures DegreesLeft(links, degrees[ds[x] := degrees[ds[x]] - 1], ds[..x + 1], done)
  {
    var d := ds[x];
    assert d in ds;
    EdgeCount(links, ds, u, d);
    assert ds[..x + 1] == ds[..x] + [d];
    PushCount(ds[..x], d, d);
    PrefixCount(ds, x + 1, d);
    PendingAfter(links[d], done, u);
    var degrees' := degrees[d := degrees[d] - 1];
    forall v | 0 <= v < |links| ensures degrees'[v] == Pending(links[v], done) - multiset(ds[..x + 1])[v] {
      PushCount(ds[..x], d, v);
    }
  }

  lemma PrefixCount(ds: seq<nat>, x: nat, d: nat)
    requires x <= |ds|
    ensures multiset(ds[..x])[d] <= multiset(ds)[d]
  {
    assert ds == ds[..x] + ds[x..];
  }

  lemma DecrementListed(degrees: map<nat, nat>, listed: seq<nat>, d: nat)
    requires d in degrees && degrees[d] > 0 && ListedAreZero(degrees, listed)
    ensures ListedAreZero(degrees[d := degrees[d] - 1], if degrees[d] == 1 then listed + [d] else listed)
  {}

  /** Once all entries are handled, the node counts as done. */
  lemma RemovalDone(links: seq<seq<int>>, degrees: map<nat, nat>, ds: seq<nat>, done: set<nat>, u: nat)
    requires u !in done && DegreesLeft(links, degrees, ds, done)
    requires ListFor(links, ds, u, |links|, 0)
    ensures DegreesLeft(links, degrees, [], done + {u})
  {
    forall v | 0 <= v < |links| ensures degrees[v] == Pending(links[v], done + {u}) {
      EdgeCount(links, ds, u, v);
      PendingAfter(links[v], done, u);
    }
  }

  /** A listed node may come next: all its dependencies are sorted, and it is not. */
  lemma NextIsReady(graph: seq<Node>, degrees: map<nat, nat>, sorted: seq<nat>, leaves: seq<nat>)
    requires DistinctNames(graph) && leaves != [] && Topological(graph, sorted)
    requires DegreesLeft(Links(graph), degrees, [], Elements(sorted)) && ListedAreZero(degrees, sorted + leaves)
    ensures leaves[0] < |graph| && leaves[0] !in sorted && Topological(graph, sorted + [leaves[0]])
    ensures |sorted| < |graph|
  {
    var listed := sorted + leaves;
    assert listed[|sorted|] == leaves[0] && leaves[0] in listed;
    DegreeZero(graph, leaves[0], sorted);
    forall p | 0 <= p < |sorted| + 1
      ensures (sorted + [leaves[0]])[p] < |graph| && DependenciesIn(graph, (sorted + [leaves[0]])[p], (sorted + [leaves[0]])[..p])
    {
      if p < |sorted| {
        assert (sorted + [leaves[0]])[..p] == sorted[..p];
      } else {
        assert (sorted + [leaves[0]])[..p] == sorted;
      }
    }
    assert forall v | v in listed :: v < |graph|;
    Pigeonhole(listed, |graph|);
    forall i | 0 <= i < |sorted| ensures sorted[i] != leaves[0] { assert listed[i] == sorted[i]; }
  }

  /** With nothing left to remove: either every node is sorted, or those of positive degree are
      the ones that lead to a cycle. */
  lemma AllSortedOrStuck(graph: seq<Node>, degrees: map<nat, nat>, sorted: seq<nat>)
    requires DistinctNames(graph) && Topological(graph, sorted)
    requires DegreesLeft(Links(graph), degrees, [], Elements(sorted)) && ListedAreZero(degrees, sorted)
    ensures (forall v | 0 <= v < |graph| :: degrees[v] == 0) ==> IsPermutation(sorted, |graph|) && !HasCycle(graph)
    ensures forall v | 0 <= v < |graph| :: degrees[v] > 0 <==> LeadsToCycle(graph, v)
    ensures forall v | 0 <= v < |graph| && degrees[v] > 0 :: HasCycle(graph)
  {
    hide DependenciesIn, LeadsToCycle, HasCycle, Pending;
    forall u | Stuck(graph, sorted, u) ensures !DependenciesIn(graph, u, sorted) { DegreeZero(graph, u, sorted); }
    forall v | 0 <= v < |graph| && degrees[v] > 0 ensures LeadsToCycle(graph, v) && HasCycle(graph) {
      StuckMeansCycle(graph, sorted, v);
    }
    forall v | 0 <= v < |graph| && degrees[v] == 0 ensures !LeadsToCycle(graph, v) { SortedLeadsNowhere(graph, sorted, v); }
    if forall v | 0 <= v < |graph| :: degrees[v] == 0 {
      Pigeonhole(sorted, |graph|);
      AllListed(sorted, |graph|);
      TopologicalMeansAcyclic(graph, sorted);
    }
  }

  lemma FirstPositiveLeads(graph: seq<Node>, degrees: map<nat, nat>, iteration: seq<nat>, at: nat)
    requires IsPermutation(iteration, |graph|) && (forall v: nat :: v in degrees <==> v < |graph|)
    requires forall v | 0 <= v < |graph| :: degrees[v] > 0 <==> LeadsToCycle(graph, v)
    requires at < |iteration| && iteration[at] < |graph| && degrees[iteration[at]] > 0
    requires forall k | 0 <= k < at :: iteration[k] in degrees && degrees[iteration[k]] == 0
    ensures FirstLeading(graph, iteration, iteration[at])
  {
    hide LeadsToCycle;
    assert LeadsAt(graph, iteration, at);
  }

  lemma {:induction false} AllListed(s: seq<nat>, n: nat)
    requires NoRepeats(s) && forall v | 0 <= v < n :: v in s
    ensures |s| >= n
    decreases n
  {
    if n > 0 {
      assert n - 1 in s;
      var i :| 0 <= i < |s| && s[i] == n - 1;
      var t := s[..i] + s[i + 1..];
      forall v | 0 <= v < n - 1 ensures v in t {
        assert v in s;
        var k :| 0 <= k < |s| && s[k] == v;
        assert t[if k < i then k else k - 1] == v;
      }
      AllListed(t, n - 1);
    }
  }

  lemma AllCounted(links: seq<seq<int>>, degrees: map<nat, nat>)
    requires DegreesFor(links, degrees, |links|, 0)
    ensures DegreesLeft(links, degrees, [], Elements([]))
  {
    assert Elements([]) == {};
    forall v | 0 <= v < |links| ensures degrees[v] == Pending(links[v], {}) {
      assert Seen(links, v, |links|, 0) == links[v];
    }
  }

  /** The nodes of degree 0 in iteration order. */
  method FindLeaves(degrees: map<nat, nat>, iteration: seq<nat>) returns (leaves: seq<nat>)
    requires NoRepeats(iteration) && forall v :: v in iteration <==> v in degrees
    ensures ListedAreZero(degrees, leaves)
  {
    leaves := [];
    for i := 0 to |iteration|
      invariant NoRepeats(leaves) && (forall v :: v in leaves <==> v in iteration[..i] && v in degrees && degrees[v] == 0)
    {
      assert iteration[i] in iteration;
      if degrees[iteration[i]] == 0 { leaves := leaves + [iteration[i]]; }
    }
    assert iteration[..|iteration|] == iteration;
  }

  /** The first node of positive degree in iteration order. */
  method FindPositive(degrees: map<nat, nat>, iteration: seq<nat>) returns (found: bool, index: nat, ghost at: nat)
    requires forall v :: v in iteration <==> v in degrees
    ensures found ==> at < |iteration| && iteration[at] == index && index in degrees && degrees[index] > 0
    ensures found ==> forall k | 0 <= k < at :: iteration[k] in degrees && degrees[iteration[k]] == 0
    ensures !found ==> forall v | v in degrees :: degrees[v] == 0
  {
    for i := 0 to |iteration|
      invariant forall k | 0 <= k < i :: iteration[k] in degrees && degrees[iteration[k]] == 0
    {
      assert iteration[i] in iteration;
      if degrees[iteration[i]] > 0 { return true, iteration[i], i; }
    }
    return false, 0, 0;
  }

  /** One degree down; at zero, the dependent joins the queue. */
  method HandleDependent(degrees0: map<nat, nat>, d: nat, leaves0: seq<nat>, ghost sorted: seq<nat>)
      returns (degrees: map<nat, nat>, leaves: seq<nat>)
    requires d in degrees0 && degrees0[d] > 0 && ListedAreZero(degrees0, sorted + leaves0)
    ensures degrees == degrees0[d := degrees0[d] - 1] && ListedAreZero(degrees, sorted + leaves)
  {
    DecrementListed(degrees0, sorted + leaves0, d);
    assert sorted + (leaves0 + [d]) == (sorted + leaves0) + [d];
    degrees, leaves := degrees0[d := degrees0[d] - 1], leaves0;
    if degrees[d] == 0 { leaves := leaves + [d]; }
  }

  /** One degree down for each dependent of a removed node; those that need nothing else join the
      queue. */
  method HandleDependents(ghost links: seq<seq<int>>, degrees0: map<nat, nat>, ds: seq<nat>, leaves0: seq<nat>,
        ghost sorted: seq<nat>, ghost done: set<nat>, ghost u: nat)
      returns (degrees: map<nat, nat>, leaves: seq<nat>)
    requires u !in done && ListFor(links, ds, u, |links|, 0)
    requires DegreesLeft(links, degrees0, [], done) && ListedAreZero(degrees0, sorted + leaves0)
    ensures DegreesLeft(links, degrees, [], done + {u}) && ListedAreZero(degrees, sorted + leaves)
  {
    degrees, leaves := degrees0, leaves0;
    var x := 0;
    while x < |ds|
      invariant x <= |ds| && DegreesLeft(links, degrees, ds[..x], done) && ListedAreZero(degrees, sorted + leaves)
    {
      DecrementDegrees(links, degrees, ds, x, done, u);
      degrees, leaves := HandleDependent(degrees, ds[x], leaves, sorted);
      x := x + 1;
    }
    assert ds[..|ds|] == ds;
    RemovalDone(links, degrees, ds, done, u);
  }

  /** Takes the first leaf off the queue, appends it to the order, and handles its dependents. */
  method RemoveLeaf(graph: seq<Node>, degrees0: map<nat, nat>, dependents: map<nat, seq<nat>>, sorted0: seq<nat>, leaves0: seq<nat>)
      returns (degrees: map<nat, nat>, sorted: seq<nat>, leaves: seq<nat>)
    requires DistinctNames(graph) && leaves0 != [] && Topological(graph, sorted0) && ListsFor(Links(graph), dependents, |graph|, 0)
    requires DegreesLeft(Links(graph), degrees0, [], Elements(sorted0)) && ListedAreZero(degrees0, sorted0 + leaves0)
    ensures sorted == sorted0 + [leaves0[0]] && |sorted0| < |graph| && Topological(graph, sorted)
    ensures DegreesLeft(Links(graph), degrees, [], Elements(sorted)) && ListedAreZero(degrees, sorted + leaves)
  {
    NextIsReady(graph, degrees0, sorted0, leaves0);
    var node := leaves0[0];
    sorted := sorted0 + [node];
    assert sorted0 + leaves0 == sorted + leaves0[1..];
    ghost var done := Elements(sorted0);
    assert Elements(sorted) == done + {node};
    degrees, leaves := HandleDependents(Links(graph), degrees0, Dependents(dependents, node), leaves0[1..], sorted, done, node);
  }

  /** Topologically sorts the nodes, given the order in which the map of degrees is iterated, or
      reports a node that cannot be sorted. */
  method GenerateBinaryLoadOrder(graph: seq<Node>, iteration: seq<nat>) returns (r: Result)
    requires DistinctNames(graph) && IsPermutation(iteration, |graph|)
    ensures r.Ok? ==> IsPermutation(r.order, |graph|) && Topological(graph, r.order)
    ensures r.Cycle? ==> r.with < |graph| && FirstLeading(graph, iteration, r.with)
    ensures r.Cycle? <==> HasCycle(graph)
  {
    var degrees, dependents := CountDependencies(graph);
    var leaves := FindLeaves(degrees, iteration);
    var sorted: seq<nat> := [];
    AllCounted(Links(graph), degrees);
    assert sorted + leaves == leaves;
    while leaves != []
      invariant Topological(graph, sorted)
      invariant DegreesLeft(Links(graph), degrees, [], Elements(sorted)) && ListedAreZero(degrees, sorted + leaves)
      decreases |graph| - |sorted|
    {
      degrees, sorted, leaves := RemoveLeaf(graph, degrees, dependents, sorted, leaves);
    }
    assert sorted + leaves == sorted;
    AllSortedOrStuck(graph, degrees, sorted);
    var found, index, at := FindPositive(degrees, iteration);
    if found { FirstPositiveLeads(graph, degrees, iteration, at); }
    return if found then Cycle(index) else Ok(sorted);
  }
}
