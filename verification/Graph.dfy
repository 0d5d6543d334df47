/** The dependency graph of `shinken/graph.py`: a five-colour depth-first loop
    detector and the partition into accessibility packs.  Both algorithms tag the
    node objects in place and remove the tags afterwards. */
module Graphs {

  datatype Status =
    | NoTag
    | Unchecked
    | TemporaryChecked
    | Ok
    | NearLoop
    | LoopInside
    | Checked

  class Node {
    var dfsLoopStatus: Status

    constructor ()
      ensures dfsLoopStatus == NoTag
    {
      dfsLoopStatus := NoTag;
    }
  }

  type Edges = map<Node, seq<Node>>
  type Tagging = map<Node, Status>

  // ----- Paths and cycles -----

  /** Every child of a node is itself a node. */
  ghost predicate Closed(g: Edges) {
    forall n, c :: n in g && c in g[n] ==> c in g
  }

  /** There is a walk of exactly `k` edges from `a` to `b`. */
  ghost predicate Walk(g: Edges, a: Node, b: Node, k: nat)
    requires Closed(g) && a in g
    decreases k
  {
    if k == 0 then a == b else exists m :: m in g[a] && Walk(g, m, b, k - 1)
  }

  ghost predicate Reaches(g: Edges, a: Node, b: Node)
    requires Closed(g) && a in g
  {
    exists k: nat :: Walk(g, a, b, k)
  }

  ghost predicate OnCycle(g: Edges, n: Node)
    requires Closed(g) && n in g
  {
    exists m :: m in g[n] && Reaches(g, m, n)
  }

  ghost predicate ReachesCycle(g: Edges, n: Node)
    requires Closed(g) && n in g
  {
    exists m :: m in g && Reaches(g, n, m) && OnCycle(g, m)
  }

  lemma {:induction false} WalkCompose(g: Edges, a: Node, b: Node, c: Node, j: nat, k: nat)
    requires Closed(g) && a in g && b in g
    requires Walk(g, a, b, j) && Walk(g, b, c, k)
    ensures Walk(g, a, c, j + k)
    decreases j
  {
    if j > 0 {
      var m :| m in g[a] && Walk(g, m, b, j - 1);
      WalkCompose(g, m, b, c, j - 1, k);
    }
  }

  lemma ReachesRefl(g: Edges, a: Node)
    requires Closed(g) && a in g
    ensures Reaches(g, a, a)
  {
    assert Walk(g, a, a, 0);
  }

  lemma ReachesTrans(g: Edges, a: Node, b: Node, c: Node)
    requires Closed(g) && a in g && b in g
    requires Reaches(g, a, b) && Reaches(g, b, c)
    ensures Reaches(g, a, c)
  {
    var j: nat :| Walk(g, a, b, j);
    var k: nat :| Walk(g, b, c, k);
    WalkCompose(g, a, b, c, j, k);
  }

  lemma ReachesEdge(g: Edges, a: Node, b: Node)
    requires Closed(g) && a in g && b in g[a]
    ensures Reaches(g, a, b)
  {
    assert Walk(g, b, b, 0);
    assert Walk(g, a, b, 1);
  }

  /** A non-empty walk starts with an edge. */
  lemma ReachesFirstStep(g: Edges, a: Node, b: Node)
    requires Closed(g) && a in g
    requires Reaches(g, a, b) && a != b
    ensures exists m :: m in g[a] && Reaches(g, m, b)
  {
    var k: nat :| Walk(g, a, b, k);
    var m :| m in g[a] && Walk(g, m, b, k - 1);
    assert Reaches(g, m, b);
  }

  /** A node on a cycle has a predecessor that it reaches. */
  lemma {:induction false} LastStep(g: Edges, a: Node, b: Node, k: nat) returns (p: Node)
    requires Closed(g) && a in g && Walk(g, a, b, k) && k > 0
    ensures p in g && b in g[p] && Reaches(g, a, p)
    decreases k
  {
    var m :| m in g[a] && Walk(g, m, b, k - 1);
    if k == 1 {
      p := a;
      ReachesRefl(g, a);
    } else {
      p := LastStep(g, m, b, k - 1);
      ReachesEdge(g, a, m);
      ReachesTrans(g, a, m, p);
    }
  }

  lemma CyclePredecessor(g: Edges, n: Node) returns (p: Node)
    requires Closed(g) && n in g && OnCycle(g, n)
    ensures p in g && n in g[p] && Reaches(g, n, p)
  {
    var m :| m in g[n] && Reaches(g, m, n);
    var k: nat :| Walk(g, m, n, k);
    assert Walk(g, n, n, k + 1);
    p := LastStep(g, n, n, k + 1);
  }

  lemma CycleReached(g: Edges, a: Node, n: Node)
    requires Closed(g) && a in g && n in g
    requires Reaches(g, a, n) && ReachesCycle(g, n)
    ensures ReachesCycle(g, a)
  {
    var m :| m in g && Reaches(g, n, m) && OnCycle(g, m);
    ReachesTrans(g, a, n, m);
  }

  lemma OnCycleReaches(g: Edges, n: Node)
    requires Closed(g) && n in g && OnCycle(g, n)
    ensures ReachesCycle(g, n)
  {
    ReachesRefl(g, n);
  }

  /** A node leads to a cycle only through one of its children. */
  lemma CycleThroughChild(g: Edges, n: Node) returns (c: Node)
    requires Closed(g) && n in g && ReachesCycle(g, n)
    ensures c in g[n] && ReachesCycle(g, c)
  {
    var m :| m in g && Reaches(g, n, m) && OnCycle(g, m);
    if n == m {
      c :| c in g[n] && Reaches(g, c, n);
    } else {
      ReachesFirstStep(g, n, m);
      c :| c in g[n] && Reaches(g, c, m);
    }
  }

  /** A set of nodes closed under children holds everything its members reach. */
  lemma {:induction false} ClosedSetWalk(g: Edges, s: set<Node>, a: Node, b: Node, k: nat)
    requires Closed(g) && a in g && a in s && Walk(g, a, b, k)
    requires forall n, c :: n in s && n in g && c in g[n] ==> c in s
    ensures b in s
    decreases k
  {
    if k > 0 {
      var m :| m in g[a] && Walk(g, m, b, k - 1);
      ClosedSetWalk(g, s, m, b, k - 1);
    }
  }

  lemma ClosedSetReaches(g: Edges, s: set<Node>, a: Node, b: Node)
    requires Closed(g) && a in g && a in s && Reaches(g, a, b)
    requires forall n, c :: n in s && n in g && c in g[n] ==> c in s
    ensures b in s
  {
    var k: nat :| Walk(g, a, b, k);
    ClosedSetWalk(g, s, a, b, k);
  }

  // ----- What loop_check reports -----

  /** The i-th node of the iteration order is reported: it leads to a cycle, and it
      lies on one itself or some earlier node reaches it (so it was not the root
      of its own search). */
  ghost predicate Reported(g: Edges, order: seq<Node>, i: nat)
    requires Closed(g) && i < |order| && forall n :: n in order ==> n in g
  {
    && ReachesCycle(g, order[i])
    && (OnCycle(g, order[i]) || exists j :: 0 <= j < i && Reaches(g, order[j], order[i]))
  }

  ghost function Report(g: Edges, order: seq<Node>, upto: nat): seq<Node>
    requires Closed(g) && upto <= |order| && forall n :: n in order ==> n in g
  {
    if upto == 0 then []
    else Report(g, order, upto - 1) + (if Reported(g, order, upto - 1) then [order[upto - 1]] else [])
  }

  lemma {:induction false} ReportWitness(g: Edges, order: seq<Node>, upto: nat, n: Node) returns (i: nat)
    requires Closed(g) && upto <= |order| && forall m :: m in order ==> m in g
    requires n in Report(g, order, upto)
    ensures i < upto && order[i] == n && Reported(g, order, i)
  {
    if n in Report(g, order, upto - 1) {
      i := ReportWitness(g, order, upto - 1, n);
    } else {
      i := upto - 1;
    }
  }

  lemma {:induction false} ReportHas(g: Edges, order: seq<Node>, upto: nat, i: nat)
    requires Closed(g) && upto <= |order| && forall m :: m in order ==> m in g
    requires i < upto && Reported(g, order, i)
    ensures order[i] in Report(g, order, upto)
  {
    if i < upto - 1 {
      ReportHas(g, order, upto - 1, i);
    }
  }

  /** Every reported node leads to a cycle. */
  lemma ReportSound(g: Edges, order: seq<Node>, n: Node)
    requires Closed(g) && g.Keys == set m | m in order
    requires n in Report(g, order, |order|)
    ensures n in g && ReachesCycle(g, n)
  {
    var i := ReportWitness(g, order, |order|, n);
  }

  /** Every node on a cycle is reported. */
  lemma ReportComplete(g: Edges, order: seq<Node>, n: Node)
    requires Closed(g) && g.Keys == set m | m in order
    requires n in g && OnCycle(g, n)
    ensures n in Report(g, order, |order|)
  {
    OnCycleReaches(g, n);
    assert n in order;
    var i :| 0 <= i < |order| && order[i] == n;
    ReportHas(g, order, |order|, i);
  }

  /** Nothing is reported exactly when the graph has no cycle. */
  lemma ReportEmptyIffAcyclic(g: Edges, order: seq<Node>)
    requires Closed(g) && g.Keys == set m | m in order
    ensures Report(g, order, |order|) == [] <==> forall n :: n in g ==> !OnCycle(g, n)
  {
    var r := Report(g, order, |order|);
    if r != [] {
      ReportSound(g, order, r[0]);
      var m :| m in g && Reaches(g, r[0], m) && OnCycle(g, m);
    }
    forall n | n in g && OnCycle(g, n) ensures n in r {
      ReportComplete(g, order, n);
    }
  }

  /** A node that leads to a cycle is missed exactly when it is off every cycle and no
      earlier node of the order reaches it. */
  lemma ReportMisses(g: Edges, order: seq<Node>, i: nat)
    requires Closed(g) && g.Keys == set m | m in order
    requires i < |order| && forall j, k :: 0 <= j < k < |order| ==> order[j] != order[k]
    requires ReachesCycle(g, order[i])
    ensures order[i] !in Report(g, order, |order|) <==>
            !OnCycle(g, order[i]) && forall j :: 0 <= j < i ==> !Reaches(g, order[j], order[i])
  {
    if order[i] in Report(g, order, |order|) {
      var k := ReportWitness(g, order, |order|, order[i]);
      assert k == i;
    } else if Reported(g, order, i) {
      ReportHas(g, order, |order|, i);
    }
  }

  // ----- The reachability facts that the searches use -----

  /** `down[n]` is what `n` reaches, `onCycle` the nodes on a cycle and `toCycle` the
      nodes that lead to one.  Keeping them as plain sets leaves the walks
      themselves out of the search proofs. */
  datatype Facts = Facts(g: Edges, down: map<Node, set<Node>>, onCycle: set<Node>, toCycle: set<Node>)

  type Theory = th: Facts | Sound(th) witness Facts(map[], map[], {}, {})

  ghost predicate HasChildIn(g: Edges, a: Node, s: set<Node>)
    requires a in g
  {
    exists c :: c in g[a] && c in s
  }

  ghost predicate Sound(th: Facts) {
    && Closed(th.g)
    && th.down.Keys == th.g.Keys
    && (forall a :: a in th.g ==> a in th.down[a])
    && (forall a, b, c :: a in th.g && b in th.g && b in th.down[a] && c in th.g[b] ==> c in th.down[a])
    && (forall a, c :: a in th.g && c in th.g[a] ==> th.down[c] <= th.down[a])
    && (forall a, c :: a in th.g && c in th.g[a] && a in th.down[c] ==> a in th.onCycle && c in th.onCycle)
    && th.onCycle <= th.toCycle
    && (forall a, c :: a in th.g && c in th.g[a] && c in th.toCycle ==> a in th.toCycle)
    && (forall a {:trigger HasChildIn(th.g, a, th.toCycle)} ::
          a in th.g && a in th.toCycle ==> HasChildIn(th.g, a, th.toCycle))
  }

  /** The actual facts of the graph `g`. */
  ghost function TheoryOf(g: Edges): Facts
    requires Closed(g)
  {
    Facts(g, map a | a in g :: (set b | b in g && Reaches(g, a, b)),
          set n | n in g && OnCycle(g, n),
          set n | n in g && ReachesCycle(g, n))
  }

  lemma BackEdgeOnCycle(g: Edges, a: Node, c: Node)
    requires Closed(g) && a in g && c in g[a] && Reaches(g, c, a)
    ensures OnCycle(g, a) && OnCycle(g, c)
  {
    if a != c {
      ReachesFirstStep(g, c, a);
      var m :| m in g[c] && Reaches(g, m, a);
      ReachesEdge(g, a, c);
      ReachesTrans(g, m, a, c);
    }
  }

  lemma TheoryDown(g: Edges, a: Node, b: Node, c: Node)
    requires Closed(g) && a in g && b in g && c in g && Reaches(g, a, b) && c in g[b]
    ensures Reaches(g, a, c) && TheoryOf(g).down[c] <= TheoryOf(g).down[b]
  {
    ReachesEdge(g, b, c);
    ReachesTrans(g, a, b, c);
    forall n | n in g && Reaches(g, c, n) ensures Reaches(g, b, n) {
      ReachesTrans(g, b, c, n);
    }
  }

  lemma TheoryCycle(g: Edges, a: Node, c: Node)
    requires Closed(g) && a in g && c in g[a]
    ensures Reaches(g, c, a) ==> OnCycle(g, a) && OnCycle(g, c)
    ensures ReachesCycle(g, c) ==> ReachesCycle(g, a)
  {
    if Reaches(g, c, a) {
      BackEdgeOnCycle(g, a, c);
    }
    if ReachesCycle(g, c) {
      ReachesEdge(g, a, c);
      CycleReached(g, a, c);
    }
  }

  lemma TheoryChild(g: Edges, a: Node)
    requires Closed(g) && a in g
    ensures a in TheoryOf(g).toCycle ==> HasChildIn(g, a, TheoryOf(g).toCycle)
    ensures a in TheoryOf(g).onCycle ==> a in TheoryOf(g).toCycle
    ensures a in TheoryOf(g).down[a]
  {
    ReachesRefl(g, a);
    if ReachesCycle(g, a) {
      var c := CycleThroughChild(g, a);
      assert c in TheoryOf(g).toCycle;
    }
  }

  lemma TheorySoundDown(g: Edges, th: Facts)
    requires Closed(g) && th == TheoryOf(g)
    ensures forall a, b, c :: a in g && b in g && b in th.down[a] && c in g[b] ==> c in th.down[a]
  {
    forall a, b, c | a in g && b in g && b in th.down[a] && c in g[b] ensures c in th.down[a] {
      TheoryDown(g, a, b, c);
    }
  }

  lemma TheorySoundStep(g: Edges, th: Facts)
    requires Closed(g) && th == TheoryOf(g)
    ensures forall a, c :: a in g && c in g[a] ==> th.down[c] <= th.down[a]
  {
    forall a, c | a in g && c in g[a] ensures th.down[c] <= th.down[a] {
      ReachesRefl(g, a);
      TheoryDown(g, a, a, c);
    }
  }

  lemma TheorySoundCycle(g: Edges, th: Facts)
    requires Closed(g) && th == TheoryOf(g)
    ensures forall a, c :: a in g && c in g[a] && a in th.down[c] ==> a in th.onCycle && c in th.onCycle
    ensures forall a, c :: a in g && c in g[a] && c in th.toCycle ==> a in th.toCycle
  {
    forall a, c | a in g && c in g[a]
      ensures a in th.down[c] ==> a in th.onCycle && c in th.onCycle
      ensures c in th.toCycle ==> a in th.toCycle
    {
      TheoryCycle(g, a, c);
    }
  }

  lemma TheorySoundNode(g: Edges, th: Facts)
    requires Closed(g) && th == TheoryOf(g)
    ensures th.g == g && th.down.Keys == g.Keys && th.onCycle <= th.toCycle
    ensures forall a :: a in g ==> a in th.down[a]
    ensures forall a {:trigger HasChildIn(g, a, th.toCycle)} :: a in g && a in th.toCycle ==> HasChildIn(g, a, th.toCycle)
  {
    forall a | a in g
      ensures a in th.down[a] && (a in th.toCycle ==> HasChildIn(g, a, th.toCycle))
      ensures a in th.onCycle ==> a in th.toCycle
    {
      TheoryChild(g, a);
    }
  }

  lemma TheorySound(g: Edges, th: Facts)
    requires Closed(g) && th == TheoryOf(g)
    ensures Sound(th)
  {
    TheorySoundNode(g, th);
    TheorySoundDown(g, th);
    TheorySoundStep(g, th);
    TheorySoundCycle(g, th);
  }

  // ----- The search invariant, on values -----

  ghost predicate Settled(s: Status) {
    s == Ok || s == LoopInside
  }

  ghost predicate Active(s: Status) {
    s == TemporaryChecked || s == NearLoop || s == LoopInside
  }

  /** `stack` holds the nodes whose children are still being scanned. */
  ghost predicate SearchInv(g: Edges, t: Tagging, th: Facts, stack: set<Node>)
    requires Closed(g) && t.Keys == g.Keys
  {
    && stack <= g.Keys
    && (forall n :: n in g ==> t[n] == Unchecked || t[n] == Ok || Active(t[n]))
    && (forall n :: n in stack ==> Active(t[n]) && (t[n] == LoopInside ==> n in th.onCycle))
    && (forall n :: n in g && t[n] == TemporaryChecked ==> n in stack)
    && (forall n :: n in g && t[n] == Ok ==> n !in th.toCycle)
    && (forall n :: n in g && (t[n] == NearLoop || t[n] == LoopInside) ==> n in th.toCycle)
    && (forall n, c :: n in g && n !in stack && t[n] != Unchecked && c in g[n] ==> Settled(t[c]))
  }

  /** Tags only ever move forward. */
  ghost predicate Advances(t: Tagging, u: Tagging)
    requires t.Keys == u.Keys
  {
    forall n :: n in t && t[n] != Unchecked ==>
      && u[n] != Unchecked
      && (Settled(t[n]) ==> u[n] == t[n])
      && (t[n] == NearLoop ==> u[n] != TemporaryChecked)
      && (Active(t[n]) ==> Active(u[n]))
  }

  /** An active node that leads to a cycle may be raised to LoopInside. */
  lemma RaiseLoop(g: Edges, t: Tagging, th: Facts, gray: set<Node>, n: Node)
    requires Closed(g) && t.Keys == g.Keys && SearchInv(g, t, th, gray)
    requires n in g && Active(t[n]) && n in th.toCycle && (n in gray ==> n in th.onCycle)
    ensures SearchInv(g, t[n := LoopInside], th, gray) && Advances(t, t[n := LoopInside])
  {
  }

  lemma RaiseNear(g: Edges, t: Tagging, th: Facts, gray: set<Node>, n: Node)
    requires Closed(g) && t.Keys == g.Keys && SearchInv(g, t, th, gray)
    requires n in gray && t[n] != LoopInside && n in th.toCycle
    ensures SearchInv(g, t[n := NearLoop], th, gray) && Advances(t, t[n := NearLoop])
  {
  }

  /** Opening `root`, before its children are scanned. */
  lemma OpenKeepsInv(g: Edges, t: Tagging, th: Facts, stack: set<Node>, root: Node)
    requires Closed(g) && t.Keys == g.Keys && SearchInv(g, t, th, stack)
    requires root in g && t[root] == Unchecked
    ensures SearchInv(g, t[root := TemporaryChecked], th, stack + {root})
    ensures Advances(t, t[root := TemporaryChecked])
  {
  }

  /** Closing `root` once all its children are settled. */
  lemma CloseKeepsInv(g: Edges, t: Tagging, th: Facts, stack: set<Node>, root: Node)
    requires Closed(g) && t.Keys == g.Keys && SearchInv(g, t, th, stack + {root})
    requires root in g && root !in stack && (root in th.toCycle ==> HasChildIn(g, root, th.toCycle))
    requires forall c :: c in g[root] ==> Settled(t[c])
    requires t[root] == TemporaryChecked ==> forall c :: c in g[root] ==> t[c] == Ok
    ensures SearchInv(g, if t[root] == TemporaryChecked then t[root := Ok] else t, th, stack)
  {
  }

  // ----- The search as a function of the tags -----

  ghost function Pending(t: Tagging): set<Node> {
    set n | n in t && t[n] == Unchecked
  }

  /** What scanning a visited child does to the tags. */
  ghost function Mark(t: Tagging, root: Node, child: Node): (u: Tagging)
    requires root in t && child in t
    ensures u.Keys == t.Keys && Pending(u) <= Pending(t)
  {
    if t[child] == TemporaryChecked then
      t[child := LoopInside][root := LoopInside]
    else if t[child] == NearLoop || t[child] == LoopInside then
      (if t[root] != LoopInside then t[root := NearLoop] else t)[child := LoopInside]
    else t
  }

  ghost function Search(g: Edges, t: Tagging, root: Node): (u: Tagging)
    requires Closed(g) && t.Keys == g.Keys && root in g && t[root] == Unchecked
    ensures u.Keys == t.Keys && Pending(u) < Pending(t) && root !in Pending(u)
    decreases Pending(t), 0
  {
    assert root in Pending(t) && root !in Pending(t[root := TemporaryChecked]);
    var u := SearchFrom(g, t[root := TemporaryChecked], root, 0);
    if u[root] == TemporaryChecked then u[root := Ok] else u
  }

  ghost function SearchFrom(g: Edges, t: Tagging, root: Node, i: nat): (u: Tagging)
    requires Closed(g) && t.Keys == g.Keys && root in g && t[root] != Unchecked && i <= |g[root]|
    ensures u.Keys == t.Keys && Pending(u) <= Pending(t) && root !in Pending(u)
    decreases Pending(t), |g[root]| - i + 1
  {
    if i == |g[root]| then t
    else
      var child := g[root][i];
      var v := if t[child] == Unchecked then Search(g, t, child) else t;
      assert root !in Pending(t) && root !in Pending(Mark(v, root, child));
      SearchFrom(g, Mark(v, root, child), root, i + 1)
  }

  lemma SearchFromStep(g: Edges, t: Tagging, v: Tagging, root: Node, i: nat)
    requires Closed(g) && t.Keys == g.Keys && root in g && t[root] != Unchecked && i < |g[root]|
    requires v == Visited(g, t, g[root][i])
    ensures Mark(v, root, g[root][i])[root] != Unchecked
    ensures SearchFrom(g, t, root, i) == SearchFrom(g, Mark(v, root, g[root][i]), root, i + 1)
  {
    assert root !in Pending(t) && root !in Pending(Mark(v, root, g[root][i]));
  }

  // ----- Correctness of the search -----

  ghost predicate ScannedChild(t: Tagging, root: Node, child: Node)
    requires root in t && child in t
  {
    Settled(t[child]) && (t[root] == TemporaryChecked ==> t[child] == Ok)
  }

  /** The first `k` children of `root` are settled, and all Ok while `root` is
      still only temporarily checked. */
  ghost predicate Scanned(g: Edges, t: Tagging, root: Node, k: nat)
    requires Closed(g) && t.Keys == g.Keys && root in g && k <= |g[root]|
  {
    forall i :: 0 <= i < k ==> ScannedChild(t, root, g[root][i])
  }

  /** The nodes that a search from `root` has tagged between `t` and `u` are all
      reachable from it and, but for `root` itself, settled. */
  ghost predicate Explored(t: Tagging, u: Tagging, down: set<Node>, root: Node)
    requires t.Keys == u.Keys
  {
    forall n :: n in t && t[n] == Unchecked && u[n] != Unchecked ==>
      n in down && (n != root ==> Settled(u[n]))
  }

  lemma MarkStep(g: Edges, th: Facts, v: Tagging, gray: set<Node>, root: Node, child: Node)
    requires Closed(g) && v.Keys == g.Keys && SearchInv(g, v, th, gray)
    requires root in g && root in gray && child in g[root] && v[child] != Unchecked
    requires child in gray ==> root in th.onCycle && child in th.onCycle
    requires th.onCycle <= th.toCycle && (child in th.toCycle ==> root in th.toCycle)
    ensures SearchInv(g, Mark(v, root, child), th, gray)
    ensures ScannedChild(Mark(v, root, child), root, child)
  {
    if v[child] == TemporaryChecked {
      RaiseLoop(g, v, th, gray, child);
      RaiseLoop(g, v[child := LoopInside], th, gray, root);
    } else if v[child] == NearLoop || v[child] == LoopInside {
      if v[root] != LoopInside {
        RaiseNear(g, v, th, gray, root);
        RaiseLoop(g, v[root := NearLoop], th, gray, child);
      } else {
        RaiseLoop(g, v, th, gray, child);
      }
    }
  }

  lemma MarkAdvances(v: Tagging, root: Node, child: Node)
    requires root in v && child in v && Active(v[root])
    ensures Advances(v, Mark(v, root, child))
    ensures forall n :: n in v && v[n] == Unchecked ==> Mark(v, root, child)[n] == Unchecked
  {
  }

  lemma ScannedAdvances(g: Edges, t: Tagging, u: Tagging, root: Node, k: nat)
    requires Closed(g) && t.Keys == u.Keys == g.Keys && root in g && k <= |g[root]|
    requires Scanned(g, t, root, k) && Advances(t, u) && Active(t[root])
    ensures Scanned(g, u, root, k)
  {
    forall i | 0 <= i < k ensures ScannedChild(u, root, g[root][i]) {
      assert ScannedChild(t, root, g[root][i]);
    }
  }

  lemma ExploredStep(t: Tagging, u: Tagging, v: Tagging, w: Tagging,
                     down: set<Node>, downChild: set<Node>, root: Node, child: Node)
    requires t.Keys == u.Keys == v.Keys == w.Keys && child in t
    requires Explored(t, u, down, root) && Explored(u, v, downChild, child)
    requires Advances(u, v) && Advances(v, w) && downChild <= down && Settled(w[child])
    requires forall n :: n in t && v[n] == Unchecked ==> w[n] == Unchecked
    ensures Explored(t, w, down, root)
  {
  }

  lemma AdvancesTrans(t: Tagging, u: Tagging, v: Tagging)
    requires t.Keys == u.Keys == v.Keys && Advances(t, u) && Advances(u, v)
    ensures Advances(t, v)
  {
  }

  /** The state of a search from `root` that started from the tags `before` and has
      scanned `i` children. */
  ghost predicate Running(g: Edges, th: Theory, before: Tagging, t: Tagging, gray: set<Node>, root: Node, i: nat)
    requires Closed(g) && root in g && root in th.down && i <= |g[root]|
  {
    && before.Keys == t.Keys == g.Keys && root in gray
    && SearchInv(g, t, th, gray) && Advances(before, t)
    && Scanned(g, t, root, i) && Explored(before, t, th.down[root], root)
  }

  /** The search keeps the invariant, moves tags forward only, explores only what
      `root` reaches, and marks `root` itself LoopInside only on a cycle. */
  lemma {:induction false} SearchCorrect(g: Edges, th: Theory, t: Tagging, stack: set<Node>, root: Node)
    requires th.g == g && t.Keys == g.Keys && root in g && t[root] == Unchecked
    requires SearchInv(g, t, th, stack)
    requires forall s :: s in stack ==> root in th.down[s]
    ensures var u := Search(g, t, root);
            && SearchInv(g, u, th, stack) && Advances(t, u)
            && (u[root] == LoopInside ==> root in th.onCycle)
            && Explored(t, u, th.down[root], root)
    decreases Pending(t), 0
  {
    var t1 := t[root := TemporaryChecked];
    OpenSearch(g, th, t, stack, root);
    assert root in Pending(t) && root !in Pending(t1) && Pending(t1) <= Pending(t);
    var u := SearchFrom(g, t1, root, 0);
    SearchFromCorrect(g, th, t, t1, u, stack + {root}, root, 0);
    CloseSearch(g, th, t, u, stack, root);
  }

  lemma OpenSearch(g: Edges, th: Theory, t: Tagging, stack: set<Node>, root: Node)
    requires th.g == g && t.Keys == g.Keys && root in g && t[root] == Unchecked
    requires SearchInv(g, t, th, stack) && forall s :: s in stack ==> root in th.down[s]
    ensures Running(g, th, t, t[root := TemporaryChecked], stack + {root}, root, 0)
    ensures root !in stack && stack + {root} <= g.Keys && forall s :: s in stack + {root} ==> root in th.down[s]
  {
    OpenKeepsInv(g, t, th, stack, root);
  }

  lemma CloseSearch(g: Edges, th: Theory, t: Tagging, u: Tagging, stack: set<Node>, root: Node)
    requires th.g == g && t.Keys == u.Keys == g.Keys && root in g && root !in stack && t[root] == Unchecked
    requires Running(g, th, t, u, stack + {root}, root, |g[root]|)
    ensures var w := if u[root] == TemporaryChecked then u[root := Ok] else u;
            && SearchInv(g, w, th, stack) && Advances(t, w)
            && (w[root] == LoopInside ==> root in th.onCycle)
            && Explored(t, w, th.down[root], root)
  {
    forall c | c in g[root]
      ensures Settled(u[c]) && (u[root] == TemporaryChecked ==> u[c] == Ok)
    {
      var k :| 0 <= k < |g[root]| && g[root][k] == c;
      assert ScannedChild(u, root, g[root][k]);
    }
    assert root in th.toCycle ==> HasChildIn(g, root, th.toCycle);
    CloseKeepsInv(g, u, th, stack, root);
    CloseAdvances(t, u, th.down[root], root);
  }

  lemma CloseAdvances(t: Tagging, u: Tagging, down: set<Node>, root: Node)
    requires t.Keys == u.Keys && root in t && t[root] == Unchecked && Advances(t, u) && Explored(t, u, down, root)
    ensures Advances(t, u[root := Ok])
    ensures u[root] != Unchecked ==> Explored(t, u[root := Ok], down, root)
  {
  }

  lemma {:induction false} SearchFromCorrect(g: Edges, th: Theory, before: Tagging, t: Tagging, u: Tagging,
                                             gray: set<Node>, root: Node, i: nat)
    requires th.g == g && root in g && i <= |g[root]|
    requires gray <= g.Keys && forall s :: s in gray ==> root in th.down[s]
    requires Running(g, th, before, t, gray, root, i) && t[root] != Unchecked && u == SearchFrom(g, t, root, i)
    ensures Running(g, th, before, u, gray, root, |g[root]|)
    decreases Pending(t), |g[root]| - i + 2, 1
  {
    if i < |g[root]| {
      SearchFromMore(g, th, before, t, u, gray, root, i);
    } else {
      SearchFromEnd(g, t, root);
    }
  }

  lemma {:induction false} SearchFromMore(g: Edges, th: Theory, before: Tagging, t: Tagging, u: Tagging,
                                          gray: set<Node>, root: Node, i: nat)
    requires th.g == g && root in g && i < |g[root]|
    requires gray <= g.Keys && forall s :: s in gray ==> root in th.down[s]
    requires Running(g, th, before, t, gray, root, i) && t[root] != Unchecked && u == SearchFrom(g, t, root, i)
    ensures Running(g, th, before, u, gray, root, |g[root]|)
    decreases Pending(t), |g[root]| - i + 2, 0
  {
    var w := OneChild(g, th, before, t, u, gray, root, i);
    Shrinks(Pending(w), Pending(t));
    SearchFromCorrect(g, th, before, w, u, gray, root, i + 1);
  }

  lemma Shrinks(a: set<Node>, b: set<Node>)
    requires a <= b
    ensures a < b || a == b
  {
  }

  lemma SearchFromEnd(g: Edges, t: Tagging, root: Node)
    requires Closed(g) && t.Keys == g.Keys && root in g && t[root] != Unchecked
    ensures SearchFrom(g, t, root, |g[root]|) == t
  {
  }

  lemma {:induction false} OneChild(g: Edges, th: Theory, before: Tagging, t: Tagging, u: Tagging,
                                    gray: set<Node>, root: Node, i: nat) returns (w: Tagging)
    requires th.g == g && root in g && i < |g[root]|
    requires gray <= g.Keys && forall s :: s in gray ==> root in th.down[s]
    requires Running(g, th, before, t, gray, root, i) && t[root] != Unchecked && u == SearchFrom(g, t, root, i)
    ensures Running(g, th, before, w, gray, root, i + 1) && w[root] != Unchecked && Pending(w) <= Pending(t)
    ensures u == SearchFrom(g, w, root, i + 1)
    decreases Pending(t), 2
  {
    var child := g[root][i];
    var v := Visited(g, t, child);
    w := Mark(v, root, child);
    SearchFromStep(g, t, v, root, i);
    VisitChild(g, th, t, v, gray, root, child);
    ChildStep(g, th, before, t, v, gray, root, i);
  }

  /** The tags after a child has been searched if it was unchecked. */
  ghost function Visited(g: Edges, t: Tagging, child: Node): (v: Tagging)
    requires Closed(g) && t.Keys == g.Keys && child in g
    ensures v.Keys == g.Keys
  {
    if t[child] == Unchecked then Search(g, t, child) else t
  }

  lemma {:induction false} VisitChild(g: Edges, th: Theory, t: Tagging, v: Tagging,
                                      gray: set<Node>, root: Node, child: Node)
    requires th.g == g && t.Keys == g.Keys && root in g && child in g[root]
    requires gray <= g.Keys && SearchInv(g, t, th, gray) && forall s :: s in gray ==> root in th.down[s]
    requires v == Visited(g, t, child)
    ensures v.Keys == g.Keys && SearchInv(g, v, th, gray) && Advances(t, v) && v[child] != Unchecked
    ensures Explored(t, v, th.down[child], child)
    ensures Pending(v) <= Pending(t)
    decreases Pending(t), 1
  {
    if t[child] == Unchecked {
      SearchCorrect(g, th, t, gray, child);
      assert child !in Pending(v);
    }
  }

  lemma ChildStep(g: Edges, th: Theory, before: Tagging, t: Tagging, v: Tagging,
                  gray: set<Node>, root: Node, i: nat)
    requires th.g == g && root in g && i < |g[root]| && gray <= g.Keys
    requires forall s :: s in gray ==> root in th.down[s]
    requires Running(g, th, before, t, gray, root, i) && v.Keys == g.Keys
    requires SearchInv(g, v, th, gray) && Advances(t, v) && v[g[root][i]] != Unchecked
    requires Explored(t, v, th.down[g[root][i]], g[root][i])
    ensures Running(g, th, before, Mark(v, root, g[root][i]), gray, root, i + 1)
  {
    var child := g[root][i];
    var w := Mark(v, root, child);
    MarkStep(g, th, v, gray, root, child);
    MarkAdvances(v, root, child);
    AdvancesTrans(t, v, w);
    AdvancesTrans(before, t, w);
    ScannedAdvances(g, t, w, root, i);
    ExploredStep(before, t, v, w, th.down[root], th.down[child], root, child);
  }

  // ----- The outer loops -----

  /** What the first `i` nodes of the order reach. */
  ghost function Seen(th: Facts, order: seq<Node>, i: nat): set<Node>
    requires i <= |order| && forall n :: n in order ==> n in th.down
  {
    if i == 0 then {} else Seen(th, order, i - 1) + th.down[order[i - 1]]
  }

  lemma {:induction false} SeenBy(th: Facts, order: seq<Node>, i: nat, n: Node)
    requires i <= |order| && forall m :: m in order ==> m in th.down
    ensures n in Seen(th, order, i) <==> exists j :: 0 <= j < i && n in th.down[order[j]]
  {
    if i > 0 {
      SeenBy(th, order, i - 1, n);
    }
  }

  /** Between two searches of loop_check: the tagged nodes are those `seen` from the
      roots so far, and only nodes `done` in the outer loop may be unsettled. */
  ghost predicate BetweenSearches(g: Edges, th: Facts, t: Tagging, seen: set<Node>, done: set<Node>)
    requires Closed(g)
  {
    && t.Keys == g.Keys
    && SearchInv(g, t, th, {})
    && (forall n :: n in g ==> (t[n] != Unchecked <==> n in seen))
    && (forall n :: n in g && t[n] != Unchecked && n !in done ==> Settled(t[n]))
  }

  /** Once the stack is empty, the tagged nodes are closed under children. */
  lemma TaggedReach(g: Edges, th: Facts, t: Tagging, root: Node)
    requires Closed(g) && th == TheoryOf(g) && t.Keys == g.Keys && root in g
    requires SearchInv(g, t, th, {}) && t[root] != Unchecked
    ensures forall n :: n in th.down[root] ==> t[n] != Unchecked
  {
    var tagged := set n | n in g && t[n] != Unchecked;
    forall n | n in g && Reaches(g, root, n) ensures n in tagged {
      ClosedSetReaches(g, tagged, root, n);
    }
  }

  /** A finished root on a cycle is marked LoopInside. */
  lemma CycleRootMarked(g: Edges, th: Facts, t: Tagging, root: Node)
    requires Closed(g) && th == TheoryOf(g) && t.Keys == g.Keys && root in g
    requires SearchInv(g, t, th, {}) && t[root] != Unchecked && OnCycle(g, root)
    ensures t[root] == LoopInside
  {
    var p := CyclePredecessor(g, root);
    TaggedReach(g, th, t, root);
    assert p in th.down[root];
    OnCycleReaches(g, root);
    assert root in th.toCycle;
    assert t[p] != Unchecked && Settled(t[root]);
  }

  lemma SearchNext(g: Edges, th: Facts, t: Tagging, u: Tagging,
                   seen: set<Node>, done: set<Node>, down: set<Node>, root: Node)
    requires Closed(g) && BetweenSearches(g, th, t, seen, done)
    requires u.Keys == g.Keys && SearchInv(g, u, th, {}) && Advances(t, u)
    requires Explored(t, u, down, root)
    requires forall n :: n in g && n in down ==> u[n] != Unchecked
    ensures BetweenSearches(g, th, u, seen + down, done + {root})
  {
  }

  lemma TurnSearch(g: Edges, th: Theory, t: Tagging, u: Tagging, root: Node)
    requires th.g == g && t.Keys == g.Keys && root in g && SearchInv(g, t, th, {})
    requires u == if t[root] == Unchecked then Search(g, t, root) else t
    ensures u.Keys == g.Keys && SearchInv(g, u, th, {}) && Advances(t, u) && u[root] != Unchecked
    ensures Explored(t, u, th.down[root], root)
    ensures t[root] == Unchecked && u[root] == LoopInside ==> root in th.onCycle
  {
    if t[root] == Unchecked {
      SearchCorrect(g, th, t, {}, root);
      assert root !in Pending(u);
    }
  }

  /** After its turn, a node carries LoopInside exactly when it leads to a cycle and
      either lies on one or was seen before. */
  lemma TurnReports(g: Edges, th: Facts, t: Tagging, u: Tagging, seen: set<Node>, done: set<Node>, root: Node)
    requires Closed(g) && th == TheoryOf(g) && root in g && root !in done
    requires BetweenSearches(g, th, t, seen, done)
    requires u == TurnTags(g, t, root)
    ensures BetweenSearches(g, th, u, seen + th.down[root], done + {root})
    ensures u[root] == LoopInside <==> root in th.toCycle && (root in th.onCycle || root in seen)
  {
    TheorySound(g, th);
    TurnSearch(g, th, t, u, root);
    TaggedReach(g, th, u, root);
    SearchNext(g, th, t, u, seen, done, th.down[root], root);
    if OnCycle(g, root) {
      CycleRootMarked(g, th, u, root);
    }
  }

  // ----- loop_check as a function -----

  ghost function AllTagged(g: Edges, s: Status): Tagging {
    map n | n in g :: s
  }

  ghost function TurnTags(g: Edges, t: Tagging, n: Node): (u: Tagging)
    requires Closed(g) && t.Keys == g.Keys && n in g
    ensures u.Keys == t.Keys
  {
    if t[n] == Unchecked then Search(g, t, n) else t
  }

  /** The tags after the first `i` turns of the outer loop. */
  ghost function TagsAfter(g: Edges, order: seq<Node>, i: nat): (u: Tagging)
    requires Closed(g) && i <= |order| && forall n :: n in order ==> n in g
    ensures u.Keys == g.Keys
  {
    if i == 0 then AllTagged(g, Unchecked) else TurnTags(g, TagsAfter(g, order, i - 1), order[i - 1])
  }

  /** The nodes appended during the first `i` turns. */
  ghost function Collected(g: Edges, order: seq<Node>, i: nat): seq<Node>
    requires Closed(g) && i <= |order| && forall n :: n in order ==> n in g
  {
    if i == 0 then []
    else Collected(g, order, i - 1) +
         (if TagsAfter(g, order, i)[order[i - 1]] == LoopInside then [order[i - 1]] else [])
  }

  ghost function Prefix(order: seq<Node>, i: nat): set<Node>
    requires i <= |order|
  {
    if i == 0 then {} else Prefix(order, i - 1) + {order[i - 1]}
  }

  lemma {:induction false} PrefixMembers(order: seq<Node>, i: nat)
    requires i <= |order|
    ensures forall n :: n in Prefix(order, i) ==> exists j :: 0 <= j < i && order[j] == n
  {
    if i > 0 {
      PrefixMembers(order, i - 1);
    }
  }

  lemma {:induction false} TagsAfterInv(g: Edges, th: Facts, order: seq<Node>, i: nat,
                                        t: Tagging, seen: set<Node>, done: set<Node>)
    requires Closed(g) && th == TheoryOf(g) && i <= |order|
    requires forall n :: n in order ==> n in g
    requires forall j, k :: 0 <= j < k < |order| ==> order[j] != order[k]
    requires t == TagsAfter(g, order, i) && seen == Seen(th, order, i) && done == Prefix(order, i)
    ensures BetweenSearches(g, th, t, seen, done)
  {
    if i > 0 {
      var t0, seen0, done0 := TagsAfter(g, order, i - 1), Seen(th, order, i - 1), Prefix(order, i - 1);
      TagsAfterInv(g, th, order, i - 1, t0, seen0, done0);
      NotBefore(order, i - 1);
      TagsAfterStep(g, order, i - 1);
      assert order[i - 1] in order;
      assert t == TurnTags(g, t0, order[i - 1]);
      TurnReports(g, th, t0, t, seen0, done0, order[i - 1]);
    }
  }

  lemma NotBefore(order: seq<Node>, i: nat)
    requires i < |order| && forall j, k :: 0 <= j < k < |order| ==> order[j] != order[k]
    ensures order[i] !in Prefix(order, i)
  {
    PrefixMembers(order, i);
  }

  lemma CollectedStep(g: Edges, order: seq<Node>, i: nat)
    requires Closed(g) && i < |order| && forall n :: n in order ==> n in g
    ensures var t := TurnTags(g, TagsAfter(g, order, i), order[i]);
            && TagsAfter(g, order, i + 1) == t
            && Collected(g, order, i + 1) == Collected(g, order, i) + if t[order[i]] == LoopInside then [order[i]] else []
  {
  }

  lemma TagsAfterStep(g: Edges, order: seq<Node>, i: nat)
    requires Closed(g) && i < |order| && forall n :: n in order ==> n in g
    ensures TagsAfter(g, order, i + 1) == TurnTags(g, TagsAfter(g, order, i), order[i])
  {
  }

  lemma TurnIsReported(g: Edges, th: Facts, order: seq<Node>, i: nat)
    requires Closed(g) && th == TheoryOf(g) && i < |order|
    requires forall n :: n in order ==> n in g
    requires forall j, k :: 0 <= j < k < |order| ==> order[j] != order[k]
    ensures TagsAfter(g, order, i + 1)[order[i]] == LoopInside <==> Reported(g, order, i)
  {
    var t, seen, done := TagsAfter(g, order, i), Seen(th, order, i), Prefix(order, i);
    TagsAfterInv(g, th, order, i, t, seen, done);
    NotBefore(order, i);
    TurnReports(g, th, t, TagsAfter(g, order, i + 1), seen, done, order[i]);
    SeenBy(th, order, i, order[i]);
  }

  lemma {:induction false} CollectedIsReport(g: Edges, order: seq<Node>, i: nat)
    requires Closed(g) && i <= |order|
    requires forall n :: n in order ==> n in g
    requires forall j, k :: 0 <= j < k < |order| ==> order[j] != order[k]
    ensures Collected(g, order, i) == Report(g, order, i)
  {
    if i > 0 {
      CollectedIsReport(g, order, i - 1);
      TurnIsReported(g, TheoryOf(g), order, i - 1);
    }
  }

  // ----- Accessibility packs -----

  /** Every edge can be walked back; in particular, every symmetric graph. */
  ghost predicate Returning(g: Edges) {
    Closed(g) && forall a, b :: a in g && b in g[a] ==> Reaches(g, b, a)
  }

  lemma SymmetricIsReturning(g: Edges)
    requires Closed(g) && forall a, b :: a in g && b in g[a] ==> a in g[b]
    ensures Returning(g)
  {
    forall a, b | a in g && b in g[a] ensures Reaches(g, b, a) {
      ReachesEdge(g, b, a);
    }
  }

  lemma {:induction false} WalkBack(g: Edges, a: Node, b: Node, k: nat)
    requires Returning(g) && a in g && b in g && Walk(g, a, b, k)
    ensures Reaches(g, b, a)
    decreases k
  {
    if k == 0 {
      ReachesRefl(g, a);
    } else {
      var m :| m in g[a] && Walk(g, m, b, k - 1);
      WalkBack(g, m, b, k - 1);
      ReachesTrans(g, b, m, a);
    }
  }

  /** In a graph whose edges can be walked back, reachability is an equivalence. */
  lemma ReachesSymmetric(g: Edges, a: Node, b: Node)
    requires Returning(g) && a in g && b in g && Reaches(g, a, b)
    ensures Reaches(g, b, a)
  {
    var k: nat :| Walk(g, a, b, k);
    WalkBack(g, a, b, k);
  }

  /** The nodes that `n` reaches. */
  ghost function Component(g: Edges, n: Node): set<Node>
    requires Closed(g) && n in g
  {
    set m | m in g && Reaches(g, n, m)
  }

  /** The nodes `fresh` visited by one call from `root`, given those `before` and the
      returned set. */
  ghost predicate Gathered(g: Edges, before: set<Node>, after: set<Node>, ret: set<Node>, down: set<Node>, root: Node)
    requires Closed(g)
  {
    && before <= after && root in after && root in ret
    && after - before <= ret <= down
    && (forall n, c :: n in g && n in after && n !in before && c in g[n] ==> c in after)
  }

  /** Starting from a closed set of checked nodes that misses `root`, one call gathers
      exactly the component of `root` and leaves a closed set. */
  lemma GatheredComponent(g: Edges, before: set<Node>, after: set<Node>, ret: set<Node>, root: Node)
    requires Returning(g) && root in g && root !in before && before <= g.Keys
    requires forall n, c :: n in before && c in g[n] ==> c in before
    requires Gathered(g, before, after, ret, Component(g, root), root)
    ensures ret == Component(g, root) && after == before + ret && ret !! before
    ensures forall n, c :: n in g && n in after && c in g[n] ==> c in after
  {
    forall n | n in Component(g, root) ensures n in after && n !in before {
      ClosedSetReaches(g, after, root, n);
      ReachesSymmetric(g, root, n);
      if n in before {
        ClosedSetReaches(g, before, n, root);
      }
    }
  }

  /** The packs found so far: distinct components that together are the checked set. */
  ghost predicate ArePacks(g: Edges, packs: seq<set<Node>>, checked: set<Node>)
    requires Closed(g)
  {
    && Covered(packs, checked)
    && (forall p :: p in packs ==> p <= checked && IsComponent(g, p))
    && (forall j, k :: 0 <= j < k < |packs| ==> packs[j] !! packs[k])
  }

  ghost predicate IsComponent(g: Edges, p: set<Node>)
    requires Closed(g)
  {
    exists n :: n in g && n in p && p == Component(g, n)
  }

  /** Every node of `s` is in some pack. */
  ghost predicate Covered(packs: seq<set<Node>>, s: set<Node>) {
    forall n :: n in s ==> exists k :: 0 <= k < |packs| && n in packs[k]
  }

  lemma CoveredNext(packs: seq<set<Node>>, before: set<Node>, after: set<Node>, pack: set<Node>)
    requires Covered(packs, before) && after <= before + pack
    ensures Covered(packs + [pack], after)
  {
    var qs := packs + [pack];
    forall n | n in after ensures exists k :: 0 <= k < |qs| && n in qs[k] {
      if n in before {
        var k :| 0 <= k < |packs| && n in packs[k];
        assert n in qs[k];
      } else {
        assert n in qs[|packs|];
      }
    }
  }

  lemma PacksNext(g: Edges, packs: seq<set<Node>>, before: set<Node>, root: Node)
    requires Closed(g) && root in g && ArePacks(g, packs, before) && Component(g, root) !! before
    ensures ArePacks(g, packs + [Component(g, root)], before + Component(g, root))
  {
    var c := Component(g, root);
    var qs := packs + [c];
    CoveredNext(packs, before, before + c, c);
    assert IsComponent(g, c) by {
      ReachesRefl(g, root);
    }
    forall p | p in qs ensures p <= before + c && IsComponent(g, p) {
      if p !in packs {
        assert p == c;
      }
    }
    forall j, k | 0 <= j < k < |qs| ensures qs[j] !! qs[k] {
      assert packs[j] in packs;
    }
  }

  /** One turn of the outer loop, in any graph and in one whose edges can be walked back. */
  lemma PackTurn(g: Edges, th: Facts, packs: seq<set<Node>>, before: set<Node>, after: set<Node>,
                 pack: set<Node>, root: Node)
    requires Closed(g) && th == TheoryOf(g) && root in g && root !in before && before <= g.Keys
    requires forall n, c :: n in before && c in g[n] ==> c in before
    requires Gathered(g, before, after, pack, th.down[root], root)
    requires Covered(packs, before) && (Returning(g) ==> ArePacks(g, packs, before))
    ensures Covered(packs + [pack], after)
    ensures Returning(g) ==> ArePacks(g, packs + [pack], after)
  {
    CoveredNext(packs, before, after, pack);
    if Returning(g) {
      assert th.down[root] == Component(g, root);
      GatheredComponent(g, before, after, pack, root);
      PacksNext(g, packs, before, root);
    }
  }

  /** Two nodes share a pack exactly when a path joins them. */
  lemma PacksAreComponents(g: Edges, packs: seq<set<Node>>, a: Node, b: Node)
    requires Returning(g) && ArePacks(g, packs, g.Keys) && a in g && b in g
    ensures (exists k :: 0 <= k < |packs| && a in packs[k] && b in packs[k]) <==> Reaches(g, a, b)
    ensures exists k :: 0 <= k < |packs| && a in packs[k] && forall j :: 0 <= j < |packs| && a in packs[j] ==> j == k
  {
    var k :| 0 <= k < |packs| && a in packs[k];
    assert IsComponent(g, packs[k]);
    var n :| n in g && n in packs[k] && packs[k] == Component(g, n);
    ReachesSymmetric(g, n, a);
    assert forall j :: 0 <= j < |packs| && a in packs[j] ==> j == k;
    if Reaches(g, a, b) {
      ReachesTrans(g, n, a, b);
    }
    if b in packs[k] {
      ReachesTrans(g, a, n, b);
    }
  }

  class Graph {
    var nodes: Edges
    // the insertion order of the dictionary `nodes`
    var order: seq<Node>

    ghost predicate Valid()
      reads this
    {
      && Closed(nodes)
      && nodes.Keys == (set n | n in order)
      && forall j, k :: 0 <= j < k < |order| ==> order[j] != order[k]
    }

    ghost function Tags(): Tagging
      reads this, nodes.Keys
    {
      map n | n in nodes :: n.dfsLoopStatus
    }

    constructor ()
      ensures Valid() && nodes == map[] && order == []
    {
      nodes := map[];
      order := [];
    }

    method AddNode(node: Node)
      requires Valid()
      modifies this
      ensures Valid()
      ensures nodes == old(nodes)[node := []]
      ensures order == if node in old(nodes) then old(order) else old(order) + [node]
    {
      if node !in nodes {
        order := order + [node];
      }
      nodes := nodes[node := []];
    }

    /** Adds one edge, and whichever ends were unknown; no other edge changes. */
    method AddEdge(fromNode: Node, toNode: Node)
      requires Valid()
      modifies this
      ensures Valid()
      ensures nodes.Keys == old(nodes.Keys) + {fromNode, toNode}
      ensures nodes[fromNode] == (if fromNode in old(nodes) then old(nodes)[fromNode] else []) + [toNode]
      ensures forall n :: n in nodes && n != fromNode ==>
                nodes[n] == if n in old(nodes) then old(nodes)[n] else []
    {
      if toNode !in nodes {
        AddNode(toNode);
      }
      AppendEdge(fromNode, toNode);
    }

    method AppendEdge(fromNode: Node, toNode: Node)
      requires Valid() && toNode in nodes
      modifies this
      ensures Valid()
      ensures nodes == old(nodes)[fromNode := (if fromNode in old(nodes) then old(nodes)[fromNode] else []) + [toNode]]
    {
      if fromNode in nodes {
        nodes := nodes[fromNode := nodes[fromNode] + [toNode]];
      } else {
        assert [] + [toNode] == [toNode];
        nodes := nodes[fromNode := [toNode]];
        order := order + [fromNode];
      }
    }

    method SetStatus(n: Node, s: Status)
      requires n in nodes
      modifies n
      ensures Tags() == old(Tags())[n := s]
      ensures n.dfsLoopStatus == s
    {
      n.dfsLoopStatus := s;
    }

    method TagAll(s: Status)
      requires Valid()
      modifies nodes.Keys
      ensures Tags() == AllTagged(nodes, s)
    {
      for i := 0 to |order|
        invariant forall k :: 0 <= k < i ==> order[k].dfsLoopStatus == s
      {
        order[i].dfsLoopStatus := s;
      }
      forall n | n in nodes
        ensures n.dfsLoopStatus == s
      {
        assert n in order;
      }
    }
    /** The tests made on a visited child. */
    method ScanChild(root: Node, child: Node)
      requires root in nodes && child in nodes
      modifies root, child
      ensures Tags() == Mark(old(Tags()), root, child)
    {
      var childStatus := child.dfsLoopStatus;
      if childStatus == TemporaryChecked {
        child.dfsLoopStatus := LoopInside;
        root.dfsLoopStatus := LoopInside;
      }
      if childStatus == NearLoop || childStatus == LoopInside {
        if root.dfsLoopStatus != LoopInside {
          root.dfsLoopStatus := NearLoop;
        }
        child.dfsLoopStatus := LoopInside;
      }
    }

    method DfsLoopSearch(root: Node)
      requires Closed(nodes) && root in nodes && Tags()[root] == Unchecked
      modifies nodes.Keys
      ensures Tags() == Search(nodes, old(Tags()), root)
      decreases Pending(Tags()), 0
    {
      ghost var start := Tags()[root := TemporaryChecked];
      assert root in Pending(Tags()) && root !in Pending(start) && Pending(start) < Pending(Tags());
      SetStatus(root, TemporaryChecked);
      for i := 0 to |nodes[root]|
        invariant root !in Pending(Tags()) && Pending(Tags()) <= Pending(start)
        invariant SearchFrom(nodes, Tags(), root, i) == SearchFrom(nodes, start, root, 0)
      {
        LookAtChild(root, i);
      }
      if root.dfsLoopStatus == TemporaryChecked {
        SetStatus(root, Ok);
      }
    }

    /** One turn over the children: search the child if it is untouched, then mark. */
    method LookAtChild(root: Node, i: nat)
      requires Closed(nodes) && root in nodes && i < |nodes[root]| && root !in Pending(Tags())
      modifies nodes.Keys
      ensures root !in Pending(Tags()) && Pending(Tags()) <= old(Pending(Tags()))
      ensures SearchFrom(nodes, Tags(), root, i + 1) == old(SearchFrom(nodes, Tags(), root, i))
      decreases Pending(Tags()), 1
    {
      var child := nodes[root][i];
      ghost var t := Tags();
      if child.dfsLoopStatus == Unchecked {
        DfsLoopSearch(child);
      }
      ghost var v := Tags();
      assert v == if t[child] == Unchecked then Search(nodes, t, child) else t;
      ScanChild(root, child);
      SearchFromStep(nodes, t, v, root, i);
    }

    /** One turn of the outer loop: search from the node if it is untouched, then look
        at its tag. */
    method LoopTurn(node: Node) returns (inside: bool)
      requires Closed(nodes) && node in nodes
      modifies nodes.Keys
      ensures Tags() == TurnTags(nodes, old(Tags()), node)
      ensures inside <==> Tags()[node] == LoopInside
    {
      if node.dfsLoopStatus == Unchecked {
        DfsLoopSearch(node);
      }
      inside := node.dfsLoopStatus == LoopInside;
    }

    /** The outer loop over all nodes. */
    method CollectLoops() returns (inLoop: seq<Node>)
      requires Valid() && Tags() == AllTagged(nodes, Unchecked)
      modifies nodes.Keys
      ensures inLoop == Collected(nodes, order, |order|)
    {
      inLoop := [];
      for i := 0 to |order|
        invariant Tags() == TagsAfter(nodes, order, i)
        invariant inLoop == Collected(nodes, order, i)
      {
        CollectedStep(nodes, order, i);
        var inside := LoopTurn(order[i]);
        if inside {
          inLoop := inLoop + [order[i]];
        }
      }
    }

    /** The nodes carrying LoopInside at their turn.  `Report` says which these are. */
    method LoopCheck() returns (inLoop: seq<Node>)
      requires Valid()
      modifies nodes.Keys
      ensures inLoop == Report(nodes, order, |order|)
      ensures Tags() == AllTagged(nodes, NoTag)
    {
      TagAll(Unchecked);
      inLoop := CollectLoops();
      CollectedIsReport(nodes, order, |order|);
      TagAll(NoTag);
    }

    ghost function CheckedNodes(): set<Node>
      reads this, nodes.Keys
    {
      set n | n in nodes && n.dfsLoopStatus == Checked
    }

    ghost predicate TwoTags()
      reads this, nodes.Keys
    {
      forall n :: n in nodes ==> n.dfsLoopStatus == Unchecked || n.dfsLoopStatus == Checked
    }

    /** Midway through the sons of `root`, of which the first `i` have been looked at. */
    ghost predicate Gathering(root: Node, i: nat, before: set<Node>, ret: set<Node>, down: set<Node>)
      requires Closed(nodes) && root in nodes && i <= |nodes[root]|
      reads this, nodes.Keys
    {
      && TwoTags() && before + {root} <= CheckedNodes()
      && {root} + (set c | c in nodes[root]) <= ret
      && CheckedNodes() - before <= ret <= down
      && (forall n, c :: n in CheckedNodes() && n !in before && n != root && c in nodes[n] ==> c in CheckedNodes())
      && (forall k :: 0 <= k < i ==> nodes[root][k] in CheckedNodes())
    }

    method DfsGetAllChilds(root: Node, ghost th: Theory) returns (ret: set<Node>)
      requires th.g == nodes && TwoTags() && root in nodes && root.dfsLoopStatus == Unchecked
      modifies nodes.Keys
      ensures TwoTags()
      ensures Gathered(nodes, old(CheckedNodes()), CheckedNodes(), ret, th.down[root], root)
      decreases nodes.Keys - CheckedNodes(), 1
    {
      ghost var before := CheckedNodes();
      root.dfsLoopStatus := Checked;
      assert CheckedNodes() == before + {root};
      ret := {root} + set c | c in nodes[root];
      for i := 0 to |nodes[root]|
        invariant Gathering(root, i, before, ret, th.down[root])
      {
        ret := GatherSon(root, i, ret, th, before);
      }
    }

    method GatherSon(root: Node, i: nat, ret: set<Node>, ghost th: Theory, ghost before: set<Node>)
      returns (more: set<Node>)
      requires th.g == nodes && root in nodes && i < |nodes[root]| && root !in before
      requires Gathering(root, i, before, ret, th.down[root])
      modifies nodes.Keys
      ensures Gathering(root, i + 1, before, more, th.down[root])
      decreases nodes.Keys - CheckedNodes(), 2
    {
      var child := nodes[root][i];
      more := ret;
      if child.dfsLoopStatus == Unchecked {
        var sub := DfsGetAllChilds(child, th);
        more := ret + sub;
      }
    }

    ghost predicate PackInv(packs: seq<set<Node>>, i: nat)
      requires i <= |order| && Valid()
      reads this, nodes.Keys
    {
      && TwoTags()
      && (forall k :: 0 <= k < i ==> order[k] in CheckedNodes())
      && (forall n, c :: n in CheckedNodes() && c in nodes[n] ==> c in CheckedNodes())
      && Covered(packs, CheckedNodes())
      && (Returning(nodes) ==> ArePacks(nodes, packs, CheckedNodes()))
    }

    method NextPack(packs: seq<set<Node>>, node: Node, ghost th: Theory, ghost i: nat)
      returns (more: seq<set<Node>>)
      requires Valid() && th == TheoryOf(nodes)
      requires i < |order| && node == order[i] && PackInv(packs, i)
      modifies nodes.Keys
      ensures PackInv(more, i + 1)
    {
      more := packs;
      if node.dfsLoopStatus == Unchecked {
        ghost var before := CheckedNodes();
        var pack := DfsGetAllChilds(node, th);
        PackTurn(nodes, th, packs, before, CheckedNodes(), pack, node);
        more := packs + [pack];
      }
    }

    /** The packs of the graph.  They cover it; where every edge can be walked back they
        are its components, as `PacksAreComponents` spells out. */
    method GetAccessibilityPacks() returns (packs: seq<set<Node>>)
      requires Valid()
      modifies nodes.Keys
      ensures Covered(packs, nodes.Keys)
      ensures Returning(nodes) ==> ArePacks(nodes, packs, nodes.Keys)
      ensures Tags() == AllTagged(nodes, NoTag)
    {
      TagAll(Unchecked);
      assert forall n :: n in nodes ==> n.dfsLoopStatus == Tags()[n];
      packs := CollectPacks();
      assert CheckedNodes() == nodes.Keys;
      TagAll(NoTag);
    }

    /** The outer loop over all nodes. */
    method CollectPacks() returns (packs: seq<set<Node>>)
      requires Valid() && TwoTags() && CheckedNodes() == {}
      modifies nodes.Keys
      ensures PackInv(packs, |order|)
    {
      packs := [];
      TheorySound(nodes, TheoryOf(nodes));
      ghost var th: Theory := TheoryOf(nodes);
      for i := 0 to |order|
        invariant PackInv(packs, i)
      {
        packs := NextPack(packs, order[i], th, i);
      }
    }
  }
}
