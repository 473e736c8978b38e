// The search for setup-bun steps in a parsed workflow. YAML aliases make the parsed value a
// graph: nodes may be shared, and may contain themselves.
module BunSetupSteps {

  // A parsed value; arrays and objects are references to nodes of the document.
  datatype Value = Text(text: string) | Scalar | Ref(id: nat)

  datatype Node = Items(items: seq<Value>) | Entries(entries: seq<(string, Value)>)

  type Document = seq<Node>

  const SETUP_PREFIX := "oven-sh/setup-bun@"

  predicate Known(d: Document, v: Value) {
    v.Ref? ==> v.id < |d|
  }

  // Every reference is to a node of the document.
  predicate Closed(d: Document) {
    forall n: nat, k: nat | n < |d| && k < |Children(d[n])| :: Known(d, Children(d[n])[k])
  }

  // What the search visits below a node, in order: array items, or an object's values.
  function Children(node: Node): (r: seq<Value>)
    ensures node.Items? ==> r == node.items
    ensures node.Entries? ==> |r| == |node.entries| && forall k | 0 <= k < |r| :: r[k] == node.entries[k].1
  {
    match node
    case Items(items) => items
    case Entries(entries) => seq(|entries|, k requires 0 <= k < |entries| => entries[k].1)
  }

  // `node.uses` is text that starts with the action's name.
  predicate IsSetupStep(node: Node) {
    node.Entries? &&
    exists k :: 0 <= k < |node.entries| && node.entries[k].0 == "uses" && StartsWithSetup(node.entries[k].1)
  }

  predicate StartsWithSetup(v: Value) {
    v.Text? && SETUP_PREFIX <= v.text
  }

  // ----- reachability -----

  predicate Edge(d: Document, m: nat, n: nat) {
    m < |d| && Ref(n) in Children(d[m])
  }

  predicate IsPath(d: Document, path: seq<nat>) {
    path != [] && forall k | 0 <= k < |path| - 1 :: Edge(d, path[k], path[k + 1])
  }

  ghost predicate Reachable(d: Document, root: Value, n: nat) {
    root.Ref? && exists path: seq<nat> :: IsPath(d, path) && path[0] == root.id && path[|path| - 1] == n
  }

  // ----- the search, with its set of visited nodes as an argument -----

  // The steps found so far, and every node visited so far.
  datatype Found = Found(steps: seq<nat>, seen: set<nat>)

  function Ids(d: Document): set<nat> {
    set n: nat {:trigger d[n]} | n < |d|
  }

  function Find(d: Document, v: Value, visited: set<nat>): (r: Found)
    requires Closed(d) && Known(d, v)
    ensures visited <= r.seen
    decreases Ids(d) - visited, 0
  {
    if v.Ref? && v.id !in visited then
      var below := FindAll(d, Children(d[v.id]), 0, visited + {v.id});
      Found((if IsSetupStep(d[v.id]) then [v.id] else []) + below.steps, below.seen)
    else Found([], visited)
  }

  // The items from position k on, one after the other.
  function FindAll(d: Document, vs: seq<Value>, k: nat, visited: set<nat>): (r: Found)
    requires Closed(d) && k <= |vs| && forall i | 0 <= i < |vs| :: Known(d, vs[i])
    ensures visited <= r.seen
    decreases Ids(d) - visited, |vs| - k + 1
  {
    if k == |vs| then Found([], visited)
    else
      var first := Find(d, vs[k], visited);
      var rest := FindAll(d, vs, k + 1, first.seen);
      Found(first.steps + rest.steps, rest.seen)
  }

  // ----- what one search adds -----

  // The steps found are the setup steps among the nodes newly visited, each once.
  ghost predicate FindsNew(d: Document, steps: seq<nat>, visited: set<nat>, visited': set<nat>) {
    && visited <= visited'
    && (forall n | n in visited' && n !in visited :: n < |d|)
    && (forall n: nat :: n in steps <==> n in visited' && n !in visited && IsSetupStep(d[n]))
    && (forall i, j | 0 <= i < j < |steps| :: steps[i] != steps[j])
  }

  // The new nodes' children have been visited too.
  ghost predicate NewAreDone(d: Document, visited: set<nat>, visited': set<nat>) {
    forall m: nat, n: nat | m in visited' && m !in visited && Edge(d, m, n) :: n in visited'
  }

  ghost predicate NewReachFrom(d: Document, vs: seq<Value>, k: nat, visited: set<nat>, visited': set<nat>) {
    forall n: nat | n in visited' && n !in visited :: exists i: nat :: k <= i < |vs| && Reachable(d, vs[i], n)
  }

  // What searching vs[k..] promises.
  ghost predicate Adds(d: Document, vs: seq<Value>, k: nat, visited: set<nat>, r: Found) {
    && FindsNew(d, r.steps, visited, r.seen) && NewAreDone(d, visited, r.seen)
    && NewReachFrom(d, vs, k, visited, r.seen)
    && (forall i | k <= i < |vs| && vs[i].Ref? :: vs[i].id in r.seen)
  }

  lemma {:induction false} FindCorrect(d: Document, v: Value, visited: set<nat>)
    requires Closed(d) && Known(d, v)
    ensures Adds(d, [v], 0, visited, Find(d, v, visited))
    decreases Ids(d) - visited, 0
  {
    if v.Ref? && v.id !in visited {
      var grey := visited + {v.id};
      var below := FindAll(d, Children(d[v.id]), 0, grey);
      FindAllCorrect(d, Children(d[v.id]), 0, grey);
      NewDoneNode(d, v.id, visited, below.seen);
      NewReachNode(d, v.id, visited, below.seen);
    }
  }

  lemma NewDoneNode(d: Document, id: nat, v0: set<nat>, v2: set<nat>)
    requires id < |d| && v0 <= v2 && NewAreDone(d, v0 + {id}, v2)
    requires forall n: nat | Ref(n) in Children(d[id]) :: n in v2
    ensures NewAreDone(d, v0, v2)
  {
    forall m: nat, n: nat | m in v2 && m !in v0 && Edge(d, m, n) ensures n in v2 {
      if m != id {
        assert m !in v0 + {id};
      }
    }
  }

  lemma NewReachNode(d: Document, id: nat, v0: set<nat>, v2: set<nat>)
    requires id < |d| && NewReachFrom(d, Children(d[id]), 0, v0 + {id}, v2)
    ensures NewReachFrom(d, [Ref(id)], 0, v0, v2)
  {
    forall n: nat | n in v2 && n !in v0 ensures Reachable(d, [Ref(id)][0], n) {
      if n == id {
        assert IsPath(d, [n]);
      } else {
        var k: nat :| k < |Children(d[id])| && Reachable(d, Children(d[id])[k], n);
        ReachableThrough(d, id, Children(d[id])[k], n);
      }
    }
  }

  lemma ReachableThrough(d: Document, m: nat, child: Value, n: nat)
    requires m < |d| && child in Children(d[m]) && Reachable(d, child, n)
    ensures Reachable(d, Ref(m), n)
  {
    var path: seq<nat> :| IsPath(d, path) && path[0] == child.id && path[|path| - 1] == n;
    assert Edge(d, m, path[0]);
    assert IsPath(d, [m] + path);
  }

  lemma {:induction false} FindAllCorrect(d: Document, vs: seq<Value>, k: nat, visited: set<nat>)
    requires Closed(d) && k <= |vs| && forall i | 0 <= i < |vs| :: Known(d, vs[i])
    ensures Adds(d, vs, k, visited, FindAll(d, vs, k, visited))
    decreases Ids(d) - visited, |vs| - k + 1
  {
    if k < |vs| {
      var first := Find(d, vs[k], visited);
      FindCorrect(d, vs[k], visited);
      FindAllCorrect(d, vs, k + 1, first.seen);
      AddsTwice(d, vs, k, visited, first, FindAll(d, vs, k + 1, first.seen));
    }
  }

  lemma AddsTwice(d: Document, vs: seq<Value>, k: nat, visited: set<nat>, first: Found, rest: Found)
    requires k < |vs| && Adds(d, [vs[k]], 0, visited, first) && Adds(d, vs, k + 1, first.seen, rest)
    ensures Adds(d, vs, k, visited, Found(first.steps + rest.steps, rest.seen))
  {
    FindsNewTwice(d, first.steps, visited, first.seen, rest.steps, rest.seen);
    NewDoneTwice(d, visited, first.seen, rest.seen);
    NewReachTwice(d, vs, k, visited, first.seen, rest.seen);
    assert vs[k].Ref? ==> [vs[k]][0].id in first.seen;
  }

  lemma FindsNewTwice(d: Document, xs: seq<nat>, v0: set<nat>, v1: set<nat>, ys: seq<nat>, v2: set<nat>)
    requires FindsNew(d, xs, v0, v1) && FindsNew(d, ys, v1, v2)
    ensures FindsNew(d, xs + ys, v0, v2)
  {
    var zs := xs + ys;
    forall i, j | 0 <= i < j < |zs| ensures zs[i] != zs[j] {
      if i < |xs| <= j {
        assert zs[i] in xs && zs[j] in ys;
      }
    }
  }

  lemma NewDoneTwice(d: Document, v0: set<nat>, v1: set<nat>, v2: set<nat>)
    requires v0 <= v1 <= v2 && NewAreDone(d, v0, v1) && NewAreDone(d, v1, v2)
    ensures NewAreDone(d, v0, v2)
  {
    forall m: nat, n: nat | m in v2 && m !in v0 && Edge(d, m, n) ensures n in v2 {
      if m in v1 {
        assert n in v1;
      }
    }
  }

  lemma NewReachTwice(d: Document, vs: seq<Value>, k: nat, v0: set<nat>, v1: set<nat>, v2: set<nat>)
    requires k < |vs| && NewReachFrom(d, [vs[k]], 0, v0, v1) && NewReachFrom(d, vs, k + 1, v1, v2)
    ensures NewReachFrom(d, vs, k, v0, v2)
  {
    forall n: nat | n in v2 && n !in v0 ensures exists i: nat :: k <= i < |vs| && Reachable(d, vs[i], n) {
      if n in v1 {
        var i: nat :| i < 1 && Reachable(d, [vs[k]][i], n);
        assert Reachable(d, vs[k], n);
      }
    }
  }

  // ----- main result -----

  // Exactly the setup steps reachable from the root, each once.
  ghost predicate ExactlyTheSetupSteps(d: Document, root: Value, steps: seq<nat>) {
    && (forall n: nat :: n in steps <==> n < |d| && IsSetupStep(d[n]) && Reachable(d, root, n))
    && (forall i, j | 0 <= i < j < |steps| :: steps[i] != steps[j])
  }

  lemma {:induction false} PathStaysInside(d: Document, path: seq<nat>, inside: set<nat>)
    requires IsPath(d, path) && path[0] in inside
    requires forall m: nat, n: nat | m in inside && Edge(d, m, n) :: n in inside
    ensures path[|path| - 1] in inside
    decreases |path|
  {
    if |path| > 1 {
      assert Edge(d, path[0], path[1]);
      PathStaysInside(d, path[1..], inside);
    }
  }

  lemma FindIsExact(d: Document, root: Value)
    requires Closed(d) && Known(d, root)
    ensures ExactlyTheSetupSteps(d, root, Find(d, root, {}).steps)
  {
    FindCorrect(d, root, {});
    var r := Find(d, root, {});
    forall n: nat
      ensures n in r.seen <==> Reachable(d, root, n)
    {
      if n in r.seen {
        var i: nat :| i < 1 && Reachable(d, [root][i], n);
      }
      if Reachable(d, root, n) {
        var path: seq<nat> :| IsPath(d, path) && path[0] == root.id && path[|path| - 1] == n;
        PathStaysInside(d, path, r.seen);
      }
    }
  }

  lemma Regroup(xs: seq<nat>, ys: seq<nat>, zs: seq<nat>)
    ensures xs + (ys + zs) == (xs + ys) + zs
  {}

  // ----- the search itself, over one shared set that it updates -----

  class Search {
    const document: Document
    var visited: set<nat>

    constructor (d: Document)
      ensures document == d && visited == {}
    {
      document, visited := d, {};
    }

    method FindBunSetupSteps(v: Value) returns (steps: seq<nat>)
      requires Closed(document) && Known(document, v)
      modifies this
      ensures Found(steps, visited) == Find(document, v, old(visited))
      decreases Ids(document) - visited
    {
      if !v.Ref? || v.id in visited {
        return [];
      }
      visited := visited + {v.id};
      ghost var grey := visited;
      var node := document[v.id];
      var items := Children(node);
      steps := [];
      var k := 0;
      while k < |items|
        invariant 0 <= k <= |items| && grey <= visited
        invariant FindAll(document, items, 0, grey).steps == steps + FindAll(document, items, k, visited).steps
        invariant FindAll(document, items, 0, grey).seen == FindAll(document, items, k, visited).seen
      {
        var found := FindBunSetupSteps(items[k]);
        Regroup(steps, found, FindAll(document, items, k + 1, visited).steps);
        steps := steps + found;
        k := k + 1;
      }
      assert steps + [] == steps;
      if IsSetupStep(node) {
        steps := [v.id] + steps;
      }
    }
  }

  // A search of its own finds exactly the reachable setup steps, on any finite document.
  method SetupStepsOf(d: Document, root: Value) returns (steps: seq<nat>)
    requires Closed(d) && Known(d, root)
    ensures ExactlyTheSetupSteps(d, root, steps) && steps == Find(d, root, {}).steps
  {
    var search := new Search(d);
    steps := search.FindBunSetupSteps(root);
    FindIsExact(d, root);
  }
}
