// The order of the setup steps found: the document's own, read from the top, along every way
// that does not come back to a node it is inside of, with each node counted where it comes first.
module BunSetupOrder {
  import opened BunSetupSteps

  // Every visit of a node along such a way: the node, then what is below it, in order.
  function Visits(d: Document, v: Value, inside: set<nat>): (ids: seq<nat>)
    requires Closed(d) && Known(d, v)
    decreases Ids(d) - inside, 0
  {
    if v.Ref? && v.id !in inside then [v.id] + VisitsAll(d, Children(d[v.id]), 0, inside + {v.id}) else []
  }

  function VisitsAll(d: Document, vs: seq<Value>, k: nat, inside: set<nat>): (ids: seq<nat>)
    requires Closed(d) && k <= |vs| && forall i | 0 <= i < |vs| :: Known(d, vs[i])
    decreases Ids(d) - inside, |vs| - k + 1
  {
    if k == |vs| then [] else Visits(d, vs[k], inside) + VisitsAll(d, vs, k + 1, inside)
  }

  // What is not in `seen`, each where it comes first.
  function FirstTimes(ids: seq<nat>, seen: set<nat>): seq<nat> {
    if ids == [] then []
    else if ids[0] in seen then FirstTimes(ids[1..], seen)
    else [ids[0]] + FirstTimes(ids[1..], seen + {ids[0]})
  }

  function SetupOnly(d: Document, ids: seq<nat>): seq<nat> {
    if ids == [] then []
    else (if ids[0] < |d| && IsSetupStep(d[ids[0]]) then [ids[0]] else []) + SetupOnly(d, ids[1..])
  }

  function Elements(ids: seq<nat>): set<nat> {
    set n | n in ids
  }

  lemma {:induction false} FirstTimesConcat(xs: seq<nat>, ys: seq<nat>, seen: set<nat>)
    ensures FirstTimes(xs + ys, seen) == FirstTimes(xs, seen) + FirstTimes(ys, seen + Elements(xs))
  {
    if xs == [] {
      assert xs + ys == ys && seen + Elements(xs) == seen;
    } else {
      assert (xs + ys)[0] == xs[0] && (xs + ys)[1..] == xs[1..] + ys;
      assert Elements(xs) == {xs[0]} + Elements(xs[1..]) by {
        assert xs == [xs[0]] + xs[1..];
      }
      if xs[0] in seen {
        FirstTimesConcat(xs[1..], ys, seen);
        assert seen + Elements(xs) == seen + Elements(xs[1..]);
      } else {
        FirstTimesConcat(xs[1..], ys, seen + {xs[0]});
        assert seen + Elements(xs) == seen + {xs[0]} + Elements(xs[1..]);
      }
    }
  }

  lemma {:induction false} NothingFirst(ids: seq<nat>, seen: set<nat>)
    requires Elements(ids) <= seen
    ensures FirstTimes(ids, seen) == []
  {
    if ids != [] {
      assert ids[0] in Elements(ids);
      assert Elements(ids[1..]) <= Elements(ids);
      NothingFirst(ids[1..], seen);
    }
  }

  lemma {:induction false} SetupOnlyConcat(d: Document, xs: seq<nat>, ys: seq<nat>)
    ensures SetupOnly(d, xs + ys) == SetupOnly(d, xs) + SetupOnly(d, ys)
  {
    if xs == [] {
      assert xs + ys == ys;
    } else {
      assert (xs + ys)[0] == xs[0] && (xs + ys)[1..] == xs[1..] + ys;
      SetupOnlyConcat(d, xs[1..], ys);
    }
  }

  // A visited node the search is not inside of has nothing unvisited below it.
  ghost predicate Done(d: Document, inside: set<nat>, visited: set<nat>) {
    inside <= visited && forall m: nat, n: nat | m in visited && m !in inside && Edge(d, m, n) :: n in visited
  }

  lemma DoneInside(d: Document, inside: set<nat>, visited: set<nat>, id: nat)
    requires Done(d, inside, visited)
    ensures id in visited ==> Done(d, inside + {id}, visited)
    ensures Done(d, inside + {id}, visited + {id})
  {}

  lemma DoneAfter(d: Document, inside: set<nat>, visited: set<nat>, visited': set<nat>)
    requires Done(d, inside, visited) && visited <= visited' && NewAreDone(d, visited, visited')
    ensures Done(d, inside, visited')
  {
    forall m: nat, n: nat | m in visited' && m !in inside && Edge(d, m, n) ensures n in visited' {
      if m in visited {
        assert n in visited;
      }
    }
  }

  // Below a visited node there is nothing new.
  lemma {:induction false} NothingNew(d: Document, v: Value, inside: set<nat>, visited: set<nat>)
    requires Closed(d) && Known(d, v) && Done(d, inside, visited) && (v.Ref? ==> v.id in visited)
    ensures Elements(Visits(d, v, inside)) <= visited
    decreases Ids(d) - inside, 0
  {
    if v.Ref? && v.id !in inside {
      var below := Children(d[v.id]);
      DoneInside(d, inside, visited, v.id);
      forall i | 0 <= i < |below| && below[i].Ref? ensures below[i].id in visited {
        assert Edge(d, v.id, below[i].id);
      }
      NothingNewAll(d, below, 0, inside + {v.id}, visited);
      hide Done;
    }
  }

  lemma {:induction false} NothingNewAll(d: Document, vs: seq<Value>, k: nat, inside: set<nat>, visited: set<nat>)
    requires Closed(d) && k <= |vs| && (forall i | 0 <= i < |vs| :: Known(d, vs[i])) && Done(d, inside, visited)
    requires forall i | k <= i < |vs| && vs[i].Ref? :: vs[i].id in visited
    ensures Elements(VisitsAll(d, vs, k, inside)) <= visited
    decreases Ids(d) - inside, |vs| - k + 1
  {
    hide Done;
    if k < |vs| {
      NothingNew(d, vs[k], inside, visited);
      NothingNewAll(d, vs, k + 1, inside, visited);
      assert Elements(Visits(d, vs[k], inside) + VisitsAll(d, vs, k + 1, inside)) ==
        Elements(Visits(d, vs[k], inside)) + Elements(VisitsAll(d, vs, k + 1, inside));
    }
  }

  // The search visits the new nodes among them, and finds the steps in that order.
  ghost predicate InOrder(d: Document, ids: seq<nat>, visited: set<nat>, r: Found) {
    r.steps == SetupOnly(d, FirstTimes(ids, visited)) && r.seen == visited + Elements(ids)
  }

  lemma {:induction false} FindInOrder(d: Document, v: Value, inside: set<nat>, visited: set<nat>)
    requires Closed(d) && Known(d, v) && Done(d, inside, visited)
    ensures InOrder(d, Visits(d, v, inside), visited, Find(d, v, visited))
    decreases Ids(d) - inside, 0
  {
    if v.Ref? && v.id !in visited {
      var below := Children(d[v.id]);
      DoneInside(d, inside, visited, v.id);
      FindAllInOrder(d, below, 0, inside + {v.id}, visited + {v.id});
      var rest := VisitsAll(d, below, 0, inside + {v.id});
      var ids := [v.id] + rest;
      assert ids[0] == v.id && ids[1..] == rest;
      assert Elements(ids) == {v.id} + Elements(rest);
      var firsts := FirstTimes(rest, visited + {v.id});
      assert ([v.id] + firsts)[0] == v.id && ([v.id] + firsts)[1..] == firsts;
      hide Done;
      hide IsSetupStep;
      hide Edge;
    } else {
      if v.Ref? {
        NothingNew(d, v, inside, visited);
      }
      NothingFirst(Visits(d, v, inside), visited);
    }
  }

  lemma {:induction false} FindAllInOrder(d: Document, vs: seq<Value>, k: nat, inside: set<nat>, visited: set<nat>)
    requires Closed(d) && k <= |vs| && (forall i | 0 <= i < |vs| :: Known(d, vs[i])) && Done(d, inside, visited)
    ensures InOrder(d, VisitsAll(d, vs, k, inside), visited, FindAll(d, vs, k, visited))
    decreases Ids(d) - inside, |vs| - k + 1
  {
    if k < |vs| {
      var first := Find(d, vs[k], visited);
      FindInOrder(d, vs[k], inside, visited);
      FindCorrect(d, vs[k], visited);
      DoneAfter(d, inside, visited, first.seen);
      FindAllInOrder(d, vs, k + 1, inside, first.seen);
      hide Done;
      hide Adds;
      hide Visits;
      hide Find;
      InOrderTwice(d, Visits(d, vs[k], inside), VisitsAll(d, vs, k + 1, inside), visited, first,
                   FindAll(d, vs, k + 1, first.seen));
    }
  }

  lemma InOrderTwice(d: Document, xs: seq<nat>, ys: seq<nat>, visited: set<nat>, first: Found, rest: Found)
    requires InOrder(d, xs, visited, first) && InOrder(d, ys, first.seen, rest)
    ensures InOrder(d, xs + ys, visited, Found(first.steps + rest.steps, rest.seen))
  {
    FirstTimesConcat(xs, ys, visited);
    SetupOnlyConcat(d, FirstTimes(xs, visited), FirstTimes(ys, visited + Elements(xs)));
    assert Elements(xs + ys) == Elements(xs) + Elements(ys);
  }

  // The steps a search of its own finds, in their order.
  lemma StepsInDocumentOrder(d: Document, root: Value)
    requires Closed(d) && Known(d, root)
    ensures Find(d, root, {}).steps == SetupOnly(d, FirstTimes(Visits(d, root, {}), {}))
  {
    FindInOrder(d, root, {}, {});
  }
}
