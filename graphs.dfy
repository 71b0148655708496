/**
 * Reachability inside a finite set of nodes under an adjacency relation:
 * chains, the nodes linked to a node (its component), sets closed under
 * adjacency, and the number of components.
 */
module Graphs {
  import opened Sets

  /** `ps` is a non-empty walk through `nodes`, each node adjacent to the next. */
  ghost predicate Chain<T(!new)>(nodes: set<T>, adj: (T, T) -> bool, ps: seq<T>)
  {
    && |ps| > 0
    && (forall i :: 0 <= i < |ps| ==> ps[i] in nodes)
    && (forall i :: 0 <= i < |ps| - 1 ==> adj(ps[i], ps[i + 1]))
  }

  /** Some chain through `nodes` leads from `a` to `b`. */
  ghost predicate Linked<T(!new)>(nodes: set<T>, adj: (T, T) -> bool, a: T, b: T)
  {
    exists ps :: Chain(nodes, adj, ps) && ps[0] == a && ps[|ps| - 1] == b
  }

  ghost predicate Symmetric<T(!new)>(adj: (T, T) -> bool)
  {
    forall a, b :: adj(a, b) ==> adj(b, a)
  }

  lemma LinkedSelf<T(!new)>(nodes: set<T>, adj: (T, T) -> bool, a: T)
    requires a in nodes
    ensures Linked(nodes, adj, a, a)
  {
    assert Chain(nodes, adj, [a]);
  }

  lemma LinkedEnds<T(!new)>(nodes: set<T>, adj: (T, T) -> bool, a: T, b: T)
    requires Linked(nodes, adj, a, b)
    ensures a in nodes && b in nodes
  {
    var ps :| Chain(nodes, adj, ps) && ps[0] == a && ps[|ps| - 1] == b;
    assert ps[|ps| - 1] in nodes;
  }

  /** A chain extends by one adjacent node. */
  lemma LinkedStep<T(!new)>(nodes: set<T>, adj: (T, T) -> bool, a: T, b: T, c: T)
    requires Linked(nodes, adj, a, b) && c in nodes && adj(b, c)
    ensures Linked(nodes, adj, a, c)
  {
    var ps :| Chain(nodes, adj, ps) && ps[0] == a && ps[|ps| - 1] == b;
    var qs := ps + [c];
    forall i | 0 <= i < |qs| - 1
      ensures adj(qs[i], qs[i + 1])
    {
      assert qs[i] == ps[i];
    }
    assert Chain(nodes, adj, qs);
  }

  lemma LinkedTrans<T(!new)>(nodes: set<T>, adj: (T, T) -> bool, a: T, b: T, c: T)
    requires Linked(nodes, adj, a, b) && Linked(nodes, adj, b, c)
    ensures Linked(nodes, adj, a, c)
  {
    var ps :| Chain(nodes, adj, ps) && ps[0] == a && ps[|ps| - 1] == b;
    var qs :| Chain(nodes, adj, qs) && qs[0] == b && qs[|qs| - 1] == c;
    var rs := ps + qs[1..];
    forall i | 0 <= i < |rs| - 1
      ensures adj(rs[i], rs[i + 1])
    {
      if i + 1 < |ps| {
        assert rs[i] == ps[i] && rs[i + 1] == ps[i + 1];
      } else {
        assert rs[i] == qs[i - |ps| + 1] && rs[i + 1] == qs[i - |ps| + 2];
      }
    }
    assert Chain(nodes, adj, rs);
  }

  /** Under a symmetric adjacency a chain reads backwards too. */
  lemma LinkedBack<T(!new)>(nodes: set<T>, adj: (T, T) -> bool, a: T, b: T)
    requires Symmetric(adj) && Linked(nodes, adj, a, b)
    ensures Linked(nodes, adj, b, a)
  {
    var ps :| Chain(nodes, adj, ps) && ps[0] == a && ps[|ps| - 1] == b;
    var rs := seq(|ps|, i requires 0 <= i < |ps| => ps[|ps| - 1 - i]);
    forall i | 0 <= i < |rs| - 1
      ensures adj(rs[i], rs[i + 1])
    {
      assert adj(ps[|ps| - 2 - i], ps[|ps| - 1 - i]);
    }
    assert Chain(nodes, adj, rs);
  }

  /** Every adjacent node in `nodes` of a node of `c` in `nodes` is in `c`. */
  ghost predicate Closed<T(!new)>(nodes: set<T>, adj: (T, T) -> bool, c: set<T>)
  {
    forall a, b :: a in c && a in nodes && b in nodes && adj(a, b) ==> b in c
  }

  /** A closed set holds everything linked to its members. */
  lemma ClosedReach<T(!new)>(nodes: set<T>, adj: (T, T) -> bool, c: set<T>, a: T, b: T)
    requires Closed(nodes, adj, c) && a in c && Linked(nodes, adj, a, b)
    ensures b in c
  {
    var ps :| Chain(nodes, adj, ps) && ps[0] == a && ps[|ps| - 1] == b;
    var i := 0;
    while i < |ps| - 1
      invariant 0 <= i < |ps| && ps[i] in c
    {
      assert adj(ps[i], ps[i + 1]) && ps[i] in nodes && ps[i + 1] in nodes;
      i := i + 1;
    }
  }

  /** The nodes linked to `a`. */
  ghost function Component<T(!new)>(nodes: set<T>, adj: (T, T) -> bool, a: T): set<T>
  {
    set b | b in nodes && Linked(nodes, adj, a, b)
  }

  /** Linked nodes have the same component. */
  lemma SameComponent<T(!new)>(nodes: set<T>, adj: (T, T) -> bool, a: T, b: T)
    requires Symmetric(adj) && Linked(nodes, adj, a, b)
    ensures Component(nodes, adj, a) == Component(nodes, adj, b)
  {
    LinkedBack(nodes, adj, a, b);
    forall x | x in Component(nodes, adj, a)
      ensures x in Component(nodes, adj, b)
    {
      LinkedTrans(nodes, adj, b, a, x);
    }
    forall x | x in Component(nodes, adj, b)
      ensures x in Component(nodes, adj, a)
    {
      LinkedTrans(nodes, adj, a, b, x);
    }
  }

  /** A component is closed. */
  lemma ComponentClosed<T(!new)>(nodes: set<T>, adj: (T, T) -> bool, a: T)
    ensures Closed(nodes, adj, Component(nodes, adj, a))
  {
    forall x, y | x in Component(nodes, adj, a) && x in nodes && y in nodes && adj(x, y)
      ensures y in Component(nodes, adj, a)
    {
      LinkedStep(nodes, adj, a, x, y);
    }
  }

  /** The number of components: take one node's component away and count the rest. */
  ghost function Count<T(!new)>(nodes: set<T>, adj: (T, T) -> bool): nat
    decreases |nodes|
  {
    if nodes == {} then 0
    else
      var a := Pick(nodes);
      LinkedSelf(nodes, adj, a);
      1 + Count(nodes - Component(nodes, adj, a), adj)
  }

  /**
   * `reps` holds exactly one node of every component: every node is linked
   * to a member, and no two members are linked.
   */
  ghost predicate Representatives<T(!new)>(nodes: set<T>, adj: (T, T) -> bool, reps: set<T>)
  {
    && reps <= nodes
    && (forall a, b :: a in reps && b in reps && Linked(nodes, adj, a, b) ==> a == b)
    && (forall x :: x in nodes ==> exists r :: r in reps && Linked(nodes, adj, r, x))
  }

  /** Outside a component, chains never need its nodes. */
  lemma LinkedOutside<T(!new)>(nodes: set<T>, adj: (T, T) -> bool, a: T, x: T, y: T)
    requires Symmetric(adj)
    requires x !in Component(nodes, adj, a) && Linked(nodes, adj, x, y)
    ensures Linked(nodes - Component(nodes, adj, a), adj, x, y)
  {
    var rest := nodes - Component(nodes, adj, a);
    var ps :| Chain(nodes, adj, ps) && ps[0] == x && ps[|ps| - 1] == y;
    LinkedEnds(nodes, adj, x, y);
    forall i | 0 <= i < |ps|
      ensures ps[i] in rest
    {
      if ps[i] in Component(nodes, adj, a) {
        var prefix := ps[..i + 1];
        assert Chain(nodes, adj, prefix);
        assert Linked(nodes, adj, x, ps[i]);
        LinkedBack(nodes, adj, x, ps[i]);
        LinkedTrans(nodes, adj, a, ps[i], x);
        assert false;
      }
    }
    assert Chain(rest, adj, ps);
  }

  /** Chains in a smaller set are chains in a larger one. */
  lemma LinkedWider<T(!new)>(small: set<T>, nodes: set<T>, adj: (T, T) -> bool, x: T, y: T)
    requires small <= nodes && Linked(small, adj, x, y)
    ensures Linked(nodes, adj, x, y)
  {
    var ps :| Chain(small, adj, ps) && ps[0] == x && ps[|ps| - 1] == y;
    assert Chain(nodes, adj, ps);
  }

  /** Any set of representatives has one member per component. */
  lemma {:induction false} RepresentativesCount<T(!new)>(nodes: set<T>, adj: (T, T) -> bool, reps: set<T>)
    requires Symmetric(adj) && Representatives(nodes, adj, reps)
    ensures |reps| == Count(nodes, adj)
    decreases |nodes|
  {
    if nodes == {} {
      assert reps == {};
    } else {
      var a := Pick(nodes);
      var comp := Component(nodes, adj, a);
      LinkedSelf(nodes, adj, a);
      var r :| r in reps && Linked(nodes, adj, r, a);
      RepresentativesRest(nodes, adj, reps, a, r);
      RepresentativesCount(nodes - comp, adj, reps - {r});
      assert |reps| == |reps - {r}| + 1;
      assert Count(nodes, adj) == 1 + Count(nodes - comp, adj);
    }
  }

  /** Dropping the component of `a` and its representative `r` leaves representatives of the rest. */
  lemma RepresentativesRest<T(!new)>(nodes: set<T>, adj: (T, T) -> bool, reps: set<T>, a: T, r: T)
    requires Symmetric(adj) && Representatives(nodes, adj, reps)
    requires a in nodes && r in reps && Linked(nodes, adj, r, a)
    ensures r in Component(nodes, adj, a) && |nodes - Component(nodes, adj, a)| < |nodes|
    ensures Representatives(nodes - Component(nodes, adj, a), adj, reps - {r})
  {
    var comp := Component(nodes, adj, a);
    var rest := nodes - comp;
    LinkedSelf(nodes, adj, a);
    SubsetCard(rest, nodes - {a});
    LinkedBack(nodes, adj, r, a);
    LinkedEnds(nodes, adj, r, a);
    assert r in comp;
    var others := reps - {r};
    forall s | s in others
      ensures s in rest
    {
      if s in comp {
        LinkedTrans(nodes, adj, r, a, s);
      }
    }
    forall s, t | s in others && t in others && Linked(rest, adj, s, t)
      ensures s == t
    {
      LinkedWider(rest, nodes, adj, s, t);
    }
    forall x | x in rest
      ensures exists s :: s in others && Linked(rest, adj, s, x)
    {
      var s :| s in reps && Linked(nodes, adj, s, x);
      if s == r {
        LinkedTrans(nodes, adj, a, r, x);
        assert false;
      }
      LinkedBack(nodes, adj, s, x);
      LinkedOutside(nodes, adj, a, x, s);
      LinkedBack(rest, adj, x, s);
    }
  }

  /** Outside the component of `a`, components are the same with or without that component's nodes. */
  lemma ComponentOutside<T(!new)>(nodes: set<T>, adj: (T, T) -> bool, a: T, x: T)
    requires Symmetric(adj) && x in nodes && x !in Component(nodes, adj, a)
    ensures Component(nodes - Component(nodes, adj, a), adj, x) == Component(nodes, adj, x)
  {
    var rest := nodes - Component(nodes, adj, a);
    forall y | y in Component(rest, adj, x)
      ensures y in Component(nodes, adj, x)
    {
      LinkedWider(rest, nodes, adj, x, y);
    }
    forall y | y in Component(nodes, adj, x)
      ensures y in Component(rest, adj, x)
    {
      LinkedOutside(nodes, adj, a, x, y);
      LinkedEnds(rest, adj, x, y);
    }
  }

  /** Whichever node's component is taken away first, one component fewer is left. */
  lemma {:induction false} CountRemove<T(!new)>(nodes: set<T>, adj: (T, T) -> bool, a: T)
    requires Symmetric(adj) && a in nodes
    ensures Count(nodes, adj) == 1 + Count(nodes - Component(nodes, adj, a), adj)
    decreases |nodes|
  {
    var p := Pick(nodes);
    var cp, ca := Component(nodes, adj, p), Component(nodes, adj, a);
    LinkedSelf(nodes, adj, p);
    LinkedSelf(nodes, adj, a);
    if a in cp {
      SameComponent(nodes, adj, p, a);
    } else {
      if p in ca {
        LinkedBack(nodes, adj, a, p);
        assert false;
      }
      ComponentOutside(nodes, adj, p, a);
      ComponentOutside(nodes, adj, a, p);
      assert |nodes - cp| < |nodes| by {
        assert p in nodes && p !in nodes - cp;
      }
      assert |nodes - ca| < |nodes| by {
        assert a in nodes && a !in nodes - ca;
      }
      CountRemove(nodes - cp, adj, a);
      CountRemove(nodes - ca, adj, p);
      assert nodes - cp - ca == nodes - ca - cp;
    }
  }
  // ----- Searching a component -----

  /**
   * A search of the component `comp` of `a`, part way: reached and pending
   * nodes lie in it, `a` is reached or pending, and every neighbour of a
   * reached node is reached or pending.
   */
  ghost predicate Searching<T(!new)>(nodes: set<T>, adj: (T, T) -> bool, comp: set<T>, a: T, reached: set<T>, pending: seq<T>)
  {
    && reached <= comp
    && (forall q :: q in pending ==> q in comp)
    && (a in reached || a in pending)
    && (forall v, n :: v in reached && n in nodes && adj(v, n) ==> n in reached || n in pending)
  }

  /** A search starts with `a` pending. */
  lemma SearchStart<T(!new)>(nodes: set<T>, adj: (T, T) -> bool, comp: set<T>, a: T)
    requires a in nodes && comp == Component(nodes, adj, a)
    ensures Searching(nodes, adj, comp, a, {}, [a])
  {
    LinkedSelf(nodes, adj, a);
  }

  /** A search with nothing pending has reached the whole component. */
  lemma SearchDone<T(!new)>(nodes: set<T>, adj: (T, T) -> bool, comp: set<T>, a: T, reached: set<T>)
    requires comp == Component(nodes, adj, a) && Searching(nodes, adj, comp, a, reached, [])
    ensures reached == comp
  {
    forall x | x in comp
      ensures x in reached
    {
      ClosedReach(nodes, adj, reached, a, x);
    }
  }

  /** Reaching a pending node and queueing its neighbours keeps the search going. */
  lemma SearchReach<T(!new)>(nodes: set<T>, adj: (T, T) -> bool, comp: set<T>, a: T, reached: set<T>, pending: seq<T>, v: T, next: seq<T>)
    requires comp == Component(nodes, adj, a) && Searching(nodes, adj, comp, a, reached, pending + [v])
    requires forall n :: n in next <==> n in nodes && adj(v, n)
    ensures Searching(nodes, adj, comp, a, reached + {v}, pending + next)
  {
    assert v in pending + [v];
    forall n | n in next
      ensures n in comp
    {
      LinkedStep(nodes, adj, a, v, n);
    }
    forall u, n | u in reached + {v} && n in nodes && adj(u, n)
      ensures n in reached + {v} || n in pending + next
    {
      if u != v {
        assert n in reached || n in pending + [v];
      }
    }
    forall q | q in pending
      ensures q in comp
    {
      assert q in pending + [v];
    }
    assert a in reached || a in pending + [v];
  }

  /** Dropping a pending node that is already reached keeps the search going. */
  lemma SearchSkip<T(!new)>(nodes: set<T>, adj: (T, T) -> bool, comp: set<T>, a: T, reached: set<T>, pending: seq<T>, v: T)
    requires Searching(nodes, adj, comp, a, reached, pending + [v]) && v in reached
    ensures Searching(nodes, adj, comp, a, reached, pending)
  {
    forall u, n | u in reached && n in nodes && adj(u, n)
      ensures n in reached || n in pending
    {
      assert n in reached || n in pending + [v];
    }
    forall q | q in pending
      ensures q in comp
    {
      assert q in pending + [v];
    }
    assert a in reached || a in pending + [v];
  }

  /** Only membership in the pending list matters: taking from the front is taking from the back of the rotated list. */
  lemma SearchRotate<T(!new)>(nodes: set<T>, adj: (T, T) -> bool, comp: set<T>, a: T, reached: set<T>, pending: seq<T>, v: T)
    requires Searching(nodes, adj, comp, a, reached, [v] + pending)
    ensures Searching(nodes, adj, comp, a, reached, pending + [v])
  {
    forall q
      ensures q in [v] + pending <==> q in pending + [v]
    {
    }
  }
}
