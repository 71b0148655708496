/**
 * Day 23: LAN party. Each line `a-b` connects two computers. Part 1 counts
 * the sets of three mutually connected computers with at least one whose
 * name starts with `t`; part 2 grows cliques from every computer's
 * neighbours and reports the largest one found, its names sorted and
 * joined with commas.
 */
module Day23 {
  import opened Wrappers
  import opened Text
  import Sets

  type Node = string

  /** Each computer's neighbours. */
  type Graph = map<Node, set<Node>>

  // ----- Parsing -----

  /**
   * The two names of a line: the text before the first `-` and the text
   * from there up to the next `-` or the end; a line without `-` is an
   * error.
   */
  function ParseLine(line: string): (r: Option<(Node, Node)>)
    ensures r.Some? <==> '-' in line
  {
    if '-' !in line then None
    else
      var pieces := Split(line, '-');
      assert |pieces| >= 2;
      Some((pieces[0], pieces[1]))
  }

  /** A line written from two names without `-` reads back as those names. */
  lemma ParseLineJoin(a: Node, b: Node)
    requires '-' !in a && '-' !in b
    ensures ParseLine(a + ['-'] + b) == Some((a, b))
  {
    var line := a + ['-'] + b;
    var i := IndexOf(line, '-');
    assert line[..i] == a;
    assert line[i + 1..] == b;
    assert Split(line, '-') == [a] + Split(b, '-');
    assert Split(b, '-') == [b];
  }

  /** The connections of the lines, in order, or nothing when a line has no `-`. */
  function Edges(lines: seq<string>): (r: Option<seq<(Node, Node)>>)
    ensures r.Some? <==> forall i :: 0 <= i < |lines| ==> '-' in lines[i]
    ensures r.Some? ==> |r.value| == |lines| && forall i :: 0 <= i < |lines| ==> Some(r.value[i]) == ParseLine(lines[i])
  {
    if lines == [] then Some([])
    else
      var n := |lines| - 1;
      var es := Edges(lines[..n]);
      var e := ParseLine(lines[n]);
      assert forall i :: 0 <= i < n ==> lines[..n][i] == lines[i];
      if es.None? || e.None? then None else Some(es.value + [e.value])
  }

  /** The neighbours recorded for `a`, none when it has no entry yet. */
  function Neighbours(g: Graph, a: Node): set<Node>
  {
    if a in g then g[a] else {}
  }

  /** Records the connection between `a` and `b` in both directions. */
  function Connect(g: Graph, a: Node, b: Node): (r: Graph)
    ensures r.Keys == g.Keys + {a, b}
    ensures forall v :: Neighbours(r, v) ==
              Neighbours(g, v) + (if v == a then {b} else {}) + (if v == b then {a} else {})
  {
    var first := g[a := Neighbours(g, a) + {b}];
    first[b := Neighbours(first, b) + {a}]
  }

  /** The neighbours each computer has after all the connections. */
  function Connections(es: seq<(Node, Node)>): Graph
  {
    if es == [] then map[] else Connect(Connections(es[..|es| - 1]), es[|es| - 1].0, es[|es| - 1].1)
  }

  /** Every computer named by the connections. */
  function NodesOf(es: seq<(Node, Node)>): set<Node>
  {
    if es == [] then {} else NodesOf(es[..|es| - 1]) + {es[|es| - 1].0, es[|es| - 1].1}
  }

  /** `a` and `b` are the two ends of some connection, in either order. */
  predicate Linked(es: seq<(Node, Node)>, a: Node, b: Node)
  {
    (a, b) in es || (b, a) in es
  }

  /** The graph holds exactly the computers of the connections and exactly their links. */
  lemma {:induction false} ConnectionsEdges(es: seq<(Node, Node)>)
    ensures Connections(es).Keys == NodesOf(es)
    ensures forall a, b :: b in Neighbours(Connections(es), a) <==> Linked(es, a, b)
  {
    if es != [] {
      var n := |es| - 1;
      ConnectionsEdges(es[..n]);
      assert es == es[..n] + [es[n]];
      forall a, b
        ensures b in Neighbours(Connections(es), a) <==> Linked(es, a, b)
      {
        assert Linked(es, a, b) <==> Linked(es[..n], a, b) || (a, b) == es[n] || (b, a) == es[n];
      }
    }
  }

  /** A link recorded one way is recorded the other way too. */
  ghost predicate Symmetric(g: Graph)
  {
    forall a, b :: a in g && b in g[a] ==> b in g && a in g[b]
  }

  /** No computer is its own neighbour. */
  ghost predicate NoSelfLoops(g: Graph)
  {
    forall a :: a in g ==> a !in g[a]
  }

  /** Adjacency is symmetric, since each connection is recorded both ways. */
  lemma ConnectionsSymmetric(es: seq<(Node, Node)>)
    ensures Symmetric(Connections(es))
  {
    ConnectionsEdges(es);
  }

  /** One more well-formed line adds its connection to those of the lines before it. */
  lemma ParseStep(lines: seq<string>, i: nat, a: Node, b: Node)
    requires i < |lines| && Edges(lines[..i]).Some? && ParseLine(lines[i]) == Some((a, b))
    ensures var es := Edges(lines[..i]).value;
      Edges(lines[..i + 1]) == Some(es + [(a, b)]) &&
      Connections(es + [(a, b)]) == Connect(Connections(es), a, b) &&
      NodesOf(es + [(a, b)]) == NodesOf(es) + {a, b}
  {
    assert lines[..i + 1][..i] == lines[..i];
    var es := Edges(lines[..i]).value;
    assert (es + [(a, b)])[..|es|] == es;
  }

  /** The computers and the neighbours of each, or nothing when a line is malformed. */
  method Parse(lines: seq<string>) returns (r: Option<(set<Node>, Graph)>)
    ensures Edges(lines).None? ==> r.None?
    ensures Edges(lines).Some? ==> r == Some((NodesOf(Edges(lines).value), Connections(Edges(lines).value)))
  {
    var connections: Graph := map[];
    var nodes: set<Node> := {};
    for i := 0 to |lines|
      invariant Edges(lines[..i]).Some?
      invariant nodes == NodesOf(Edges(lines[..i]).value)
      invariant connections == Connections(Edges(lines[..i]).value)
    {
      var cities := ParseLine(lines[i]);
      if cities.None? {
        return None;
      }
      var (a, b) := cities.value;
      ParseStep(lines, i, a, b);
      connections := connections[a := Neighbours(connections, a) + {b}];
      connections := connections[b := Neighbours(connections, b) + {a}];
      nodes := nodes + {a};
      nodes := nodes + {b};
    }
    assert lines[..|lines|] == lines;
    return Some((nodes, connections));
  }

  // ----- Part 1: triangles with a `t` computer -----

  /** A name starting with `t`. */
  predicate StartsWithT(n: Node)
  {
    |n| > 0 && n[0] == 't'
  }

  /** The three names in order. */
  function Trio(x: Node, y: Node, z: Node): seq<Node>
  {
    if LexLess(y, x) then
      if LexLess(z, y) then [z, y, x] else if LexLess(z, x) then [y, z, x] else [y, x, z]
    else
      if LexLess(z, x) then [z, x, y] else if LexLess(z, y) then [x, z, y] else [x, y, z]
  }

  /** Three names with no later one smaller than an earlier one are in order. */
  lemma Ordered3(p: Node, q: Node, r: Node)
    requires !LexLess(q, p) && !LexLess(r, q) && !LexLess(r, p)
    ensures Ordered([p, q, r])
  {
  }

  /** A trio holds the three names, in order. */
  lemma TrioOrdered(x: Node, y: Node, z: Node)
    ensures Ordered(Trio(x, y, z)) && multiset(Trio(x, y, z)) == multiset([x, y, z])
  {
    LexLessAsymmetric(x, y);
    LexLessAsymmetric(y, z);
    LexLessAsymmetric(x, z);
    if LexLess(y, x) {
      if LexLess(z, y) {
        LexLessTransitive(z, y, x);
        Ordered3(z, y, x);
      } else if LexLess(z, x) {
        Ordered3(y, z, x);
      } else {
        Ordered3(y, x, z);
      }
    } else {
      if LexLess(z, x) {
        LexLessTotal(x, y);
        if LexLess(x, y) {
          LexLessTransitive(z, x, y);
        }
        Ordered3(z, x, y);
      } else if LexLess(z, y) {
        Ordered3(x, z, y);
      } else {
        Ordered3(x, y, z);
      }
    }
  }

  /** A trio is the three names sorted. */
  lemma TrioSorted(x: Node, y: Node, z: Node)
    ensures Trio(x, y, z) == SortStrings([x, y, z])
  {
    TrioOrdered(x, y, z);
    OrderedUnique(Trio(x, y, z), SortStrings([x, y, z]));
  }

  /** The trios of `node` and its neighbour `a` with each neighbour of both in `bs`. */
  function PairTriosOf(g: Graph, node: Node, a: Node, bs: set<Node>): set<seq<Node>>
    requires a in g
  {
    set b | b in bs && b in g[a] :: Trio(node, a, b)
  }

  /** The trios through `node` with a first neighbour in `firsts`. */
  function NodeTriosOf(g: Graph, node: Node, firsts: set<Node>): set<seq<Node>>
    requires node in g
  {
    set a, b | a in firsts && a in g && b in g[node] && b in g[a] :: Trio(node, a, b)
  }

  /** The trios through `node`: two of its neighbours that are neighbours of each other. */
  function NodeTrios(g: Graph, node: Node): set<seq<Node>>
    requires node in g
  {
    NodeTriosOf(g, node, g[node])
  }

  /** The trios through the `t` computers of `ns`. */
  function TriosOver(g: Graph, ns: set<Node>): set<seq<Node>>
  {
    set node, a, b | node in ns && node in g && StartsWithT(node) && a in g[node] && a in g && b in g[node] && b in g[a]
      :: Trio(node, a, b)
  }

  /** The trios through every `t` computer. */
  function Trios(g: Graph): set<seq<Node>>
  {
    TriosOver(g, g.Keys)
  }

  /** Every element of a set of distinct computers is in it exactly once. */
  predicate Distinct(c: seq<Node>)
  {
    forall x :: x in multiset(c) ==> multiset(c)[x] == 1
  }

  /** Every two different computers of `c` are neighbours. */
  ghost predicate Clique(g: Graph, c: seq<Node>)
  {
    (forall x :: x in c ==> x in g) && (forall x, y :: x in c && y in c && x != y ==> y in g[x])
  }

  /**
   * In a graph without self-loops, the trios are exactly the ordered
   * triples of three mutually connected computers, one of which starts
   * with `t`.
   */
  lemma TriosMeaning(g: Graph, t: seq<Node>)
    requires Symmetric(g) && NoSelfLoops(g)
    ensures t in Trios(g) <==>
              |t| == 3 && Ordered(t) && Distinct(t) && Clique(g, t) && exists i :: 0 <= i < 3 && StartsWithT(t[i])
  {
    if t in Trios(g) {
      var node, a, b :| node in g && StartsWithT(node) && a in g[node] && b in g[node] && a in g && b in g[a]
        && t == Trio(node, a, b);
      TrioShape(g, node, a, b);
    }
    if |t| == 3 && Ordered(t) && Distinct(t) && Clique(g, t) && exists i :: 0 <= i < 3 && StartsWithT(t[i]) {
      var k :| 0 <= k < 3 && StartsWithT(t[k]);
      TrioFound(g, t, k);
    }
  }

  /** Three distinct names are pairwise different. */
  lemma Distinct3(p: Node, q: Node, r: Node)
    ensures Distinct([p, q, r]) <==> p != q && q != r && p != r
  {
    var m := multiset([p, q, r]);
    assert m == multiset{p} + multiset{q} + multiset{r};
    if p != q && q != r && p != r {
      assert forall x :: x in m ==> x == p || x == q || x == r;
    }
  }

  /** Being a clique depends only on which computers there are. */
  lemma CliqueMembers(g: Graph, s: seq<Node>, t: seq<Node>)
    requires Clique(g, s) && forall x :: x in s <==> x in t
    ensures Clique(g, t)
  {
  }

  /** A trio holds exactly its three names. */
  lemma TrioMembers(x: Node, y: Node, z: Node)
    ensures |Trio(x, y, z)| == 3 && forall w :: w in Trio(x, y, z) <==> w in [x, y, z]
  {
  }

  /** Three computers each the neighbour of the other two form a clique. */
  lemma Triangle(g: Graph, p: Node, q: Node, r: Node)
    requires Symmetric(g) && NoSelfLoops(g)
    requires p in g && q in g[p] && r in g[p] && q in g && r in g[q]
    ensures Clique(g, [p, q, r]) && p != q && q != r && p != r
  {
    assert r in g && p in g[q] && p in g[r] && q in g[r];
  }

  /** A trio is an ordered triangle through its `t` computer. */
  lemma TrioShape(g: Graph, node: Node, a: Node, b: Node)
    requires Symmetric(g) && NoSelfLoops(g)
    requires node in g && StartsWithT(node) && a in g[node] && b in g[node] && a in g && b in g[a]
    ensures var t := Trio(node, a, b);
      |t| == 3 && Ordered(t) && Distinct(t) && Clique(g, t) && exists i :: 0 <= i < 3 && StartsWithT(t[i])
  {
    Triangle(g, node, a, b);
    var t := Trio(node, a, b);
    TrioOrdered(node, a, b);
    TrioMembers(node, a, b);
    Distinct3(node, a, b);
    CliqueMembers(g, [node, a, b], t);
    var i :| 0 <= i < 3 && t[i] == node;
  }

  /** The trio of a `t` computer and two neighbours that are neighbours of each other is counted. */
  lemma TrioCounted(g: Graph, node: Node, a: Node, b: Node)
    requires node in g && StartsWithT(node) && a in g[node] && a in g && b in g[node] && b in g[a]
    ensures Trio(node, a, b) in Trios(g)
  {
    assert node in g.Keys;
  }

  /** An ordered triangle through `node`, listed from `node` on, is the trio of its computers. */
  lemma TrioFrom(g: Graph, t: seq<Node>, node: Node, a: Node, b: Node)
    requires Symmetric(g) && NoSelfLoops(g) && StartsWithT(node)
    requires |t| == 3 && Ordered(t) && Distinct(t) && Clique(g, t) && multiset([node, a, b]) == multiset(t)
    ensures t in Trios(g)
  {
    TrioOrdered(node, a, b);
    OrderedUnique(Trio(node, a, b), t);
    Distinct3(node, a, b);
    assert node in multiset(t) && a in multiset(t) && b in multiset(t);
    assert node in t && a in t && b in t;
    TrioCounted(g, node, a, b);
  }

  /** An ordered triangle through a `t` computer is the trio of that computer and the other two. */
  lemma TrioFound(g: Graph, t: seq<Node>, k: nat)
    requires Symmetric(g) && NoSelfLoops(g)
    requires |t| == 3 && Ordered(t) && Distinct(t) && Clique(g, t) && k < 3 && StartsWithT(t[k])
    ensures t in Trios(g)
  {
    assert t == [t[0], t[1], t[2]];
    if k == 0 {
      TrioFrom(g, t, t[0], t[1], t[2]);
    } else if k == 1 {
      assert multiset([t[1], t[2], t[0]]) == multiset(t);
      TrioFrom(g, t, t[1], t[2], t[0]);
    } else {
      assert multiset([t[2], t[0], t[1]]) == multiset(t);
      TrioFrom(g, t, t[2], t[0], t[1]);
    }
  }

  lemma PairTriosAdd(g: Graph, node: Node, a: Node, bs: set<Node>, b: Node)
    requires a in g
    ensures PairTriosOf(g, node, a, bs + {b}) ==
              PairTriosOf(g, node, a, bs) + (if b in g[a] then {Trio(node, a, b)} else {})
  {
  }

  lemma NodeTriosAdd(g: Graph, node: Node, firsts: set<Node>, a: Node)
    requires node in g && a in g
    ensures NodeTriosOf(g, node, firsts + {a}) == NodeTriosOf(g, node, firsts) + PairTriosOf(g, node, a, g[node])
  {
    var left, right := NodeTriosOf(g, node, firsts + {a}), NodeTriosOf(g, node, firsts) + PairTriosOf(g, node, a, g[node]);
    forall t | t in left
      ensures t in right
    {
      var a', b :| a' in firsts + {a} && a' in g && b in g[node] && b in g[a'] && t == Trio(node, a', b);
      if a' != a {
        assert t in NodeTriosOf(g, node, firsts);
      }
    }
  }

  /** Adding the trios of `node` with neighbour `a` closing with each neighbour `b`. */
  method PairTrios(g: Graph, node: Node, a: Node, trios: set<seq<Node>>) returns (r: set<seq<Node>>)
    requires node in g && a in g
    ensures r == trios + PairTriosOf(g, node, a, g[node])
  {
    r := trios;
    var todo := g[node];
    while todo != {}
      invariant todo <= g[node]
      invariant r == trios + PairTriosOf(g, node, a, g[node] - todo)
      decreases |todo|
    {
      var b :| b in todo;
      PairTriosAdd(g, node, a, g[node] - todo, b);
      assert g[node] - (todo - {b}) == (g[node] - todo) + {b};
      if b in g[a] {
        r := r + {Trio(node, a, b)};
      }
      todo := todo - {b};
    }
  }

  /** Adding the trios through `node`. */
  method AddNodeTrios(g: Graph, node: Node, trios: set<seq<Node>>) returns (r: set<seq<Node>>)
    requires Symmetric(g) && node in g
    ensures r == trios + NodeTrios(g, node)
  {
    r := trios;
    var todo := g[node];
    while todo != {}
      invariant todo <= g[node]
      invariant r == trios + NodeTriosOf(g, node, g[node] - todo)
      decreases |todo|
    {
      var a :| a in todo;
      NodeTriosAdd(g, node, g[node] - todo, a);
      assert g[node] - (todo - {a}) == (g[node] - todo) + {a};
      r := PairTrios(g, node, a, r);
      todo := todo - {a};
    }
  }

  /** The trios through the `t` computers of `done` and of one more computer. */
  lemma TriosOverStep(g: Graph, done: set<Node>, node: Node)
    requires Symmetric(g) && node in g
    ensures TriosOver(g, done + {node}) == TriosOver(g, done) + (if StartsWithT(node) then NodeTrios(g, node) else {})
  {
    var left, right := TriosOver(g, done + {node}), TriosOver(g, done) + (if StartsWithT(node) then NodeTrios(g, node) else {});
    forall t | t in left
      ensures t in right
    {
      var n, a, b :| n in done + {node} && n in g && StartsWithT(n) && a in g[n] && a in g && b in g[n] && b in g[a]
        && t == Trio(n, a, b);
      if n != node {
        assert t in TriosOver(g, done);
      } else {
        assert t in NodeTriosOf(g, node, g[node]);
      }
    }
    forall t | t in right
      ensures t in left
    {
      if t !in TriosOver(g, done) {
        var a, b :| a in g[node] && a in g && b in g[node] && b in g[a] && t == Trio(node, a, b);
        assert node in done + {node};
      }
    }
  }

  /** The number of distinct trios, collected computer by computer. */
  method CountTrios(nodes: set<Node>, g: Graph) returns (count: nat)
    requires nodes == g.Keys && Symmetric(g)
    ensures count == |Trios(g)|
  {
    var trios: set<seq<Node>> := {};
    var todo := nodes;
    while todo != {}
      invariant todo <= nodes
      invariant trios == TriosOver(g, nodes - todo)
      decreases |todo|
    {
      var node :| node in todo;
      TriosOverNext(g, nodes, todo, node);
      if StartsWithT(node) {
        trios := AddNodeTrios(g, node, trios);
      }
      todo := todo - {node};
    }
    assert nodes - todo == g.Keys;
    return |trios|;
  }

  /** Taking one more computer off the to-do list adds its trios when its name starts with `t`. */
  lemma TriosOverNext(g: Graph, nodes: set<Node>, todo: set<Node>, node: Node)
    requires Symmetric(g) && nodes == g.Keys && todo <= nodes && node in todo
    ensures TriosOver(g, nodes - (todo - {node})) ==
            TriosOver(g, nodes - todo) + (if StartsWithT(node) then NodeTrios(g, node) else {})
  {
    TriosOverStep(g, nodes - todo, node);
    assert nodes - (todo - {node}) == (nodes - todo) + {node};
  }

  /** Part 1: the number of trios, or nothing when a line is malformed. */
  method Part1(lines: seq<string>) returns (r: Option<nat>)
    ensures r.Some? <==> Edges(lines).Some?
    ensures r.Some? ==> r.value == |Trios(Connections(Edges(lines).value))|
  {
    var parsed := Parse(lines);
    if parsed.None? {
      return None;
    }
    ConnectionsEdges(Edges(lines).value);
    ConnectionsSymmetric(Edges(lines).value);
    var count := CountTrios(parsed.value.0, parsed.value.1);
    return Some(count);
  }

  // ----- Part 2: growing cliques -----

  /** The computers that are neighbours of every computer of `c`. */
  ghost function CommonOf(g: Graph, c: seq<Node>): set<Node>
    requires c != [] && forall x :: x in c ==> x in g
  {
    set v | v in g[c[0]] && forall i :: 0 <= i < |c| ==> v in g[c[i]]
  }

  /** The neighbourhoods of `c`'s computers intersected, starting from the first one's. */
  method CommonNeighbours(g: Graph, c: seq<Node>) returns (common: set<Node>)
    requires c != [] && forall x :: x in c ==> x in g
    ensures common == CommonOf(g, c)
  {
    common := g[c[0]];
    for i := 1 to |c|
      invariant common == set v | v in g[c[0]] && forall k :: 0 <= k < i ==> v in g[c[k]]
    {
      common := common * g[c[i]];
    }
  }

  function Power(b: nat, e: nat): (r: nat)
    ensures b >= 1 ==> r >= 1
  {
    if e == 0 then 1 else b * Power(b, e - 1)
  }

  /** How many more computers a set of `len` of them could still take, out of `n`. */
  function Room(len: nat, n: nat): nat
  {
    if len >= n then 0 else n - len
  }

  /**
   * A measure of the work left in the queue: a set with room for `k` more
   * computers weighs `(n + 1)^k`, more than the at most `n` sets one
   * larger that replace it.
   */
  ghost function Weight(queue: seq<seq<Node>>, n: nat): nat
  {
    if queue == [] then 0
    else Weight(queue[..|queue| - 1], n) + Power(n + 1, Room(|queue[|queue| - 1]|, n))
  }

  lemma WeightPush(queue: seq<seq<Node>>, c: seq<Node>, n: nat)
    ensures Weight(queue + [c], n) == Weight(queue, n) + Power(n + 1, Room(|c|, n))
  {
    assert (queue + [c])[..|queue|] == queue;
  }

  /** At most `n` sets one larger weigh less than the set they replace. */
  lemma WeightDrops(n: nat, k: nat, room: nat)
    requires k <= n && room >= 1
    ensures k * Power(n + 1, room - 1) < Power(n + 1, room)
  {
    var p := Power(n + 1, room - 1);
    assert Power(n + 1, room) == (n + 1) * p;
    assert k * p <= n * p;
  }

  /** The distinct computers of `c` are as many as its length. */
  lemma {:induction false} DistinctCard(c: seq<Node>)
    requires Distinct(c)
    ensures |set x | x in c| == |c|
  {
    if c != [] {
      var n := |c| - 1;
      assert c == c[..n] + [c[n]];
      assert multiset(c) == multiset(c[..n]) + multiset{c[n]};
      assert Distinct(c[..n]) by {
        forall x | x in multiset(c[..n])
          ensures multiset(c[..n])[x] == 1
        {
          assert multiset(c)[x] == multiset(c[..n])[x] + (if x == c[n] then 1 else 0);
        }
      }
      DistinctCard(c[..n]);
      assert c[n] !in c[..n] by {
        assert multiset(c)[c[n]] == multiset(c[..n])[c[n]] + 1;
      }
      assert (set x | x in c) == (set x | x in c[..n]) + {c[n]};
    }
  }

  /** A clique of distinct computers is no larger than the graph. */
  lemma CliqueBound(g: Graph, c: seq<Node>)
    requires Clique(g, c) && Distinct(c)
    ensures |c| <= |g.Keys|
  {
    DistinctCard(c);
    Sets.SubsetCard((set x | x in c), g.Keys);
  }

  /** Sorting a set of computers keeps it a clique of distinct computers. */
  lemma SortClique(g: Graph, c: seq<Node>)
    requires Clique(g, c) && Distinct(c)
    ensures Clique(g, SortStrings(c)) && Distinct(SortStrings(c)) && |SortStrings(c)| == |c|
  {
    var s := SortStrings(c);
    assert forall x :: x in s <==> x in c by {
      forall x
        ensures x in s <==> x in c
      {
        assert x in s <==> x in multiset(s);
        assert x in c <==> x in multiset(c);
      }
    }
    assert |s| == |multiset(s)| == |c|;
  }

  /** A common neighbour extends a clique to a larger one. */
  lemma ExtendClique(g: Graph, c: seq<Node>, next: Node)
    requires Symmetric(g) && NoSelfLoops(g)
    requires c != [] && Clique(g, c) && Distinct(c) && next in CommonOf(g, c)
    ensures Clique(g, c + [next]) && Distinct(c + [next]) && next !in c
  {
    var d := c + [next];
    assert next in g;
    forall x, y | x in d && y in d && x != y
      ensures y in g[x]
    {
      if x == next {
        var i :| 0 <= i < |c| && c[i] == y;
        assert next in g[c[i]];
      } else if y == next {
        var i :| 0 <= i < |c| && c[i] == x;
        assert next in g[c[i]];
      } else {
        assert x in c && y in c;
      }
    }
    assert multiset(d) == multiset(c) + multiset{next};
    assert multiset(c)[next] == 0;
  }

  /** Every set in the queue is a clique of at least one distinct computer. */
  ghost predicate Cliques(g: Graph, queue: seq<seq<Node>>)
  {
    forall q :: q in queue ==> 1 <= |q| && Clique(g, q) && Distinct(q)
  }

  /** The queue the search from `start` begins with: each neighbour alone. */
  method Singletons(g: Graph, start: Node) returns (queue: seq<seq<Node>>)
    requires Symmetric(g) && start in g
    ensures Cliques(g, queue)
    ensures forall m :: m in g[start] ==> [m] in queue
  {
    queue := [];
    var todo := g[start];
    while todo != {}
      invariant todo <= g[start]
      invariant Cliques(g, queue)
      invariant forall m :: m in g[start] - todo ==> [m] in queue
      decreases |todo|
    {
      var m :| m in todo;
      assert multiset([m])[m] == 1;
      queue := queue + [[m]];
      todo := todo - {m};
    }
  }

  /** Pushing a clique extended by each of its common neighbours, which weigh `step` each. */
  method PushExtensions(g: Graph, queue: seq<seq<Node>>, connected: seq<Node>, common: set<Node>, ghost n: nat)
    returns (queue': seq<seq<Node>>)
    requires Symmetric(g) && NoSelfLoops(g) && Cliques(g, queue)
    requires connected != [] && Clique(g, connected) && Distinct(connected) && common <= CommonOf(g, connected)
    ensures Cliques(g, queue') && forall q :: q in queue ==> q in queue'
    ensures Weight(queue', n) == Weight(queue, n) + Scaled(|common|, Power(n + 1, Room(|connected| + 1, n)))
  {
    var extensions := Extensions(g, connected, common);
    queue' := queue + extensions;
    WeightAppend(queue, extensions, n, |connected| + 1);
  }

  /** The clique extended by each of the given common neighbours, one set per neighbour. */
  method Extensions(g: Graph, connected: seq<Node>, common: set<Node>) returns (extensions: seq<seq<Node>>)
    requires Symmetric(g) && NoSelfLoops(g)
    requires connected != [] && Clique(g, connected) && Distinct(connected) && common <= CommonOf(g, connected)
    ensures Cliques(g, extensions) && |extensions| == |common|
    ensures forall i :: 0 <= i < |extensions| ==> |extensions[i]| == |connected| + 1
  {
    extensions := [];
    var pending := common;
    while pending != {}
      invariant pending <= common
      invariant Cliques(g, extensions) && |extensions| == |common - pending|
      invariant forall i :: 0 <= i < |extensions| ==> |extensions[i]| == |connected| + 1
      decreases |pending|
    {
      var next :| next in pending;
      ExtensionsGrow(g, connected, extensions, next);
      extensions := extensions + [connected + [next]];
      assert common - (pending - {next}) == (common - pending) + {next};
      pending := pending - {next};
    }
    assert common - pending == common;
  }

  /** One more common neighbour adds one more extended clique. */
  lemma ExtensionsGrow(g: Graph, connected: seq<Node>, extensions: seq<seq<Node>>, next: Node)
    requires Symmetric(g) && NoSelfLoops(g)
    requires connected != [] && Clique(g, connected) && Distinct(connected) && next in CommonOf(g, connected)
    requires Cliques(g, extensions) && forall i :: 0 <= i < |extensions| ==> |extensions[i]| == |connected| + 1
    ensures var more := extensions + [connected + [next]];
            Cliques(g, more) && forall i :: 0 <= i < |more| ==> |more[i]| == |connected| + 1
  {
    ExtendClique(g, connected, next);
  }

  /** Sets of one size appended to the queue add their weight once each. */
  lemma {:induction false} WeightAppend(queue: seq<seq<Node>>, extensions: seq<seq<Node>>, n: nat, len: nat)
    requires forall i :: 0 <= i < |extensions| ==> |extensions[i]| == len
    ensures Weight(queue + extensions, n) == Weight(queue, n) + Scaled(|extensions|, Power(n + 1, Room(len, n)))
  {
    if extensions != [] {
      var k := |extensions| - 1;
      var init, last := extensions[..k], extensions[k];
      assert extensions == init + [last];
      WeightAppend(queue, init, n, len);
      var front := queue + init;
      assert queue + extensions == front + [last];
      WeightPush(front, last, n);
      assert |last| == len;
      var step := Power(n + 1, Room(len, n));
      assert Scaled(k + 1, step) == Scaled(k, step) + step;
    } else {
      assert queue + extensions == queue;
    }
  }

  /** `k` times `step`, by repeated addition. */
  function Scaled(k: nat, step: nat): nat
  {
    if k == 0 then 0 else Scaled(k - 1, step) + step
  }

  lemma {:induction false} ScaledIsProduct(k: nat, step: nat)
    ensures Scaled(k, step) == k * step
  {
    if k > 0 {
      ScaledIsProduct(k - 1, step);
    }
  }

  /** The extensions of a clique by its common neighbours weigh less than the clique itself. */
  lemma ExtensionsLighter(g: Graph, connected: seq<Node>, common: set<Node>, n: nat)
    requires Symmetric(g) && NoSelfLoops(g) && n == |g.Keys|
    requires connected != [] && Clique(g, connected) && Distinct(connected)
    requires common == CommonOf(g, connected) && common != {}
    ensures Scaled(|common|, Power(n + 1, Room(|connected| + 1, n))) < Power(n + 1, Room(|connected|, n))
  {
    var some :| some in common;
    ExtendClique(g, connected, some);
    CliqueBound(g, connected + [some]);
    assert common <= g.Keys by {
      forall v | v in common
        ensures v in g
      {
        assert v in g[connected[0]];
      }
    }
    Sets.SubsetCard(common, g.Keys);
    WeightDrops(n, |common|, Room(|connected|, n));
    ScaledIsProduct(|common|, Power(n + 1, Room(|connected| + 1, n)));
  }

  /**
   * The clique search from `start`: the queue starts with each neighbour
   * alone; a set popped from its end is sorted, skipped if seen before,
   * becomes the best if larger than the best so far, and is pushed back
   * extended by each common neighbour of its computers. Every set in the
   * queue is a clique, and the best only ever grows strictly.
   */
  method Grow(g: Graph, start: Node, best: seq<Node>, ghost seen: set<seq<Node>>)
    returns (best': seq<Node>, ghost seen': set<seq<Node>>)
    requires Symmetric(g) && NoSelfLoops(g) && start in g
    requires Clique(g, best) && Distinct(best) && Ordered(best)
    requires forall c :: c in seen ==> |c| <= |best|
    ensures Clique(g, best') && Distinct(best') && Ordered(best')
    ensures best' == best || |best'| > |best|
    ensures seen <= seen' && forall c :: c in seen' ==> |c| <= |best'|
    ensures forall m :: m in g[start] ==> [m] in seen'
  {
    best', seen' := best, seen;
    var n := |g.Keys|;
    var queue := Singletons(g, start);
    var visited: set<seq<Node>> := {};
    while queue != []
      invariant Cliques(g, queue)
      invariant forall m :: m in g[start] ==> [m] in queue || [m] in visited
      invariant visited <= seen' && seen <= seen'
      invariant forall c :: c in seen' ==> |c| <= |best'|
      invariant Clique(g, best') && Distinct(best') && Ordered(best')
      invariant best' == best || |best'| > |best|
      decreases Weight(queue, n)
    {
      queue, visited, best', seen' := GrowStep(g, start, n, queue, visited, best', seen');
    }
  }

  /** One turn of the loop in `Grow`: pop a set, and if it is new, record it and queue its extensions. */
  method GrowStep(g: Graph, start: Node, n: nat, queue: seq<seq<Node>>, visited: set<seq<Node>>,
                  best: seq<Node>, ghost seen: set<seq<Node>>)
    returns (queue': seq<seq<Node>>, visited': set<seq<Node>>, best': seq<Node>, ghost seen': set<seq<Node>>)
    requires Symmetric(g) && NoSelfLoops(g) && start in g && n == |g.Keys|
    requires queue != [] && Cliques(g, queue)
    requires forall m :: m in g[start] ==> [m] in queue || [m] in visited
    requires visited <= seen && forall c :: c in seen ==> |c| <= |best|
    requires Clique(g, best) && Distinct(best) && Ordered(best)
    ensures Cliques(g, queue') && Weight(queue', n) < Weight(queue, n)
    ensures forall m :: m in g[start] ==> [m] in queue' || [m] in visited'
    ensures visited' <= seen' && seen <= seen' && forall c :: c in seen' ==> |c| <= |best'|
    ensures Clique(g, best') && Distinct(best') && Ordered(best')
    ensures best' == best || |best'| > |best|
  {
    best', seen', visited' := best, seen, visited;
    var popped := queue[|queue| - 1];
    queue' := queue[..|queue| - 1];
    assert queue == queue' + [popped];
    WeightPush(queue', popped, n);
    SortClique(g, popped);
    var connected := SortStrings(popped);
    forall m | m in g[start]
      ensures [m] in queue' || [m] == connected || [m] in visited
    {
      if [m] == popped {
        assert SortStrings([m]) == [m];
      }
    }
    if connected in visited {
      return;
    }
    visited' := visited + {connected};
    seen' := seen + {connected};
    if |connected| > |best| {
      best' := connected;
    }
    queue' := Extend(g, n, queue', connected);
  }

  /** Pushes `connected` extended by each of its common neighbours; together they weigh less than it. */
  method Extend(g: Graph, n: nat, queue: seq<seq<Node>>, connected: seq<Node>) returns (queue': seq<seq<Node>>)
    requires Symmetric(g) && NoSelfLoops(g) && n == |g.Keys| && Cliques(g, queue)
    requires connected != [] && Clique(g, connected) && Distinct(connected)
    ensures Cliques(g, queue') && forall q :: q in queue ==> q in queue'
    ensures Weight(queue', n) < Weight(queue, n) + Power(n + 1, Room(|connected|, n))
  {
    queue' := queue;
    var common := CommonNeighbours(g, connected);
    if common != {} {
      ExtensionsLighter(g, connected, common, n);
      queue' := PushExtensions(g, queue', connected, common, n);
    }
  }

  /** The clique search from every computer, keeping the largest clique found. */
  method LargestClique(nodes: set<Node>, g: Graph) returns (best: seq<Node>, ghost seen: set<seq<Node>>)
    requires nodes == g.Keys && Symmetric(g) && NoSelfLoops(g)
    ensures Clique(g, best) && Distinct(best) && Ordered(best)
    ensures forall c :: c in seen ==> |c| <= |best|
    ensures forall a, m :: a in g && m in g[a] ==> [m] in seen
  {
    best, seen := [], {};
    var todo := nodes;
    while todo != {}
      invariant todo <= nodes
      invariant Clique(g, best) && Distinct(best) && Ordered(best)
      invariant forall c :: c in seen ==> |c| <= |best|
      invariant forall a, m :: a in nodes - todo && m in g[a] ==> [m] in seen
      decreases |todo|
    {
      var node :| node in todo;
      best, seen := Grow(g, node, best, seen);
      todo := todo - {node};
    }
  }

  /** The names sorted and joined with commas; no names give the empty string. */
  function Password(c: seq<Node>): string
  {
    if c == [] then "" else Join(SortStrings(c), ',')
  }

  /** Names without commas can be read back from the password, in order. */
  lemma PasswordSplit(c: seq<Node>)
    requires c != [] && forall i :: 0 <= i < |c| ==> ',' !in c[i]
    ensures Split(Password(c), ',') == SortStrings(c)
  {
    var s := SortStrings(c);
    assert |s| == |multiset(s)| == |c|;
    forall i | 0 <= i < |s|
      ensures ',' !in s[i]
    {
      assert s[i] in multiset(c);
    }
    SplitJoin(s, ',');
  }

  /** No line connects a computer to itself. */
  predicate NoSelfLoopLines(lines: seq<string>)
  {
    forall i :: 0 <= i < |lines| && ParseLine(lines[i]).Some? ==> ParseLine(lines[i]).value.0 != ParseLine(lines[i]).value.1
  }

  /** Without self-connecting lines, the graph has no self-loops. */
  lemma NoSelfLoopsOf(lines: seq<string>)
    requires NoSelfLoopLines(lines) && Edges(lines).Some?
    ensures NoSelfLoops(Connections(Edges(lines).value))
  {
    var es := Edges(lines).value;
    ConnectionsEdges(es);
    var g := Connections(es);
    forall a | a in g
      ensures a !in g[a]
    {
      assert !Linked(es, a, a);
    }
  }

  /**
   * Part 2: the password of the largest clique found, or nothing when a
   * line is malformed. The search does not end on a line that connects a
   * computer to itself, so such lines are excluded.
   */
  method Part2(lines: seq<string>) returns (r: Option<string>, ghost clique: seq<Node>)
    requires NoSelfLoopLines(lines)
    ensures r.Some? <==> Edges(lines).Some?
    ensures r.Some? ==>
              var g := Connections(Edges(lines).value);
              Clique(g, clique) && Distinct(clique) && Ordered(clique) && r.value == Password(clique) &&
              (lines != [] ==> |clique| >= 1)
  {
    var parsed := Parse(lines);
    if parsed.None? {
      return None, [];
    }
    ghost var es := Edges(lines).value;
    ConnectionsEdges(es);
    ConnectionsSymmetric(es);
    NoSelfLoopsOf(lines);
    var (nodes, connections) := parsed.value;
    var best;
    ghost var seen;
    best, seen := LargestClique(nodes, connections);
    if lines != [] {
      var (a, b) := es[0];
      assert Linked(es, a, b);
      assert [b] in seen;
    }
    var sorted := SortStrings(best);
    var password := if sorted == [] then "" else Join(sorted, ',');
    return Some(password), best;
  }
}
