/**
 Reverse-mode differentiation over a shared graph: the depth-first sort, the accumulation of
 adjoints, and what the adjoints are. Tensors are single coordinates of element-wise operations.
 */
module Autograd {
  import opened Arithmetic
  import opened Sums

  datatype Op =
    | Add | Mul | Div | Negate
    | AddScalar(c: real) | MulScalar(c: real) | DivScalar(c: real)
    | PowerScalar(n: int)

  datatype Node = Leaf(value: real, requiresGrad: bool) | Apply(op: Op, inputs: seq<nat>)

  /** Nodes in creation order: an operation's inputs existed before it did. */
  type Graph = seq<Node>

  function Arity(op: Op): nat {
    if op.Add? || op.Mul? || op.Div? then 2 else 1
  }

  predicate WellFormed(g: Graph) {
    forall i | 0 <= i < |g| && g[i].Apply? ::
      |g[i].inputs| == Arity(g[i].op) && forall j | 0 <= j < |g[i].inputs| :: g[i].inputs[j] < i
  }

  function Inputs(g: Graph, x: nat): seq<nat>
    requires x < |g|
  {
    if g[x].Apply? then g[x].inputs else []
  }

  // ----- forward values -----

  function Quotient(a: real, b: real): real {
    if b == 0.0 then 0.0 else a / b
  }

  function Power(x: real, n: int): real
    decreases if n < 0 then 1 - n else n
  {
    if n == 0 then 1.0 else if n > 0 then x * Power(x, n - 1) else Quotient(1.0, Power(x, -n))
  }

  function Compute(op: Op, args: seq<real>): real
    requires |args| == Arity(op)
  {
    match op
    case Add => args[0] + args[1]
    case Mul => args[0] * args[1]
    case Div => Quotient(args[0], args[1])
    case Negate => -args[0]
    case AddScalar(c) => args[0] + c
    case MulScalar(c) => args[0] * c
    case DivScalar(c) => Quotient(args[0], c)
    case PowerScalar(n) => Power(args[0], n)
  }

  /** No division by zero, also not inside a negative power. */
  predicate Regular(op: Op, args: seq<real>)
    requires |args| == Arity(op)
  {
    match op
    case Div => args[1] != 0.0
    case DivScalar(c) => c != 0.0
    case PowerScalar(n) => n >= 0 || args[0] != 0.0
    case _ => true
  }

  function Value(g: Graph, x: nat): real
    requires WellFormed(g) && x < |g|
    decreases x, 1
  {
    if g[x].Leaf? then g[x].value else Compute(g[x].op, Args(g, x))
  }

  function Args(g: Graph, x: nat): (args: seq<real>)
    requires WellFormed(g) && x < |g|
    ensures |args| == |Inputs(g, x)|
    decreases x, 0
  {
    seq(|Inputs(g, x)|, j requires 0 <= j < |Inputs(g, x)| => Value(g, Inputs(g, x)[j]))
  }

  // ----- the gradient rules -----

  /** The adjoints an operation passes to its inputs, given its own adjoint. */
  function Rule(op: Op, adjoint: real, args: seq<real>): (grads: seq<real>)
    requires |args| == Arity(op)
    ensures |grads| == Arity(op)
  {
    match op
    case Add => [adjoint, adjoint]
    case Mul => [adjoint * args[1], adjoint * args[0]]
    case Div => [Quotient(adjoint, args[1]), Quotient(adjoint * args[0] * -1.0, args[1] * args[1])]
    case Negate => [-adjoint]
    case AddScalar(_) => [adjoint]
    case MulScalar(c) => [adjoint * c]
    case DivScalar(c) => [Quotient(adjoint, c)]
    case PowerScalar(n) =>
      if n == 0 then [args[0] * 0.0 * adjoint] else [adjoint * (Power(args[0], n - 1) * n as real)]
  }

  lemma QuotientScales(a: real, x: real, b: real)
    ensures Quotient(a * x, b) == a * Quotient(x, b)
  {
  }

  lemma QuotientOfUnit(a: real, b: real)
    ensures Quotient(a, b) == a * Quotient(1.0, b)
  {
  }

  lemma Reorder(a: real, x: real)
    ensures a * x * -1.0 == a * (1.0 * x * -1.0) && a * (1.0 * x) == a * x
    ensures x * 0.0 * a == a * (x * 0.0 * 1.0) && a * 1.0 == a
  {
  }

  lemma DivIsLinear(adjoint: real, args: seq<real>)
    requires |args| == 2
    ensures Quotient(adjoint, args[1]) == adjoint * Quotient(1.0, args[1])
    ensures Quotient(adjoint * args[0] * -1.0, args[1] * args[1])
            == adjoint * Quotient(1.0 * args[0] * -1.0, args[1] * args[1])
  {
    Reorder(adjoint, args[0]);
    QuotientOfUnit(adjoint, args[1]);
    QuotientScales(adjoint, 1.0 * args[0] * -1.0, args[1] * args[1]);
    hide Quotient;
  }

  lemma RuleIsLinear(op: Op, adjoint: real, args: seq<real>, j: nat)
    requires |args| == Arity(op) && j < Arity(op)
    ensures Rule(op, adjoint, args)[j] == adjoint * Rule(op, 1.0, args)[j]
  {
    hide Quotient, Power;
    match op
    case Div =>
      DivIsLinear(adjoint, args);
      assert j == 0 || j == 1;
    case DivScalar(c) => QuotientOfUnit(adjoint, c);
    case Mul =>
      Reorder(adjoint, args[0]);
      Reorder(adjoint, args[1]);
    case PowerScalar(n) =>
      Reorder(adjoint, args[0]);
      if n != 0 { Reorder(adjoint, Power(args[0], n - 1) * n as real); }
    case MulScalar(c) => Reorder(adjoint, c);
    case _ => Reorder(adjoint, 0.0);
  }

  // ----- reachability -----

  predicate Reaches(g: Graph, x: nat, y: nat)
    requires WellFormed(g) && x < |g|
    decreases x
  {
    x == y || exists j | 0 <= j < |Inputs(g, x)| :: Reaches(g, Inputs(g, x)[j], y)
  }

  lemma {:induction false} ReachesDown(g: Graph, x: nat, y: nat)
    requires WellFormed(g) && x < |g| && Reaches(g, x, y)
    ensures y <= x
    decreases x
  {
    if x != y {
      var j :| 0 <= j < |Inputs(g, x)| && Reaches(g, Inputs(g, x)[j], y);
      ReachesDown(g, Inputs(g, x)[j], y);
    }
  }

  lemma {:induction false} ReachesFurther(g: Graph, x: nat, y: nat, j: nat)
    requires WellFormed(g) && x < |g| && y < |g| && Reaches(g, x, y) && j < |Inputs(g, y)|
    ensures Reaches(g, x, Inputs(g, y)[j])
    decreases x
  {
    if x != y {
      var i :| 0 <= i < |Inputs(g, x)| && Reaches(g, Inputs(g, x)[i], y);
      ReachesFurther(g, Inputs(g, x)[i], y, j);
    } else {
      assert Reaches(g, Inputs(g, y)[j], Inputs(g, y)[j]);
    }
  }

  /** A node other than the root is an input of some reachable node. */
  lemma {:induction false} HasUser(g: Graph, root: nat, y: nat) returns (u: nat, j: nat)
    requires WellFormed(g) && root < |g| && Reaches(g, root, y) && y != root
    ensures u < |g| && Reaches(g, root, u) && j < |Inputs(g, u)| && Inputs(g, u)[j] == y
    decreases root
  {
    var i: nat :| i < |Inputs(g, root)| && Reaches(g, Inputs(g, root)[i], y);
    if Inputs(g, root)[i] == y {
      u, j := root, i;
    } else {
      u, j := HasUser(g, Inputs(g, root)[i], y);
    }
  }

  // ----- the sort -----

  /** Every node's inputs stand before it. */
  predicate InputsFirst(g: Graph, order: seq<nat>) {
    forall i | 0 <= i < |order| :: order[i] < |g| && forall y | y in Inputs(g, order[i]) :: y in order[..i]
  }

  ghost predicate SearchOk(g: Graph, visited: set<nat>, order: seq<nat>) {
    WellFormed(g) && AllDistinct(order) && InputsFirst(g, order) && forall x | x in order :: x in visited
  }

  /** Nodes visited but not yet placed belong to calls still open; they lie above the node to visit. */
  ghost predicate OpenAbove(visited: set<nat>, order: seq<nat>, node: nat) {
    forall x | x in visited :: x in order || x > node
  }

  ghost predicate SameOpen(v0: set<nat>, o0: seq<nat>, v1: set<nat>, o1: seq<nat>) {
    forall x :: (x in v0 && x !in o0) <==> (x in v1 && x !in o1)
  }

  /** What visiting `node` does: it is placed, with nothing but nodes it reaches, and no call is left open. */
  ghost predicate Visited(g: Graph, node: nat, v0: set<nat>, o0: seq<nat>, v1: set<nat>, o1: seq<nat>)
    requires WellFormed(g) && node < |g|
  {
    node in o1 && o0 <= o1 && SameOpen(v0, o0, v1, o1) && forall x | x in o1 :: x in o0 || Reaches(g, node, x)
  }

  /** The state after the first n inputs of `node` were visited. */
  ghost predicate Walked(g: Graph, node: nat, n: nat, v0: set<nat>, o0: seq<nat>, v1: set<nat>, o1: seq<nat>)
    requires WellFormed(g) && node < |g| && n <= |Inputs(g, node)|
  {
    && OpenAbove(v0, o0, node) && node !in v0 && node !in o0
    && o0 <= o1 && SameOpen(v0 + {node}, o0, v1, o1)
    && (forall k | 0 <= k < n :: Inputs(g, node)[k] in o1)
    && (forall x | x in o1 :: x in o0 || (Reaches(g, node, x) && x != node))
  }

  class Search {
    const g: Graph
    var visited: set<nat>
    var order: seq<nat>

    constructor (g: Graph)
      requires WellFormed(g)
      ensures SearchOk(g, visited, order) && this.g == g && order == [] && visited == {}
    {
      this.g, visited, order := g, {}, [];
    }

    method Visit(node: nat)
      requires SearchOk(g, visited, order) && node < |g| && OpenAbove(visited, order, node)
      modifies this
      ensures SearchOk(g, visited, order) && Visited(g, node, old(visited), old(order), visited, order)
      decreases node
    {
      if node in visited {
        RootReaches(g, node);
        return;
      }
      ghost var start, before := visited, order;
      StartWalk(g, node, visited, order);
      hide *;
      visited := visited + {node};
      var inputs := Inputs(g, node);
      for i := 0 to |inputs|
        invariant SearchOk(g, visited, order) && Walked(g, node, i, start, before, visited, order)
      {
        ghost var seen, sofar := visited, order;
        WalkOpens(g, node, i, start, before, visited, order);
        Visit(inputs[i]);
        WalkNext(g, node, i, start, before, seen, sofar, visited, order);
      }
      FinishWalk(g, node, start, before, visited, order);
      order := order + [node];
    }
  }

  lemma StartWalk(g: Graph, node: nat, v: set<nat>, o: seq<nat>)
    requires SearchOk(g, v, o) && node < |g| && OpenAbove(v, o, node) && node !in v
    ensures SearchOk(g, v + {node}, o) && Walked(g, node, 0, v, o, v + {node}, o)
  {
    hide Reaches, InputsFirst, AllDistinct;
  }

  lemma WalkOpens(g: Graph, node: nat, i: nat, v0: set<nat>, o0: seq<nat>, v1: set<nat>, o1: seq<nat>)
    requires SearchOk(g, v1, o1) && node < |g| && i < |Inputs(g, node)| && Walked(g, node, i, v0, o0, v1, o1)
    ensures Inputs(g, node)[i] < node && OpenAbove(v1, o1, Inputs(g, node)[i])
  {
    hide Reaches, InputsFirst, AllDistinct;
  }

  lemma WalkNext(
    g: Graph, node: nat, i: nat, v0: set<nat>, o0: seq<nat>, v1: set<nat>, o1: seq<nat>, v2: set<nat>, o2: seq<nat>)
    requires WellFormed(g) && node < |g| && i < |Inputs(g, node)| && Walked(g, node, i, v0, o0, v1, o1)
    requires Inputs(g, node)[i] < node && Visited(g, Inputs(g, node)[i], v1, o1, v2, o2)
    ensures Walked(g, node, i + 1, v0, o0, v2, o2)
  {
    hide Reaches, InputsFirst, AllDistinct, WellFormed;
    forall x | x in o2 && x !in o1 ensures Reaches(g, node, x) && x != node {
      InputReaches(g, node, i, x);
    }
  }

  lemma FinishWalk(g: Graph, node: nat, v0: set<nat>, o0: seq<nat>, v1: set<nat>, o1: seq<nat>)
    requires SearchOk(g, v1, o1) && node < |g| && Walked(g, node, |Inputs(g, node)|, v0, o0, v1, o1)
    ensures SearchOk(g, v1, o1 + [node]) && Visited(g, node, v0, o0, v1, o1 + [node])
  {
    hide Reaches;
    AppendOrder(g, o1, node);
    RootReaches(g, node);
    hide InputsFirst, AllDistinct, WellFormed, Inputs;
  }

  lemma RootReaches(g: Graph, node: nat)
    requires WellFormed(g) && node < |g|
    ensures Reaches(g, node, node)
  {
  }

  lemma InputReaches(g: Graph, node: nat, i: nat, x: nat)
    requires WellFormed(g) && node < |g| && i < |Inputs(g, node)| && Reaches(g, Inputs(g, node)[i], x)
    ensures Reaches(g, node, x) && x < node
  {
    ReachesDown(g, Inputs(g, node)[i], x);
  }

  lemma AppendOrder(g: Graph, order: seq<nat>, node: nat)
    requires AllDistinct(order) && InputsFirst(g, order) && node < |g| && node !in order
    requires forall k | 0 <= k < |Inputs(g, node)| :: Inputs(g, node)[k] in order
    ensures AllDistinct(order + [node]) && InputsFirst(g, order + [node])
  {
    var after := order + [node];
    assert forall i | 0 <= i < |order| :: after[..i] == order[..i];
    assert after[..|order|] == order;
  }

  ghost predicate ReachedByOne(g: Graph, nodes: seq<nat>, n: nat, y: nat)
    requires WellFormed(g) && n <= |nodes| && forall i | 0 <= i < |nodes| :: nodes[i] < |g|
  {
    exists i | 0 <= i < n :: Reaches(g, nodes[i], y)
  }

  /** Exactly the nodes the given ones reach, each once, inputs before users. */
  method FindTopoSort(g: Graph, nodes: seq<nat>) returns (order: seq<nat>)
    requires WellFormed(g) && forall i | 0 <= i < |nodes| :: nodes[i] < |g|
    ensures AllDistinct(order) && InputsFirst(g, order)
    ensures forall y: nat :: y in order <==> ReachedByOne(g, nodes, |nodes|, y)
  {
    hide *;
    var search := new Search(g);
    NothingExplored(g, nodes);
    for n := 0 to |nodes|
      invariant search.g == g && fresh(search) && SearchOk(g, search.visited, search.order)
      invariant Explored(g, nodes, n, search.visited, search.order)
    {
      ghost var visited, before := search.visited, search.order;
      ExploredOpensNothing(g, nodes, n, visited, before);
      search.Visit(nodes[n]);
      ExploredNext(g, nodes, n, visited, before, search.visited, search.order);
    }
    order := search.order;
    CoversReachable(g, order, nodes, search.visited);
  }

  /** After n root calls no call is open, and the order holds what the first n roots reach. */
  ghost predicate Explored(g: Graph, nodes: seq<nat>, n: nat, visited: set<nat>, order: seq<nat>)
    requires WellFormed(g) && n <= |nodes| && forall i | 0 <= i < |nodes| :: nodes[i] < |g|
  {
    && (forall x | x in visited :: x in order)
    && (forall i | 0 <= i < n :: nodes[i] in order)
    && (forall y | y in order :: ReachedByOne(g, nodes, n, y))
  }

  lemma NothingExplored(g: Graph, nodes: seq<nat>)
    requires WellFormed(g) && forall i | 0 <= i < |nodes| :: nodes[i] < |g|
    ensures Explored(g, nodes, 0, {}, [])
  {
    hide Reaches, WellFormed;
  }

  lemma ExploredOpensNothing(g: Graph, nodes: seq<nat>, n: nat, visited: set<nat>, order: seq<nat>)
    requires WellFormed(g) && n < |nodes| && forall i | 0 <= i < |nodes| :: nodes[i] < |g|
    requires Explored(g, nodes, n, visited, order)
    ensures OpenAbove(visited, order, nodes[n])
  {
  }

  lemma ExploredNext(g: Graph, nodes: seq<nat>, n: nat, v0: set<nat>, o0: seq<nat>, v1: set<nat>, o1: seq<nat>)
    requires WellFormed(g) && n < |nodes| && forall i | 0 <= i < |nodes| :: nodes[i] < |g|
    requires Explored(g, nodes, n, v0, o0) && Visited(g, nodes[n], v0, o0, v1, o1)
    ensures Explored(g, nodes, n + 1, v1, o1)
  {
    hide Reaches;
    ReachedByNext(g, nodes, n, o0, o1);
    hide ReachedByOne;
  }

  lemma ReachedByNext(g: Graph, nodes: seq<nat>, n: nat, before: seq<nat>, after: seq<nat>)
    requires WellFormed(g) && n < |nodes| && forall i | 0 <= i < |nodes| :: nodes[i] < |g|
    requires forall y | y in before :: ReachedByOne(g, nodes, n, y)
    requires forall y | y in after :: y in before || Reaches(g, nodes[n], y)
    ensures forall y | y in after :: ReachedByOne(g, nodes, n + 1, y)
  {
    hide Reaches;
    forall y | y in after ensures ReachedByOne(g, nodes, n + 1, y) {
      if y in before {
        var i :| 0 <= i < n && Reaches(g, nodes[i], y);
      }
    }
  }

  lemma CoversReachable(g: Graph, order: seq<nat>, nodes: seq<nat>, visited: set<nat>)
    requires SearchOk(g, visited, order) && forall i | 0 <= i < |nodes| :: nodes[i] < |g|
    requires Explored(g, nodes, |nodes|, visited, order)
    ensures AllDistinct(order) && InputsFirst(g, order)
    ensures forall y: nat :: y in order <==> ReachedByOne(g, nodes, |nodes|, y)
  {
    hide Reaches;
    forall y: nat | ReachedByOne(g, nodes, |nodes|, y) ensures y in order {
      var i :| 0 <= i < |nodes| && Reaches(g, nodes[i], y);
      OrderIsClosed(g, order, nodes[i], y);
    }
  }

  lemma {:induction false} OrderIsClosed(g: Graph, order: seq<nat>, x: nat, y: nat)
    requires WellFormed(g) && InputsFirst(g, order) && x in order && x < |g| && Reaches(g, x, y)
    ensures y in order
    decreases x
  {
    if x != y {
      var j :| 0 <= j < |Inputs(g, x)| && Reaches(g, Inputs(g, x)[j], y);
      var i :| 0 <= i < |order| && order[i] == x;
      assert Inputs(g, x)[j] in order[..i];
      OrderIsClosed(g, order, Inputs(g, x)[j], y);
    }
  }

  // ----- adjoints -----

  /** What u passes to its j-th input per unit of its own adjoint, when that input is x. */
  function Passed(g: Graph, u: nat, x: nat): int -> real
    requires WellFormed(g) && u < |g|
  {
    j => if 0 <= j < |Inputs(g, u)| && Inputs(g, u)[j] == x then Rule(g[u].op, 1.0, Args(g, u))[j] else 0.0
  }

  /** The partial derivative of node u with respect to node x, over all its uses of x. */
  function Partial(g: Graph, u: nat, x: nat): real
    requires WellFormed(g) && u < |g|
  {
    Sum(|Inputs(g, u)|, Passed(g, u, x))
  }

  /** The chain rule: a node's adjoint is what its users pass back, and the seed at the output. */
  function Adjoint(g: Graph, out: nat, seed: real, x: nat): real
    requires WellFormed(g) && x < |g|
    decreases |g| - x, 1
  {
    (if x == out then seed else 0.0) + Sum(|g|, FromUsers(g, out, seed, x))
  }

  function FromUsers(g: Graph, out: nat, seed: real, x: nat): int -> real
    requires WellFormed(g) && x < |g|
    decreases |g| - x, 0
  {
    u => if x < u < |g| then Times(Adjoint(g, out, seed, u), Partial(g, u, x)) else 0.0
  }

  lemma NotAnInput(g: Graph, u: nat, x: nat)
    requires WellFormed(g) && u < |g| && x !in Inputs(g, u)
    ensures Partial(g, u, x) == 0.0
  {
    SumZero(|Inputs(g, u)|, Passed(g, u, x));
  }

  lemma Vanishes(a: real, b: real)
    requires a == 0.0 || b == 0.0
    ensures Times(a, b) == 0.0
  {
  }

  lemma AdjointUnfolds(g: Graph, out: nat, seed: real, x: nat)
    requires WellFormed(g) && x < |g|
    ensures Adjoint(g, out, seed, x) == (if x == out then seed else 0.0) + Sum(|g|, FromUsers(g, out, seed, x))
  {
  }

  lemma FromUser(g: Graph, out: nat, seed: real, x: nat, u: nat)
    requires WellFormed(g) && x < |g|
    ensures FromUsers(g, out, seed, x)(u)
            == if x < u < |g| then Times(Adjoint(g, out, seed, u), Partial(g, u, x)) else 0.0
  {
  }

  lemma {:induction false} UnreachedAdjoint(g: Graph, out: nat, seed: real, x: nat)
    requires WellFormed(g) && x < |g| && out < |g| && !Reaches(g, out, x)
    ensures Adjoint(g, out, seed, x) == 0.0
    decreases |g| - x
  {
    RootReaches(g, out);
    AdjointUnfolds(g, out, seed, x);
    hide Reaches, Partial, Adjoint, FromUsers, Times;
    forall u: nat | u < |g| ensures FromUsers(g, out, seed, x)(u) == 0.0 {
      FromUser(g, out, seed, x, u);
      if x < u {
        if Reaches(g, out, u) {
          if x in Inputs(g, u) {
            var j :| 0 <= j < |Inputs(g, u)| && Inputs(g, u)[j] == x;
            ReachesFurther(g, out, u, j);
          }
          NotAnInput(g, u, x);
        } else {
          UnreachedAdjoint(g, out, seed, u);
        }
        Vanishes(Adjoint(g, out, seed, u), Partial(g, u, x));
      }
    }
    SumZero(|g|, FromUsers(g, out, seed, x));
  }

  // ----- accumulating adjoints -----

  type Contributions = map<nat, seq<real>>

  /** reduce(add, list) on a list that is not empty. */
  function SumList(list: seq<real>): real
    requires list != []
  {
    if |list| == 1 then list[0] else SumList(list[..|list| - 1]) + list[|list| - 1]
  }

  function Listed(lists: Contributions, x: nat): real {
    if x in lists && lists[x] != [] then SumList(lists[x]) else 0.0
  }

  function Appended(lists: Contributions, x: nat, value: real): Contributions {
    lists[x := (if x in lists then lists[x] else []) + [value]]
  }

  lemma AppendedAdds(lists: Contributions, x: nat, value: real, y: nat)
    ensures Listed(Appended(lists, x, value), y) == Listed(lists, y) + if x == y then value else 0.0
  {
    var longer := (if x in lists then lists[x] else []) + [value];
    assert longer[..|longer| - 1] == if x in lists then lists[x] else [];
  }

  /** What u passes back to x. */
  function Share(g: Graph, out: nat, seed: real, u: nat, x: nat): real
    requires WellFormed(g) && u < |g|
  {
    Times(Adjoint(g, out, seed, u), Partial(g, u, x))
  }

  /** What has been collected for x once the nodes in `done` have passed their adjoints back. */
  function Collected(g: Graph, out: nat, seed: real, done: set<nat>, x: nat): int -> real
    requires WellFormed(g) && x < |g|
  {
    u => if 0 <= u < |g| && u in done then Share(g, out, seed, u, x) else 0.0
  }

  /** Every node outside `done` that reaches x through an operation has not been reached itself. */
  ghost predicate UsersDone(g: Graph, out: nat, done: set<nat>, x: nat)
    requires WellFormed(g) && out < |g| && x < |g|
  {
    forall u: nat | u < |g| && x in Inputs(g, u) && Reaches(g, out, u) :: u in done
  }

  lemma SharesOfUsers(g: Graph, out: nat, seed: real, x: nat, u: nat)
    requires WellFormed(g) && out < |g| && x < |g| && u < |g|
    ensures FromUsers(g, out, seed, x)(u) == Share(g, out, seed, u, x)
    ensures !(x in Inputs(g, u) && Reaches(g, out, u)) ==> Share(g, out, seed, u, x) == 0.0
  {
    hide Reaches, Partial, Adjoint, FromUsers, Times;
    if x !in Inputs(g, u) {
      NotAnInput(g, u, x);
    } else {
      var j :| 0 <= j < |Inputs(g, u)| && Inputs(g, u)[j] == x;
      if !Reaches(g, out, u) {
        UnreachedAdjoint(g, out, seed, u);
      }
    }
    if x !in Inputs(g, u) || !Reaches(g, out, u) {
      Vanishes(Adjoint(g, out, seed, u), Partial(g, u, x));
    }
    FromUser(g, out, seed, x, u);
  }

  lemma CollectedIsAdjoint(g: Graph, out: nat, seed: real, done: set<nat>, x: nat)
    requires WellFormed(g) && out < |g| && x < |g| && UsersDone(g, out, done, x)
    ensures (if x == out then seed else 0.0) + Sum(|g|, Collected(g, out, seed, done, x)) == Adjoint(g, out, seed, x)
  {
    hide Reaches, Partial, Adjoint, Share;
    forall u: nat | u < |g| ensures Collected(g, out, seed, done, x)(u) == FromUsers(g, out, seed, x)(u) {
      SharesOfUsers(g, out, seed, x, u);
    }
    SumCongruence(|g|, Collected(g, out, seed, done, x), FromUsers(g, out, seed, x));
    AdjointUnfolds(g, out, seed, x);
  }

  /** Letting one more node pass its adjoint back adds its share, once. */
  lemma CollectedNext(g: Graph, out: nat, seed: real, done: set<nat>, node: nat, x: nat)
    requires WellFormed(g) && x < |g| && node < |g| && node !in done
    ensures Sum(|g|, Collected(g, out, seed, done + {node}, x))
            == Sum(|g|, Collected(g, out, seed, done, x)) + Share(g, out, seed, node, x)
  {
    hide Share, Sum, WellFormed;
    var one := (u: int) => if u == node then Share(g, out, seed, node, x) else 0.0;
    SumSingle(|g|, node, one);
    SumAdd(|g|, Collected(g, out, seed, done, x), one, Collected(g, out, seed, done + {node}, x));
  }

  /** Passing the first n contributions of `node` on to its inputs. */
  function PassedOn(g: Graph, node: nat, grads: seq<real>, n: nat, lists: Contributions): Contributions
    requires node < |g| && n <= |Inputs(g, node)| == |grads|
  {
    if n == 0 then lists
    else Appended(PassedOn(g, node, grads, n - 1, lists), Inputs(g, node)[n - 1], grads[n - 1])
  }

  lemma {:induction false} PassedOnAdds(
    g: Graph, node: nat, adjoint: real, n: nat, lists: Contributions, x: nat)
    requires WellFormed(g) && node < |g| && g[node].Apply? && n <= |Inputs(g, node)|
    ensures Listed(PassedOn(g, node, Rule(g[node].op, adjoint, Args(g, node)), n, lists), x)
            == Listed(lists, x) + adjoint * Sum(n, Passed(g, node, x))
  {
    hide Rule, Args, Listed, Appended;
    if n > 0 {
      var grads := Rule(g[node].op, adjoint, Args(g, node));
      PassedOnAdds(g, node, adjoint, n - 1, lists, x);
      AppendedAdds(PassedOn(g, node, grads, n - 1, lists), Inputs(g, node)[n - 1], grads[n - 1], x);
      RuleIsLinear(g[node].op, adjoint, Args(g, node), n - 1);
      FactorOut(adjoint, Sum(n - 1, Passed(g, node, x)), Passed(g, node, x)(n - 1));
    } else {
      assert Sum(0, Passed(g, node, x)) == 0.0;
    }
  }

  lemma FactorOut(a: real, b: real, c: real)
    ensures a * (b + c) == a * b + a * c
  {
  }

  lemma {:induction false} PassedOnKeys(g: Graph, node: nat, grads: seq<real>, n: nat, lists: Contributions)
    requires node < |g| && n <= |Inputs(g, node)| == |grads|
    ensures forall x :: x in PassedOn(g, node, grads, n, lists) <==> x in lists || x in Inputs(g, node)[..n]
    ensures (forall x | x in lists :: lists[x] != []) ==>
              forall x | x in PassedOn(g, node, grads, n, lists) :: PassedOn(g, node, grads, n, lists)[x] != []
  {
    if n > 0 {
      PassedOnKeys(g, node, grads, n - 1, lists);
      assert Inputs(g, node)[..n] == Inputs(g, node)[..n - 1] + [Inputs(g, node)[n - 1]];
    }
  }

  /** The state of the backward sweep when exactly the nodes in `done` have been processed. */
  ghost predicate Swept(g: Graph, out: nat, seed: real, done: set<nat>, lists: Contributions)
    requires WellFormed(g) && out < |g|
  {
    && (forall x | x in lists :: x < |g| && lists[x] != [])
    && (forall x: nat | x < |g| ::
          Listed(lists, x) == (if x == out then seed else 0.0) + Sum(|g|, Collected(g, out, seed, done, x)))
    && out in lists
    && (forall u, x | u in done && u < |g| && x in Inputs(g, u) :: x in lists)
  }

  lemma SweepStarts(g: Graph, out: nat, seed: real)
    requires WellFormed(g) && out < |g|
    ensures Swept(g, out, seed, {}, map[out := [seed]])
  {
    hide Share;
    forall x: nat | x < |g| ensures Sum(|g|, Collected(g, out, seed, {}, x)) == 0.0 {
      SumZero(|g|, Collected(g, out, seed, {}, x));
    }
  }

  /** Once all its reached users are done, a node has its whole adjoint: the sum of its list. */
  lemma SweepFinds(g: Graph, out: nat, seed: real, done: set<nat>, lists: Contributions, node: nat)
    requires WellFormed(g) && out < |g| && node < |g| && Swept(g, out, seed, done, lists)
    requires Reaches(g, out, node) && UsersDone(g, out, done, node)
    ensures node in lists && SumList(lists[node]) == Adjoint(g, out, seed, node)
  {
    CollectedIsAdjoint(g, out, seed, done, node);
    hide Adjoint, Reaches, Collected, Sum;
    if node != out {
      var u, j := HasUser(g, out, node);
      assert Inputs(g, u)[j] in Inputs(g, u);
    }
  }

  lemma PassedOnShares(g: Graph, out: nat, seed: real, node: nat, lists: Contributions, x: nat)
    requires WellFormed(g) && node < |g| && x < |g|
    ensures g[node].Apply? ==>
              var grads := Rule(g[node].op, Adjoint(g, out, seed, node), Args(g, node));
              Listed(PassedOn(g, node, grads, |grads|, lists), x) == Listed(lists, x) + Share(g, out, seed, node, x)
    ensures g[node].Leaf? ==> Share(g, out, seed, node, x) == 0.0
  {
    hide PassedOn, Adjoint, Rule, Args, Passed, Listed, Sum;
    if g[node].Apply? {
      PassedOnAdds(g, node, Adjoint(g, out, seed, node), |Inputs(g, node)|, lists, x);
    } else {
      NotAnInput(g, node, x);
    }
  }

  lemma SweepNext(g: Graph, out: nat, seed: real, done: set<nat>, lists: Contributions, node: nat)
    requires WellFormed(g) && out < |g| && node < |g| && node !in done && Swept(g, out, seed, done, lists)
    ensures g[node].Leaf? ==> Swept(g, out, seed, done + {node}, lists)
    ensures g[node].Apply? ==>
              var grads := Rule(g[node].op, Adjoint(g, out, seed, node), Args(g, node));
              Swept(g, out, seed, done + {node}, PassedOn(g, node, grads, |grads|, lists))
  {
    hide PassedOn, Partial, Adjoint, Collected, Rule, Args, Sum, Listed, Share;
    forall x: nat | x < |g|
      ensures Sum(|g|, Collected(g, out, seed, done + {node}, x))
              == Sum(|g|, Collected(g, out, seed, done, x)) + Share(g, out, seed, node, x)
    {
      CollectedNext(g, out, seed, done, node, x);
    }
    forall x: nat | x < |g|
      ensures g[node].Apply? ==>
                var grads := Rule(g[node].op, Adjoint(g, out, seed, node), Args(g, node));
                Listed(PassedOn(g, node, grads, |grads|, lists), x) == Listed(lists, x) + Share(g, out, seed, node, x)
      ensures g[node].Leaf? ==> Share(g, out, seed, node, x) == 0.0
    {
      PassedOnShares(g, out, seed, node, lists, x);
    }
    if g[node].Apply? {
      var grads := Rule(g[node].op, Adjoint(g, out, seed, node), Args(g, node));
      PassedOnKeys(g, node, grads, |grads|, lists);
      assert Inputs(g, node)[..|grads|] == Inputs(g, node);
    }
  }

  // ----- the backward pass -----

  /** Only reached leaves that require a gradient get one; it replaces what was there. */
  predicate Graded(g: Graph, out: nat, x: nat)
    requires WellFormed(g) && out < |g|
  {
    x < |g| && g[x].Leaf? && g[x].requiresGrad && Reaches(g, out, x)
  }

  class Tape {
    const g: Graph
    var grad: map<nat, real>

    constructor (g: Graph)
      ensures this.g == g && grad == map[]
    {
      this.g, grad := g, map[];
    }

    method SumNodeList(list: seq<real>) returns (total: real)
      requires list != []
      ensures total == SumList(list)
    {
      total := list[0];
      for i := 1 to |list|
        invariant total == SumList(list[..i])
      {
        assert list[..i + 1][..i] == list[..i];
        total := total + list[i];
      }
      assert list[..|list|] == list;
    }

    method PassOn(node: nat, grads: seq<real>, lists: Contributions) returns (after: Contributions)
      requires node < |g| && |grads| == |Inputs(g, node)|
      ensures after == PassedOn(g, node, grads, |grads|, lists)
    {
      after := lists;
      for i := 0 to |grads|
        invariant after == PassedOn(g, node, grads, i, lists)
      {
        var input := Inputs(g, node)[i];
        if input !in after {
          after := after[input := []];
        }
        after := after[input := after[input] + [grads[i]]];
        assert after == Appended(PassedOn(g, node, grads, i, lists), input, grads[i]);
      }
    }

    /** One node of the sweep: sum what its users passed back, keep it, and pass it on. */
    method Process(node: nat, lists: Contributions, ghost out: nat, ghost seed: real, ghost done: set<nat>)
      returns (after: Contributions)
      requires WellFormed(g) && out < |g| && node < |g| && node !in done && Swept(g, out, seed, done, lists)
      requires Reaches(g, out, node) && UsersDone(g, out, done, node)
      modifies this`grad
      ensures Swept(g, out, seed, done + {node}, after)
      ensures grad == if g[node].Leaf? && g[node].requiresGrad then old(grad)[node := Adjoint(g, out, seed, node)]
                      else old(grad)
    {
      SweepFinds(g, out, seed, done, lists, node);
      SweepNext(g, out, seed, done, lists, node);
      hide Swept, Adjoint, Reaches, UsersDone, PassedOn, Rule, Args;
      after := lists;
      if node !in lists || lists[node] == [] {
        assert false;
      } else {
        var adjoint := SumNodeList(lists[node]);
        if g[node].Leaf? && g[node].requiresGrad {
          grad := grad[node := adjoint];
        }
        if g[node].Apply? {
          after := PassOn(node, Rule(g[node].op, adjoint, Args(g, node)), lists);
        }
      }
    }

    method ComputeGradientOfVariables(out: nat, outGrad: real)
      requires WellFormed(g) && out < |g|
      modifies this`grad
      ensures Differentiated(g, out, outGrad, old(grad), grad)
    {
      hide *;
      var order := FindTopoSort(g, [out]);
      SortedFromOne(g, out, order);
      var lists: Contributions := map[out := [outGrad]];
      SweepStarts(g, out, outGrad);
      var k: nat := |order|;
      ghost var done: set<nat> := {};
      NothingKept(g, out, outGrad, order, grad);
      while k > 0
        invariant k <= |order| && done == Tail(order, k)
        invariant Swept(g, out, outGrad, done, lists)
        invariant Kept(g, out, outGrad, done, old(grad), grad)
      {
        k := k - 1;
        var node := order[k];
        TailStep(g, out, order, k);
        ghost var before := grad;
        lists := Process(node, lists, out, outGrad, done);
        KeptNext(g, out, outGrad, done, node, old(grad), before, grad);
        done := done + {node};
      }
      assert k == 0;
      AllKept(g, out, outGrad, order, old(grad), grad);
    }
  }

  /** The gradients after the backward pass; nodes the output does not reach keep what they had. */
  ghost predicate Differentiated(g: Graph, out: nat, seed: real, before: map<nat, real>, after: map<nat, real>)
    requires WellFormed(g) && out < |g|
  {
    && (forall x: nat :: x in after <==> x in before || Graded(g, out, x))
    && (forall x: nat | x in after ::
          after[x] == if Graded(g, out, x) then Adjoint(g, out, seed, x) else before[x])
  }

  ghost predicate Sorted(g: Graph, out: nat, order: seq<nat>)
    requires WellFormed(g) && out < |g|
  {
    AllDistinct(order) && InputsFirst(g, order) && forall y: nat :: y in order <==> Reaches(g, out, y)
  }

  lemma SortedFromOne(g: Graph, out: nat, order: seq<nat>)
    requires WellFormed(g) && out < |g| && AllDistinct(order) && InputsFirst(g, order)
    requires forall y: nat :: y in order <==> ReachedByOne(g, [out], 1, y)
    ensures Sorted(g, out, order)
  {
    hide Reaches;
    forall y: nat ensures ReachedByOne(g, [out], 1, y) <==> Reaches(g, out, y) {
      assert [out][0] == out;
    }
  }

  function Tail(order: seq<nat>, k: nat): set<nat>
    requires k <= |order|
  {
    set x | x in order[k..]
  }

  /** Going down the order, every reached user of a node has been processed before it. */
  lemma TailStep(g: Graph, out: nat, order: seq<nat>, k: nat)
    requires WellFormed(g) && out < |g| && Sorted(g, out, order) && k < |order|
    ensures order[k] < |g| && Reaches(g, out, order[k]) && order[k] !in Tail(order, k + 1)
    ensures Tail(order, k) == Tail(order, k + 1) + {order[k]}
    ensures UsersDone(g, out, Tail(order, k + 1), order[k])
  {
    hide Reaches;
    var x := order[k];
    assert order[k..] == [x] + order[k + 1..];
    forall u: nat | u < |g| && x in Inputs(g, u) && Reaches(g, out, u) ensures u in Tail(order, k + 1) {
      var i :| 0 <= i < |order| && order[i] == u;
      assert x in order[..i];
      var j :| 0 <= j < i && order[j] == x;
      assert j == k;
      assert order[k + 1..][i - k - 1] == u;
    }
  }

  ghost predicate Kept(g: Graph, out: nat, seed: real, done: set<nat>, before: map<nat, real>, now: map<nat, real>)
    requires WellFormed(g) && out < |g|
  {
    && (forall x: nat :: x in now <==> x in before || (x in done && Graded(g, out, x)))
    && (forall x: nat | x in now ::
          now[x] == if x in done && Graded(g, out, x) then Adjoint(g, out, seed, x) else before[x])
  }

  lemma NothingKept(g: Graph, out: nat, seed: real, order: seq<nat>, grad: map<nat, real>)
    requires WellFormed(g) && out < |g|
    ensures Tail(order, |order|) == {} && Kept(g, out, seed, {}, grad, grad)
  {
  }

  lemma KeptNext(
    g: Graph, out: nat, seed: real, done: set<nat>, node: nat,
    start: map<nat, real>, before: map<nat, real>, after: map<nat, real>)
    requires WellFormed(g) && out < |g| && node < |g| && Reaches(g, out, node)
    requires Kept(g, out, seed, done, start, before)
    requires after == if g[node].Leaf? && g[node].requiresGrad then before[node := Adjoint(g, out, seed, node)] else before
    ensures Kept(g, out, seed, done + {node}, start, after)
  {
    hide Reaches, Adjoint;
  }

  lemma AllKept(g: Graph, out: nat, seed: real, order: seq<nat>, before: map<nat, real>, after: map<nat, real>)
    requires WellFormed(g) && out < |g| && Sorted(g, out, order)
    requires Kept(g, out, seed, Tail(order, 0), before, after)
    ensures Differentiated(g, out, seed, before, after)
  {
    hide Reaches, Adjoint;
    assert order[0..] == order;
    forall x: nat ensures x in Tail(order, 0) <==> Reaches(g, out, x) {
    }
  }
}
