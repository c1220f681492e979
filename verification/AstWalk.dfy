/** The rewrite as it is carried out: a breadth-first walk over a module's syntax
    nodes that inserts a clause in place into each `try` that has clauses. */
module AstWalk {
  import opened Basics
  import opened OperationInterrupt

  // Nodes refer to their child statements by position in the module's node table.
  datatype Clause =
    | Source(filter: Store -> Eval<Exc -> bool>, bind: (Store, Exc) -> Store, unbind: Store -> Store, body: nat)
    | Inserted(body: nat)

  datatype Node =
    | Leaf(stmt: Stmt)
    | SequenceNode(first: nat, second: nat)
    | IfNode(test: Store -> Eval<bool>, thn: nat, els: nat)
    | WhileNode(test: Store -> Eval<bool>, body: nat, orelse: nat)
    | TryNode(body: nat, clauses: seq<Clause>, orelse: nat, finalizer: nat)
    | WithNode(enter: Store -> Eval<()>, body: nat, exit: (Store, Option<Exc>) -> Eval<bool>)

  function Children(n: Node): seq<nat> {
    match n
    case Leaf(_) => []
    case SequenceNode(a, b) => [a, b]
    case IfNode(_, a, b) => [a, b]
    case WhileNode(_, a, b) => [a, b]
    case TryNode(b, clauses, e, f) => [b] + seq(|clauses|, (k: nat) requires k < |clauses| => clauses[k].body) + [e, f]
    case WithNode(_, b, _) => [b]
  }

  ghost predicate IsLeaf(s: Stmt) {
    !s.Sequence? && !s.If? && !s.While? && !s.Try? && !s.With?
  }

  // A child of node `i` comes later in a table of `size` nodes.
  predicate Later(i: nat, size: nat, c: nat) {
    i < c < size
  }

  ghost predicate NodeOrdered(n: Node, i: nat, size: nat) {
    match n
    case Leaf(s) => IsLeaf(s)
    case SequenceNode(a, b) => Later(i, size, a) && Later(i, size, b)
    case IfNode(_, a, b) => Later(i, size, a) && Later(i, size, b)
    case WhileNode(_, b, e) => Later(i, size, b) && Later(i, size, e)
    case TryNode(b, clauses, e, f) =>
      && Later(i, size, b) && Later(i, size, e) && Later(i, size, f)
      && forall k | 0 <= k < |clauses| :: Later(i, size, clauses[k].body)
    case WithNode(_, b, _) => Later(i, size, b)
  }

  // The table denotes finite statements.
  ghost predicate Ordered(nodes: seq<Node>) {
    forall i | 0 <= i < |nodes| :: NodeOrdered(nodes[i], i, |nodes|)
  }

  ghost predicate SourceOnly(n: Node) {
    n.TryNode? ==> forall k | 0 <= k < |n.clauses| :: n.clauses[k].Source?
  }

  ghost predicate Parsed(nodes: seq<Node>) {
    Ordered(nodes) && forall i | 0 <= i < |nodes| :: SourceOnly(nodes[i])
  }

  // No node has two parents, and no root has one: what a parser builds.
  ghost predicate Tree(nodes: seq<Node>, roots: seq<nat>) {
    && Parsed(nodes)
    && (forall i, j, a, b | 0 <= i < |nodes| && 0 <= j < |nodes| && 0 <= a < |Children(nodes[i])|
        && 0 <= b < |Children(nodes[j])| ::
          Children(nodes[i])[a] == Children(nodes[j])[b] ==> i == j && a == b)
    && (forall k | 0 <= k < |roots| :: roots[k] < |nodes|)
    && (forall k, l | 0 <= k < l < |roots| :: roots[k] != roots[l])
    && (forall i, k | 0 <= i < |nodes| && 0 <= k < |roots| :: roots[k] !in Children(nodes[i]))
  }

  ghost function Unfold(nodes: seq<Node>, i: nat): Stmt
    requires i < |nodes| && Ordered(nodes)
    decreases |nodes| - i, 1, 0
  {
    assert NodeOrdered(nodes[i], i, |nodes|);
    match nodes[i]
    case Leaf(s) => s
    case SequenceNode(a, b) => Sequence(Unfold(nodes, a), Unfold(nodes, b))
    case IfNode(t, a, b) => If(t, Unfold(nodes, a), Unfold(nodes, b))
    case WhileNode(t, b, e) => While(t, Unfold(nodes, b), Unfold(nodes, e))
    case TryNode(b, clauses, e, f) => Try(Unfold(nodes, b), UnfoldClauses(nodes, i, 0), Unfold(nodes, e),
        Unfold(nodes, f))
    case WithNode(enter, b, exit) => With(enter, Unfold(nodes, b), exit)
  }

  // The clauses of node `i` from number `k` on.
  ghost function UnfoldClauses(nodes: seq<Node>, i: nat, k: nat): Handlers
    requires i < |nodes| && Ordered(nodes) && nodes[i].TryNode? && k <= |nodes[i].clauses|
    decreases |nodes| - i, 0, |nodes[i].clauses| - k
  {
    if k == |nodes[i].clauses| then NoHandlers else
    assert NodeOrdered(nodes[i], i, |nodes|);
    assert Later(i, |nodes|, nodes[i].clauses[k].body);
    var body := Unfold(nodes, nodes[i].clauses[k].body);
    var rest := UnfoldClauses(nodes, i, k + 1);
    match nodes[i].clauses[k]
    case Source(filter, bind, unbind, _) => Handler(Submitted, filter, bind, unbind, body, rest)
    case Inserted(_) => InterruptClause(body, rest)
  }

  // `now` is `was` with the clause inserted, its body being a bare `raise` at `at`.
  ghost predicate Guarded(was: Node, now: Node, nodes: seq<Node>, from: nat) {
    if was.TryNode? && was.clauses != [] then
      exists at | from <= at < |nodes| ::
          nodes[at] == Leaf(Reraise) && now == was.(clauses := [Inserted(at)] + was.clauses)
    else now == was
  }

  ghost predicate Progress(was: seq<Node>, nodes: seq<Node>, done: set<nat>) {
    && |was| <= |nodes|
    && (forall i | |was| <= i < |nodes| :: nodes[i] == Leaf(Reraise))
    && (forall i: nat | i < |was| && i in done :: Guarded(was[i], nodes[i], nodes, |was|))
    && (forall i: nat | i < |was| && i !in done :: nodes[i] == was[i])
  }

  lemma ProgressOrdered(was: seq<Node>, nodes: seq<Node>, done: set<nat>)
    requires Ordered(was) && Progress(was, nodes, done)
    ensures Ordered(nodes)
  {
    forall i | 0 <= i < |nodes|
      ensures NodeOrdered(nodes[i], i, |nodes|)
    {
      if i < |was| {
        assert NodeOrdered(was[i], i, |was|);
        if i in done { assert Guarded(was[i], nodes[i], nodes, |was|); }
      }
    }
  }

  lemma FieldsAreChildren(n: Node)
    ensures match n
            case Leaf(_) => true
            case SequenceNode(a, b) => a in Children(n) && b in Children(n)
            case IfNode(_, a, b) => a in Children(n) && b in Children(n)
            case WhileNode(_, b, e) => b in Children(n) && e in Children(n)
            case TryNode(b, clauses, e, f) => b in Children(n) && e in Children(n) && f in Children(n)
            case WithNode(_, b, _) => b in Children(n)
    ensures n.TryNode? ==> forall k | 0 <= k < |n.clauses| :: n.clauses[k].body in Children(n)
  {
    var kids := Children(n);
    if n.TryNode? {
      var m := |n.clauses|;
      assert kids[0] == n.body && kids[m + 1] == n.orelse && kids[m + 2] == n.finalizer;
      forall k | 0 <= k < m ensures n.clauses[k].body in kids { assert kids[k + 1] == n.clauses[k].body; }
    } else if |kids| > 0 {
      assert kids[0] in kids && kids[|kids| - 1] in kids;
    }
  }

  lemma ChildrenInTable(nodes: seq<Node>, i: nat)
    requires Ordered(nodes) && i < |nodes|
    ensures forall a | 0 <= a < |Children(nodes[i])| :: i < Children(nodes[i])[a] < |nodes|
  {
    assert NodeOrdered(nodes[i], i, |nodes|);
    forall a | 0 <= a < |Children(nodes[i])|
      ensures Later(i, |nodes|, Children(nodes[i])[a])
    {
      if nodes[i].TryNode? && 1 <= a <= |nodes[i].clauses| { assert Later(i, |nodes|, nodes[i].clauses[a - 1].body); }
    }
  }

  ghost predicate Closed(was: seq<Node>, done: set<nat>) {
    forall i: nat, c | i < |was| && i in done && c in Children(was[i]) :: c in done
  }

  ghost predicate Walked(was: seq<Node>, nodes: seq<Node>, done: set<nat>) {
    Parsed(was) && Ordered(nodes) && Progress(was, nodes, done) && Closed(was, done)
  }

  // One step of `Unfold`, and of `UnfoldClauses` at a `try`.
  lemma UnfoldOnce(nodes: seq<Node>, i: nat)
    requires i < |nodes| && Ordered(nodes)
    ensures NodeOrdered(nodes[i], i, |nodes|)
    ensures Unfold(nodes, i) == match nodes[i]
            case Leaf(s) => s
            case SequenceNode(a, b) => Sequence(Unfold(nodes, a), Unfold(nodes, b))
            case IfNode(t, a, b) => If(t, Unfold(nodes, a), Unfold(nodes, b))
            case WhileNode(t, b, e) => While(t, Unfold(nodes, b), Unfold(nodes, e))
            case TryNode(b, _, e, f) => Try(Unfold(nodes, b), UnfoldClauses(nodes, i, 0), Unfold(nodes, e),
                Unfold(nodes, f))
            case WithNode(enter, b, exit) => With(enter, Unfold(nodes, b), exit)
    ensures nodes[i].TryNode? ==> (UnfoldClauses(nodes, i, 0).NoHandlers? <==> nodes[i].clauses == [])
  {
    assert NodeOrdered(nodes[i], i, |nodes|);
  }

  // Walking a node changes at most its first clause.
  lemma SameElsewhere(was: seq<Node>, nodes: seq<Node>, done: set<nat>, i: nat)
    requires Walked(was, nodes, done) && i < |was| && i in done
    ensures i < |nodes| && Ordered(was) && Ordered(nodes) && NodeOrdered(was[i], i, |was|)
    ensures forall c | c in Children(was[i]) :: c in done
    ensures was[i].TryNode? ==> i < was[i].body < |was| && i < was[i].orelse < |was| && i < was[i].finalizer < |was|
    ensures was[i].TryNode? && was[i].clauses != [] ==>
              nodes[i].TryNode? && nodes[i].body == was[i].body && nodes[i].orelse == was[i].orelse
                  && nodes[i].finalizer == was[i].finalizer
    ensures !was[i].TryNode? || was[i].clauses == [] ==> nodes[i] == was[i]
  {
    assert Guarded(was[i], nodes[i], nodes, |was|);
  }

  lemma {:induction false} UnfoldProtected(was: seq<Node>, nodes: seq<Node>, done: set<nat>, i: nat)
    requires Walked(was, nodes, done)
    requires i < |was| && i in done
    ensures Unfold(nodes, i) == Protect(Unfold(was, i))
    decreases |was| - i, 1, 0
  {
    FieldsAreChildren(was[i]);
    SameElsewhere(was, nodes, done, i);
    hide Walked, Ordered, Children, Unfold, UnfoldClauses, ProtectClauses;
    UnfoldOnce(was, i);
    UnfoldOnce(nodes, i);
    match was[i]
    case Leaf(_) =>
    case SequenceNode(a, b) => UnfoldProtected(was, nodes, done, a); UnfoldProtected(was, nodes, done, b);
    case IfNode(_, a, b) => UnfoldProtected(was, nodes, done, a); UnfoldProtected(was, nodes, done, b);
    case WhileNode(_, b, e) => UnfoldProtected(was, nodes, done, b); UnfoldProtected(was, nodes, done, e);
    case TryNode(_, _, _, _) => TryProtected(was, nodes, done, i);
    case WithNode(_, b, _) => UnfoldProtected(was, nodes, done, b);
  }

  lemma TryFields(was: seq<Node>, nodes: seq<Node>, done: set<nat>, i: nat)
    requires Walked(was, nodes, done) && i < |was| && i in done && was[i].TryNode?
    ensures i < |nodes| && Ordered(was) && Ordered(nodes) && nodes[i].TryNode?
    ensures var t := was[i];
            && i < t.body < |was| && i < t.orelse < |was| && i < t.finalizer < |was|
            && t.body in done && t.orelse in done && t.finalizer in done
            && nodes[i].body == t.body && nodes[i].orelse == t.orelse && nodes[i].finalizer == t.finalizer
            && (t.clauses == [] ==> nodes[i] == t)
  {
    FieldsAreChildren(was[i]);
    SameElsewhere(was, nodes, done, i);
  }

  lemma {:induction false} TryProtected(was: seq<Node>, nodes: seq<Node>, done: set<nat>, i: nat)
    requires Walked(was, nodes, done)
    requires i < |was| && i in done && was[i].TryNode?
    ensures Unfold(nodes, i) == Protect(Unfold(was, i))
    decreases |was| - i, 0, |was[i].clauses| + 1
  {
    TryFields(was, nodes, done, i);
    hide Walked, Ordered, NodeOrdered, Children, Unfold, UnfoldClauses, Reraiser, ProtectClauses;
    UnfoldOnce(was, i);
    UnfoldOnce(nodes, i);
    UnfoldProtected(was, nodes, done, was[i].body);
    UnfoldProtected(was, nodes, done, was[i].orelse);
    UnfoldProtected(was, nodes, done, was[i].finalizer);
    if was[i].clauses != [] {
      ClausesProtected(was, nodes, done, i, 0);
      InsertedFirst(was, nodes, done, i);
    }
  }

  lemma InsertedFirst(was: seq<Node>, nodes: seq<Node>, done: set<nat>, i: nat)
    requires Walked(was, nodes, done)
    requires i < |was| && i in done && was[i].TryNode? && was[i].clauses != []
    ensures nodes[i].TryNode? && |nodes[i].clauses| == |was[i].clauses| + 1
    ensures UnfoldClauses(nodes, i, 0) == Reraiser(UnfoldClauses(nodes, i, 1))
  {
    var at :| |was| <= at < |nodes| && nodes[at] == Leaf(Reraise)
        && nodes[i] == was[i].(clauses := [Inserted(at)] + was[i].clauses);
    assert Unfold(nodes, at) == Reraise;
  }

  lemma {:induction false} ClausesProtected(was: seq<Node>, nodes: seq<Node>, done: set<nat>, i: nat, k: nat)
    requires Walked(was, nodes, done)
    requires i < |was| && i in done
    requires was[i].TryNode? && k <= |was[i].clauses| && was[i].clauses != []
    ensures nodes[i].TryNode? && |nodes[i].clauses| == |was[i].clauses| + 1
    ensures UnfoldClauses(nodes, i, k + 1) == ProtectClauses(UnfoldClauses(was, i, k))
    decreases |was| - i, 0, |was[i].clauses| - k
  {
    assert NodeOrdered(was[i], i, |was|) && Guarded(was[i], nodes[i], nodes, |was|);
    if k < |was[i].clauses| {
      FieldsAreChildren(was[i]);
      assert Later(i, |was|, was[i].clauses[k].body);
      assert SourceOnly(was[i]);
      UnfoldProtected(was, nodes, done, was[i].clauses[k].body);
      ClausesProtected(was, nodes, done, i, k + 1);
    }
  }

  // What the walk's queue holds once the nodes of `done` have been handed out: each
  // entry once and not handed out before, and everything still owed a visit.
  ghost predicate Fresh(size: nat, done: set<nat>, todo: seq<nat>) {
    && (forall k | 0 <= k < |todo| :: todo[k] < size && todo[k] !in done)
    && (forall k, l | 0 <= k < l < |todo| :: todo[k] != todo[l])
  }

  ghost predicate Covers(was: seq<Node>, roots: seq<nat>, done: set<nat>, todo: seq<nat>) {
    && (forall r | r in roots :: r in done || r in todo)
    && (forall i: nat, c | i in done && i < |was| && c in Children(was[i]) :: c in done || c in todo)
  }

  ghost predicate Reached(was: seq<Node>, roots: seq<nat>, done: set<nat>, x: nat) {
    x in roots || exists i: nat :: i < |was| && i in done && x in Children(was[i])
  }

  ghost predicate AllReached(was: seq<Node>, roots: seq<nat>, done: set<nat>, todo: seq<nat>) {
    forall x: nat | x in done || x in todo :: Reached(was, roots, done, x)
  }

  ghost predicate Queued(was: seq<Node>, roots: seq<nat>, done: set<nat>, todo: seq<nat>) {
    Fresh(|was|, done, todo) && Covers(was, roots, done, todo) && AllReached(was, roots, done, todo)
  }

  // A child of a node not yet handed out is new to the walk.
  lemma ChildIsNew(was: seq<Node>, roots: seq<nat>, done: set<nat>, i: nat, a: nat)
    requires Tree(was, roots) && i < |was| && i !in done && a < |Children(was[i])|
    ensures !Reached(was, roots, done, Children(was[i])[a])
  {
    var x := Children(was[i])[a];
    assert x in Children(was[i]);
    forall j: nat, b | j < |was| && j in done && 0 <= b < |Children(was[j])|
      ensures Children(was[j])[b] != x
    {
    }
  }

  lemma FreshNext(size: nat, done: set<nat>, todo: seq<nat>, kids: seq<nat>)
    requires Fresh(size, done, todo) && todo != []
    requires forall a | 0 <= a < |kids| :: kids[a] < size && kids[a] !in done && kids[a] !in todo
    requires forall a, b | 0 <= a < b < |kids| :: kids[a] != kids[b]
    ensures Fresh(size, done + {todo[0]}, todo[1..] + kids)
  {
    var todo' := todo[1..] + kids;
    assert forall k | 0 <= k < |todo'| :: todo'[k] == if k < |todo| - 1 then todo[k + 1] else kids[k - (|todo| - 1)];
  }

  lemma CoversNext(was: seq<Node>, roots: seq<nat>, done: set<nat>, todo: seq<nat>)
    requires Covers(was, roots, done, todo) && todo != [] && todo[0] < |was|
    ensures Covers(was, roots, done + {todo[0]}, todo[1..] + Children(was[todo[0]]))
  {
    assert forall x | x in todo :: x == todo[0] || x in todo[1..];
  }

  lemma ReachedNext(was: seq<Node>, roots: seq<nat>, done: set<nat>, todo: seq<nat>)
    requires AllReached(was, roots, done, todo) && todo != [] && todo[0] < |was|
    ensures AllReached(was, roots, done + {todo[0]}, todo[1..] + Children(was[todo[0]]))
  {
    var i, kids := todo[0], Children(was[todo[0]]);
    forall x: nat | x in done + {i} || x in todo[1..] + kids
      ensures Reached(was, roots, done + {i}, x)
    {
      if x !in kids { assert x in done || x in todo; assert Reached(was, roots, done, x); }
    }
  }

  lemma QueuedNext(was: seq<Node>, roots: seq<nat>, done: set<nat>, todo: seq<nat>)
    requires Tree(was, roots) && Queued(was, roots, done, todo) && todo != []
    ensures todo[0] < |was|
    ensures Queued(was, roots, done + {todo[0]}, todo[1..] + Children(was[todo[0]]))
  {
    var i, kids := todo[0], Children(was[todo[0]]);
    ChildrenInTable(was, i);
    forall a | 0 <= a < |kids|
      ensures kids[a] !in done && kids[a] !in todo
    {
      ChildIsNew(was, roots, done, i, a);
    }
    FreshNext(|was|, done, todo, kids);
    CoversNext(was, roots, done, todo);
    ReachedNext(was, roots, done, todo);
  }

  function WithClause(nodes: seq<Node>, i: nat): seq<Node>
    requires i < |nodes| && nodes[i].TryNode?
  {
    nodes[i := nodes[i].(clauses := [Inserted(|nodes|)] + nodes[i].clauses)] + [Leaf(Reraise)]
  }

  lemma ProgressNext(was: seq<Node>, nodes: seq<Node>, done: set<nat>, i: nat)
    requires Progress(was, nodes, done) && i < |was| && i !in done
    ensures Progress(was, if was[i].TryNode? && was[i].clauses != [] then WithClause(nodes, i) else nodes, done + {i})
  {
    var nodes' := if was[i].TryNode? && was[i].clauses != [] then WithClause(nodes, i) else nodes;
    forall j: nat | j < |was| && j in done + {i}
      ensures Guarded(was[j], nodes'[j], nodes', |was|)
    {
      if j != i {
        assert Guarded(was[j], nodes[j], nodes, |was|);
      } else if nodes' != nodes {
        assert nodes'[|nodes|] == Leaf(Reraise);
      }
    }
  }

  ghost predicate Walking(was: seq<Node>, roots: seq<nat>, nodes: seq<Node>, done: set<nat>, todo: seq<nat>) {
    Progress(was, nodes, done) && Queued(was, roots, done, todo)
  }

  lemma WalkStep(was: seq<Node>, roots: seq<nat>, nodes: seq<Node>, done: set<nat>, todo: seq<nat>)
    requires Tree(was, roots) && Walking(was, roots, nodes, done, todo) && todo != []
    ensures todo[0] < |was| <= |nodes| && todo[0] !in done && nodes[todo[0]] == was[todo[0]]
    ensures var i := todo[0];
            Walking(was, roots, if nodes[i].TryNode? && nodes[i].clauses != [] then WithClause(nodes, i) else nodes,
                    done + {i}, todo[1..] + Children(nodes[i]))
  {
    QueuedNext(was, roots, done, todo);
    ProgressNext(was, nodes, done, todo[0]);
  }

  lemma WalkDone(was: seq<Node>, roots: seq<nat>, nodes: seq<Node>, done: set<nat>)
    requires Tree(was, roots) && Walking(was, roots, nodes, done, [])
    ensures Ordered(nodes)
    ensures forall r | r in roots :: r < |was| <= |nodes| && Unfold(nodes, r) == Protect(Unfold(was, r))
  {
    ProgressOrdered(was, nodes, done);
    forall r | r in roots
      ensures r < |was| && Unfold(nodes, r) == Protect(Unfold(was, r))
    {
      UnfoldProtected(was, nodes, done, r);
    }
  }

  function Indices(n: nat): (r: set<nat>)
    ensures forall i: nat :: i in r <==> i < n
  {
    if n == 0 then {} else Indices(n - 1) + {n - 1}
  }

  class Module {
    var nodes: seq<Node>
    const roots: seq<nat>

    constructor (nodes: seq<Node>, roots: seq<nat>)
      ensures this.nodes == nodes && this.roots == roots
    {
      this.nodes, this.roots := nodes, roots;
    }

    // Inserts the clause at index 0 of the list node `i` holds.
    method InsertClause(i: nat)
      requires i < |nodes| && nodes[i].TryNode?
      modifies this
      ensures nodes == WithClause(old(nodes), i)
    {
      var at := |nodes|;
      nodes := nodes + [Leaf(Reraise)];
      nodes := nodes[i := nodes[i].(clauses := [Inserted(at)] + nodes[i].clauses)];
    }

    /** Afterwards each root denotes the protected form of what it denoted. A node's
        children are queued before the node changes, so no inserted clause is walked. */
    method ProtectOperationInterrupt()
      requires Tree(nodes, roots)
      modifies this
      ensures Ordered(nodes) && forall r | r in roots :: r < |nodes|
      ensures forall r | r in roots :: Unfold(nodes, r) == Protect(old(Unfold(nodes, r)))
    {
      hide Unfold, Protect, Ordered;
      ghost var was := nodes;
      ghost var done: set<nat> := {};
      ghost var left := Indices(|nodes|);
      var todo := roots;
      while todo != []
        invariant Walking(was, roots, nodes, done, todo)
        invariant left == Indices(|was|) - done
        decreases left
      {
        WalkStep(was, roots, nodes, done, todo);
        var i := todo[0];
        todo := todo[1..] + Children(nodes[i]);
        if nodes[i].TryNode? && nodes[i].clauses != [] {
          InsertClause(i);
        }
        done, left := done + {i}, left - {i};
      }
      WalkDone(was, roots, nodes, done);
    }
  }
}
