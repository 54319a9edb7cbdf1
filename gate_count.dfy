/** Operator extraction and gate counting of calculate_constructs.py: walk a
    process tree in pre-order, collect the operator of every node reached
    through operator nodes only, and count the XOR and AND operators. */
module GateCount {
  import opened Wrappers

  /** The process-tree operators; `Symbol` is the string form the counting
      loop compares against. */
  datatype Operator = Sequence | Xor | Parallel | Loop | Or | Interleaving | PartialOrder

  function Symbol(op: Operator): string
  {
    match op
    case Sequence => "->"
    case Xor => "X"
    case Parallel => "+"
    case Loop => "*"
    case Or => "O"
    case Interleaving => "<>"
    case PartialOrder => "PO"
  }

  const XorSymbol: string := "X"
  const AndSymbol: string := "+"

  /** A process-tree node: an operator node (with children) or a leaf, whose
      operator is `None` and which may carry an activity label. */
  datatype ProcessTree = Node(operator: Option<Operator>, activity: Option<string>, children: seq<ProcessTree>)

  /** The operators `get_operators` returns: the root's operator, then those
      of its children from left to right; a node without an operator yields
      nothing and its children are not visited. */
  function Operators(t: ProcessTree): seq<Operator>
    decreases t, |t.children| + 1
  {
    match t.operator
    case None => []
    case Some(op) => [op] + ChildrenOperators(t, |t.children|)
  }

  /** The operators collected from the first `n` children of `t`. */
  function ChildrenOperators(t: ProcessTree, n: nat): seq<Operator>
    requires n <= |t.children|
    decreases t, n
  {
    if n == 0 then []
    else ChildrenOperators(t, n - 1) + Operators(t.children[n - 1])
  }

  /** The shared `operators` list of `get_operators`, with the inner function
      `recurse` that appends to it. */
  class OperatorCollector {
    var operators: seq<Operator>

    constructor ()
      ensures operators == []
    {
      operators := [];
    }

    method Recurse(node: ProcessTree)
      modifies this
      ensures operators == old(operators) + Operators(node)
      decreases node
    {
      if node.operator.Some? {
        operators := operators + [node.operator.value];
        for i := 0 to |node.children|
          invariant operators == old(operators) + [node.operator.value] + ChildrenOperators(node, i)
        {
          Recurse(node.children[i]);
        }
      }
    }
  }

  /** `get_operators`: the pre-order list of operators; empty when the root
      has no operator. */
  method GetOperators(tree: ProcessTree) returns (operators: seq<Operator>)
    ensures operators == Operators(tree)
    ensures tree.operator.None? ==> operators == []
    ensures tree.operator.Some? ==> |operators| >= 1 && operators[0] == tree.operator.value
  {
    var collector := new OperatorCollector();
    collector.Recurse(tree);
    operators := collector.operators;
  }

  // ---------------------------------------------------------------------
  // Counting
  // ---------------------------------------------------------------------

  /** The number of operators in `ops` whose string form is `sym`. */
  function CountSymbol(ops: seq<Operator>, sym: string): (n: nat)
    ensures n <= |ops|
    decreases |ops|
  {
    if ops == [] then 0
    else CountSymbol(ops[..|ops| - 1], sym) + (if Symbol(ops[|ops| - 1]) == sym then 1 else 0)
  }

  /** Counting by string form is counting one operator: "X" is the form of
      XOR alone, "+" of AND alone. */
  lemma {:induction false} CountSymbolIsMultiplicity(ops: seq<Operator>, op: Operator)
    requires op == Xor || op == Parallel
    ensures CountSymbol(ops, Symbol(op)) == multiset(ops)[op]
    decreases |ops|
  {
    if ops != [] {
      var init, last := ops[..|ops| - 1], ops[|ops| - 1];
      CountSymbolIsMultiplicity(init, op);
      assert ops == init + [last];
      assert multiset(ops) == multiset(init) + multiset{last};
    }
  }

  /** No operator is counted twice, and only XOR and AND are counted: the two
      counts add up to the number of XOR and AND operators, at most all. */
  lemma {:induction false} GateCountsBounded(ops: seq<Operator>)
    ensures CountSymbol(ops, XorSymbol) + CountSymbol(ops, AndSymbol) <= |ops|
    ensures CountSymbol(ops, XorSymbol) + CountSymbol(ops, AndSymbol) ==
      multiset(ops)[Xor] + multiset(ops)[Parallel]
    decreases |ops|
  {
    if ops != [] {
      GateCountsBounded(ops[..|ops| - 1]);
    }
    CountSymbolIsMultiplicity(ops, Xor);
    CountSymbolIsMultiplicity(ops, Parallel);
  }

  /** Both counts are unchanged by any reordering of the operator list. */
  lemma GateCountsPermutationInvariant(a: seq<Operator>, b: seq<Operator>)
    requires multiset(a) == multiset(b)
    ensures CountSymbol(a, XorSymbol) == CountSymbol(b, XorSymbol)
    ensures CountSymbol(a, AndSymbol) == CountSymbol(b, AndSymbol)
  {
    CountSymbolIsMultiplicity(a, Xor);
    CountSymbolIsMultiplicity(b, Xor);
    CountSymbolIsMultiplicity(a, Parallel);
    CountSymbolIsMultiplicity(b, Parallel);
  }

  /** The counting loop of `find_gate_count`: the number of XOR and of AND
      operators in the list; any other operator is counted in neither. */
  method CountGates(operators: seq<Operator>) returns (xorCount: nat, andCount: nat)
    ensures xorCount == CountSymbol(operators, XorSymbol)
    ensures andCount == CountSymbol(operators, AndSymbol)
    ensures xorCount == multiset(operators)[Xor] && andCount == multiset(operators)[Parallel]
    ensures xorCount + andCount <= |operators|
  {
    xorCount, andCount := 0, 0;
    for i := 0 to |operators|
      invariant xorCount == CountSymbol(operators[..i], XorSymbol)
      invariant andCount == CountSymbol(operators[..i], AndSymbol)
    {
      assert operators[..i + 1][..i] == operators[..i];
      var operator := Symbol(operators[i]);
      if operator == XorSymbol {
        xorCount := xorCount + 1;
      }
      if operator == AndSymbol {
        andCount := andCount + 1;
      }
    }
    assert operators[..|operators|] == operators;
    CountSymbolIsMultiplicity(operators, Xor);
    CountSymbolIsMultiplicity(operators, Parallel);
    GateCountsBounded(operators);
  }

  /** `find_gate_count` from the discovered tree on: the number of XOR and AND
      operators reachable from the root through operator nodes. */
  method FindGateCount(tree: ProcessTree) returns (xorCount: nat, andCount: nat)
    ensures xorCount == multiset(Operators(tree))[Xor]
    ensures andCount == multiset(Operators(tree))[Parallel]
    ensures tree.operator.None? ==> xorCount == 0 && andCount == 0
  {
    var operators := GetOperators(tree);
    xorCount, andCount := CountGates(operators);
  }

  // ---------------------------------------------------------------------
  // Structure of the traversal
  // ---------------------------------------------------------------------

  /** The operator reached from `t` by following child indices `path`, when
      every node on the way, the last included, has an operator. */
  function OperatorReachedBy(t: ProcessTree, path: seq<nat>): Option<Operator>
    decreases |path|
  {
    if t.operator.None? then None
    else if path == [] then t.operator
    else if path[0] < |t.children| then OperatorReachedBy(t.children[path[0]], path[1..])
    else None
  }

  /** The operators of child `i` appear in the collected list of any larger
      prefix of children. */
  lemma {:induction false} ChildOperatorsIncluded(t: ProcessTree, i: nat, n: nat)
    requires i < n <= |t.children|
    ensures forall o :: o in Operators(t.children[i]) ==> o in ChildrenOperators(t, n)
    decreases n
  {
    if i < n - 1 {
      ChildOperatorsIncluded(t, i, n - 1);
    }
  }

  /** Every operator collected from the first `n` children comes from one of
      them. */
  lemma {:induction false} ChildOperatorsOrigin(t: ProcessTree, n: nat, o: Operator) returns (i: nat)
    requires n <= |t.children|
    requires o in ChildrenOperators(t, n)
    ensures i < n && o in Operators(t.children[i])
    decreases n
  {
    if o in Operators(t.children[n - 1]) {
      i := n - 1;
    } else {
      i := ChildOperatorsOrigin(t, n - 1, o);
    }
  }

  /** Every collected operator sits on a node reachable from the root through
      operator nodes only; the returned path leads to it. */
  lemma {:induction false} CollectedIsReachable(t: ProcessTree, o: Operator) returns (path: seq<nat>)
    requires o in Operators(t)
    ensures OperatorReachedBy(t, path) == Some(o)
    decreases t
  {
    var cs := t.children;
    if o == t.operator.value {
      path := [];
    } else {
      var i := ChildOperatorsOrigin(t, |cs|, o);
      var p := CollectedIsReachable(cs[i], o);
      path := [i] + p;
      assert path[1..] == p;
    }
  }

  /** The operator of a node reachable through operator nodes only is
      collected (the traversal prunes only at nodes without an operator). */
  lemma {:induction false} ReachableIsCollected(t: ProcessTree, path: seq<nat>, o: Operator)
    requires OperatorReachedBy(t, path) == Some(o)
    ensures o in Operators(t)
    decreases |path|
  {
    var cs := t.children;
    if path != [] {
      var i := path[0];
      ReachableIsCollected(cs[i], path[1..], o);
      ChildOperatorsIncluded(t, i, |cs|);
    }
    assert Operators(t) == [t.operator.value] + ChildrenOperators(t, |cs|);
  }

  /** An operator is collected iff it sits on a node reachable from the root
      through operator nodes only. */
  lemma OperatorsAreReachable(t: ProcessTree, o: Operator)
    ensures o in Operators(t) <==> exists path :: OperatorReachedBy(t, path) == Some(o)
  {
    if o in Operators(t) {
      var path := CollectedIsReachable(t, o);
    }
    if exists path :: OperatorReachedBy(t, path) == Some(o) {
      var path :| OperatorReachedBy(t, path) == Some(o);
      ReachableIsCollected(t, path, o);
    }
  }

  /** Pre-order layout: the root's operator comes first, and the operators of
      child `i` form one contiguous block right after those of children
      `0..i-1`. */
  lemma {:induction false} PreOrderLayout(t: ProcessTree, i: nat)
    requires t.operator.Some? && i < |t.children|
    ensures Operators(t)[0] == t.operator.value
    ensures var start := 1 + |ChildrenOperators(t, i)|;
      start + |Operators(t.children[i])| <= |Operators(t)| &&
      Operators(t)[start..start + |Operators(t.children[i])|] == Operators(t.children[i])
  {
    ChildrenPrefix(t, i + 1, |t.children|);
    var upto := ChildrenOperators(t, i + 1);
    assert upto == ChildrenOperators(t, i) + Operators(t.children[i]);
  }

  /** The operators of the first `m` children are a prefix of those of the
      first `n`. */
  lemma {:induction false} ChildrenPrefix(t: ProcessTree, m: nat, n: nat)
    requires m <= n <= |t.children|
    ensures ChildrenOperators(t, m) <= ChildrenOperators(t, n)
    decreases n - m
  {
    if m < n {
      ChildrenPrefix(t, m, n - 1);
    }
  }

  /** The number of nodes of a tree. */
  function Size(t: ProcessTree): nat
    decreases t, |t.children| + 1
  {
    1 + ChildrenSize(t, |t.children|)
  }

  function ChildrenSize(t: ProcessTree, n: nat): nat
    requires n <= |t.children|
    decreases t, n
  {
    if n == 0 then 0 else ChildrenSize(t, n - 1) + Size(t.children[n - 1])
  }

  /** At most one operator per node is collected. */
  lemma {:induction false} OperatorsBoundedBySize(t: ProcessTree)
    ensures |Operators(t)| <= Size(t)
    decreases t, |t.children| + 1
  {
    if t.operator.Some? {
      ChildrenBoundedBySize(t, |t.children|);
    }
  }

  lemma {:induction false} ChildrenBoundedBySize(t: ProcessTree, n: nat)
    requires n <= |t.children|
    ensures |ChildrenOperators(t, n)| <= ChildrenSize(t, n)
    decreases t, n
  {
    if n > 0 {
      ChildrenBoundedBySize(t, n - 1);
      OperatorsBoundedBySize(t.children[n - 1]);
    }
  }
}
