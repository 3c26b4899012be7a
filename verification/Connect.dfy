/** Inserting the implicit operators into a list of nodes (pkg/kql/connect.go). */
module Connect {
  import opened Ast

  datatype Option<+T> = None | Some(value: T)

  // ----- the specification, left to right -----

  function FirstOperand(nodes: seq<Node>): Option<Node> {
    if nodes == [] then None
    else if nodes[0].OperatorNode? then FirstOperand(nodes[1..])
    else Some(nodes[0])
  }

  predicate SameKey(a: Node, b: Node) {
    ToLower(NodeKey(a)) == ToLower(NodeKey(b)) && NodeKey(a) != ""
  }

  /** The operator, if any, that belongs between a node and the list that follows it. `same` is
      the operator for two neighbours with the same key. */
  function Between(same: string, head: Node, rest: seq<Node>): seq<Node> {
    if head.OperatorNode? || FirstOperand(rest).None? then []
    else if rest[0].OperatorNode? && (rest[0].value == AND || rest[0].value == OR) then []
    else if rest[0].OperatorNode? && rest[0].value == NOT then [OperatorNode(AND, true)]
    else [OperatorNode(if SameKey(head, FirstOperand(rest).value) then same else AND, true)]
  }

  function Connected(same: string, nodes: seq<Node>): seq<Node> {
    if nodes == [] then []
    else [nodes[0]] + Between(same, nodes[0], nodes[1..]) + Connected(same, nodes[1..])
  }

  // ----- the source's right to left algorithm -----

  method ConnectPair(same: string, head: Node, neighbor: Node, connections: seq<Node>) returns (ops: seq<Node>)
    requires forall n <- connections :: n.OperatorNode?
    ensures ops ==
      if head.OperatorNode? then []
      else if connections != [] && (connections[0].value == OR || connections[0].value == AND) then []
      else if connections != [] && connections[0].value == NOT then [OperatorNode(AND, true)]
      else [OperatorNode(if SameKey(head, neighbor) then same else AND, true)]
  {
    if head.OperatorNode? {
      return [];
    }
    var headKey := ToLower(NodeKey(head));
    var neighborKey := ToLower(NodeKey(neighbor));
    var value := AND;
    if headKey == neighborKey && headKey != "" && neighborKey != "" {
      value := same;
    }
    assert headKey != "" <==> NodeKey(head) != "";
    for i := 0 to |connections|
      invariant i == 0 ==> value == if SameKey(head, neighbor) then same else AND
      invariant i > 0 ==> connections[0].value != OR && connections[0].value != AND
      invariant i > 0 ==> value == if connections[0].value != NOT && SameKey(head, neighbor) then same else AND
    {
      if i == 0 {
        var skip := [OR, AND];
        for j := 0 to |skip|
          invariant forall k :: 0 <= k < j ==> connections[0].value != skip[k]
        {
          if connections[i].value == skip[j] {
            return [];
          }
        }
        assert connections[0].value != skip[0] && connections[0].value != skip[1];
        if connections[i].value == NOT {
          value := AND;
        }
      }
    }
    return [OperatorNode(value, true)];
  }

  method ConnectNode(same: string, head: Node, tail: seq<Node>) returns (ops: seq<Node>)
    ensures ops == Between(same, head, tail)
  {
    var neighbor: Option<Node> := None;
    var operators: seq<Node> := [];
    var i := 0;
    while i < |tail| && neighbor.None?
      invariant 0 <= i <= |tail|
      invariant forall n <- operators :: n.OperatorNode?
      invariant neighbor.None? ==> operators == tail[..i] && FirstOperand(tail) == FirstOperand(tail[i..])
      invariant neighbor.Some? ==> neighbor == FirstOperand(tail) && i > 0 && operators == tail[..i - 1]
      invariant neighbor.Some? && i == 1 ==> !tail[0].OperatorNode?
      decreases |tail| - i, neighbor.None?
    {
      if tail[i].OperatorNode? {
        operators := operators + [tail[i]];
      } else {
        neighbor := Some(tail[i]);
      }
      i := i + 1;
    }
    if neighbor.None? {
      assert FirstOperand(tail).None?;
      return [];
    }
    ops := ConnectPair(same, head, neighbor.value, operators);
  }

  /** Connecting keeps the first operand and everything before it in place. */
  lemma {:induction false} ConnectedFront(same: string, nodes: seq<Node>)
    ensures FirstOperand(Connected(same, nodes)) == FirstOperand(nodes)
    ensures nodes != [] ==> Connected(same, nodes) != [] && Connected(same, nodes)[0] == nodes[0]
  {
    if nodes != [] {
      ConnectedFront(same, nodes[1..]);
      if nodes[0].OperatorNode? {
        assert Connected(same, nodes)[1..] == Connected(same, nodes[1..]);
      }
    }
  }

  lemma BetweenConnected(same: string, head: Node, rest: seq<Node>)
    ensures Between(same, head, Connected(same, rest)) == Between(same, head, rest)
  {
    ConnectedFront(same, rest);
  }

  /** The loop of the source, which sees only the tail that it has already connected, computes
      the left to right specification. */
  method ConnectNodes(same: string, nodes: seq<Node>) returns (connected: seq<Node>)
    ensures connected == Connected(same, nodes)
  {
    connected := [];
    for i := 0 to |nodes|
      invariant connected == Connected(same, nodes[|nodes| - i..])
    {
      var ri := |nodes| - 1 - i;
      var head := nodes[ri];
      assert nodes[ri..][1..] == nodes[ri + 1..];
      BetweenConnected(same, head, nodes[ri + 1..]);
      var ops := ConnectNode(same, head, connected);
      if |ops| > 0 {
        connected := ops + connected;
      }
      connected := [head] + connected;
      assert connected == [head] + ops + Connected(same, nodes[ri + 1..]);
    }
    assert nodes[0..] == nodes;
  }

  // ----- what the result is -----

  function EraseImplicit(nodes: seq<Node>): seq<Node> {
    if nodes == [] then []
    else if nodes[0].OperatorNode? && nodes[0].implicit then EraseImplicit(nodes[1..])
    else [nodes[0]] + EraseImplicit(nodes[1..])
  }

  predicate Explicit(nodes: seq<Node>) {
    forall n <- nodes :: n.OperatorNode? ==> !n.implicit
  }

  /** Nothing is lost, changed or reordered: erasing the inserted operators gives the input back. */
  lemma {:induction false} ErasureRestores(same: string, nodes: seq<Node>)
    requires Explicit(nodes)
    ensures EraseImplicit(Connected(same, nodes)) == nodes
  {
    if nodes != [] {
      ErasureRestores(same, nodes[1..]);
      hide Connected, Between, FirstOperand;
      ConnectedCases(same, nodes);
      EraseFront(nodes[0], Connected(same, nodes[1..]));
    }
  }

  lemma BetweenIsOneOperator(same: string, head: Node, rest: seq<Node>)
    ensures |Between(same, head, rest)| <= 1
    ensures forall n <- Between(same, head, rest) :: n.OperatorNode? && n.implicit && (n.value == same || n.value == AND)
  {}

  lemma ConnectedCases(same: string, nodes: seq<Node>)
    requires nodes != []
    ensures var ops, tail, all := Between(same, nodes[0], nodes[1..]), Connected(same, nodes[1..]), Connected(same, nodes);
            if ops == [] then all == [nodes[0]] + tail
            else ops[0].OperatorNode? && ops[0].implicit && (ops[0].value == same || ops[0].value == AND)
                 && all == [nodes[0], ops[0]] + tail
  {
    BetweenIsOneOperator(same, nodes[0], nodes[1..]);
    hide Between;
    var ops := Between(same, nodes[0], nodes[1..]);
    if ops == [] {
      assert [nodes[0]] + ops == [nodes[0]];
    } else {
      assert [nodes[0]] + ops == [nodes[0], ops[0]];
    }
  }

  lemma EraseFront(head: Node, tail: seq<Node>)
    requires head.OperatorNode? ==> !head.implicit
    ensures EraseImplicit([head] + tail) == [head] + EraseImplicit(tail)
    ensures forall op: Node :: op.OperatorNode? && op.implicit ==>
              EraseImplicit([head, op] + tail) == [head] + EraseImplicit(tail)
  {
    assert ([head] + tail)[1..] == tail;
    forall op: Node | op.OperatorNode? && op.implicit
      ensures EraseImplicit([head, op] + tail) == [head] + EraseImplicit(tail)
    {
      assert ([head, op] + tail)[1..] == [op] + tail;
      assert ([op] + tail)[1..] == tail;
    }
  }

  /** A well-connected list has, after each operand that another operand follows, exactly an
      operator; and an inserted operator stands between two operands that are adjacent in the
      input, or before a NOT, and is `same` exactly for adjacent operands with the same key. */
  predicate WellConnected(same: string, out: seq<Node>) {
    forall k :: 0 <= k < |out| ==>
      && (!out[k].OperatorNode? && FirstOperand(out[k + 1..]).Some? ==> out[k + 1].OperatorNode?)
      && (out[k].OperatorNode? && out[k].implicit ==> ImplicitAt(same, out, k))
  }

  predicate ImplicitAt(same: string, out: seq<Node>, k: nat)
    requires k < |out| && out[k].OperatorNode?
  {
    && 0 < k < |out| - 1
    && !out[k - 1].OperatorNode?
    && out[k].value == (if !out[k + 1].OperatorNode? && SameKey(out[k - 1], out[k + 1]) then same else AND)
    && (out[k + 1].OperatorNode? ==> out[k + 1].value == NOT && FirstOperand(out[k + 1..]).Some?)
  }

  predicate BoolOperators(nodes: seq<Node>) {
    forall n <- nodes :: n.OperatorNode? ==> n.value == AND || n.value == OR || n.value == NOT
  }

  lemma WellConnectedPrefix(same: string, pre: seq<Node>, out: seq<Node>)
    requires WellConnected(same, out) && out != []
    requires pre != [] && |pre| <= 2 && WellConnectedHead(same, pre, out)
    ensures WellConnected(same, pre + out)
  {
    var all := pre + out;
    forall k | 0 <= k < |all|
      ensures !all[k].OperatorNode? && FirstOperand(all[k + 1..]).Some? ==> all[k + 1].OperatorNode?
      ensures all[k].OperatorNode? && all[k].implicit ==> ImplicitAt(same, all, k)
    {
      if k >= |pre| {
        var j := k - |pre|;
        assert all[k + 1..] == out[j + 1..];
        if out[j].OperatorNode? && out[j].implicit {
          assert ImplicitAt(same, out, j);
        }
      } else if k == 1 {
        assert all[k + 1..] == out;
      }
    }
  }

  /** One explicit node, possibly followed by an inserted operator, in front of `out`. */
  predicate WellConnectedHead(same: string, pre: seq<Node>, out: seq<Node>)
    requires 0 < |pre| <= 2 && out != []
  {
    && (pre[0].OperatorNode? ==> !pre[0].implicit && |pre| == 1)
    && (!pre[0].OperatorNode? && |pre| == 1 && FirstOperand(out).Some? ==> out[0].OperatorNode?)
    && (|pre| == 2 ==>
          && pre[1].OperatorNode?
          && pre[1].value == (if !out[0].OperatorNode? && SameKey(pre[0], out[0]) then same else AND)
          && (out[0].OperatorNode? ==> out[0].value == NOT && FirstOperand(out).Some?))
  }

  /** The local rule, at every position of the result. */
  lemma {:induction false} ConnectedIsWellConnected(same: string, nodes: seq<Node>)
    requires Explicit(nodes) && BoolOperators(nodes)
    ensures WellConnected(same, Connected(same, nodes))
  {
    if |nodes| > 1 {
      var rest := nodes[1..];
      ConnectedIsWellConnected(same, rest);
      ConnectedFront(same, rest);
      var pre := [nodes[0]] + Between(same, nodes[0], rest);
      assert rest[0] in nodes;
      WellConnectedPrefix(same, pre, Connected(same, rest));
    } else if |nodes| == 1 {
      assert Connected(same, nodes) == nodes;
    }
  }

  /** Connecting a list that is already connected changes nothing. */
  lemma {:induction false} ConnectedTwice(same: string, nodes: seq<Node>)
    requires same == AND || same == OR
    ensures Connected(same, Connected(same, nodes)) == Connected(same, nodes)
  {
    if nodes != [] {
      ConnectedTwice(same, nodes[1..]);
      ConnectedCases(same, nodes);
      var tail := Connected(same, nodes[1..]);
      if Between(same, nodes[0], nodes[1..]) == [] {
        BetweenConnected(same, nodes[0], nodes[1..]);
        ConnectedAgain(same, nodes[0], tail);
      } else {
        ConnectedFront(same, nodes[1..]);
        ConnectedPast(same, nodes[0], Between(same, nodes[0], nodes[1..])[0], tail);
      }
    }
  }

  lemma ConnectedAgain(same: string, head: Node, tail: seq<Node>)
    requires Between(same, head, tail) == [] && Connected(same, tail) == tail
    ensures Connected(same, [head] + tail) == [head] + tail
  {
    assert ([head] + tail)[1..] == tail;
  }

  lemma ConnectedPast(same: string, head: Node, op: Node, tail: seq<Node>)
    requires op.OperatorNode? && (op.value == AND || op.value == OR) && Connected(same, tail) == tail
    ensures Connected(same, [head, op] + tail) == [head, op] + tail
  {
    assert [head, op] + tail == [head] + ([op] + tail);
    ConnectedAgain(same, op, tail);
    ConnectedAgain(same, head, [op] + tail);
  }

  // ----- keys that count as the same -----

  predicate SameLetter(x: char, y: char) {
    x == y || ('A' <= x <= 'Z' && y as int == x as int + 32) || ('A' <= y <= 'Z' && x as int == y as int + 32)
  }

  predicate EqualFold(a: string, b: string) {
    |a| == |b| && forall k :: 0 <= k < |a| ==> SameLetter(a[k], b[k])
  }

  lemma {:induction false} ToLowerFolds(a: string, b: string)
    ensures ToLower(a) == ToLower(b) <==> EqualFold(a, b)
  {
    if a != [] && b != [] {
      ToLowerFolds(a[1..], b[1..]);
      assert ToLower(a)[0] == ToLower(b)[0] <==> SameLetter(a[0], b[0]);
      assert ToLower(a)[1..] == ToLower(a[1..]) && ToLower(b)[1..] == ToLower(b[1..]);
      if ToLower(a) == ToLower(b) {
        assert forall k :: 1 <= k < |a| ==> a[k] == a[1..][k - 1] && b[k] == b[1..][k - 1];
      }
    }
  }

  /** The nodes whose key the connector knows; a number's is not among them. */
  predicate HasKey(n: Node, key: string) {
    (n.StringNode? || n.BooleanNode? || n.DateTimeNode? || n.GroupNode?) && n.key == key
  }

  /** Two neighbours are alternatives exactly when they have the same key but for upper and lower
      case, and otherwise both must hold. */
  lemma NeighboursWithKeys(same: string, a: Node, b: Node, j: string, k: string)
    requires HasKey(a, j) && HasKey(b, k)
    ensures Between(same, a, [b]) == [OperatorNode(if j != "" && EqualFold(j, k) then same else AND, true)]
  {
    ToLowerFolds(j, k);
    assert FirstOperand([b]) == Some(b);
  }

  lemma NumbersAreNoAlternatives(same: string, a: Node, b: Node)
    requires !a.OperatorNode? && !b.OperatorNode? && (a.NumberNode? || b.NumberNode?)
    ensures Between(same, a, [b]) == [OperatorNode(AND, true)]
  {
    assert FirstOperand([b]) == Some(b);
    if b.NumberNode? && NodeKey(a) != "" {
      assert |ToLower(NodeKey(a))| > 0 && ToLower("") == "";
    }
  }
}
