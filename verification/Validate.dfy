/** Operator validation (pkg/kql/validate.go) and what it accepts after connecting
    (pkg/kql/factory.go). */
module Validate {
  import opened Ast
  import opened Connect

  datatype ValidationError =
    | DanglingOperator(node: Node)
    | NamedGroupInvalidNodes(node: Node)

  /** An operator that may not stand at position `i`. */
  predicate Dangling(nodes: seq<Node>, i: nat)
    requires i < |nodes|
  {
    && nodes[i].OperatorNode?
    && (((nodes[i].value == AND || nodes[i].value == OR) && (i == 0 || nodes[i - 1].OperatorNode?))
        || i == |nodes| - 1)
  }

  /** Scans from position `i`; the first offending operator is reported. */
  function ValidateFrom(nodes: seq<Node>, i: nat): (err: Option<ValidationError>)
    requires i <= |nodes|
    ensures err.None? ==> forall k :: i <= k < |nodes| ==> !Dangling(nodes, k)
    ensures err.Some? ==> exists k :: i <= k < |nodes| && Dangling(nodes, k) && err.value == DanglingOperator(nodes[k])
                                      && forall j :: i <= j < k ==> !Dangling(nodes, j)
    decreases |nodes| - i
  {
    if i == |nodes| then None
    else if Dangling(nodes, i) then Some(DanglingOperator(nodes[i]))
    else ValidateFrom(nodes, i + 1)
  }

  function ValidateOperators(nodes: seq<Node>): Option<ValidationError> {
    ValidateFrom(nodes, 0)
  }

  predicate OperatorsOk(nodes: seq<Node>) {
    forall k :: 0 <= k < |nodes| ==> !Dangling(nodes, k)
  }

  /** A group with a key may not hold nodes that have a key of their own. */
  function FirstKeyed(nodes: seq<Node>): (n: Option<Node>)
    ensures n.None? <==> forall m <- nodes :: NodeKey(m) == ""
    ensures n.Some? ==> n.value in nodes && NodeKey(n.value) != ""
  {
    if nodes == [] then None
    else if NodeKey(nodes[0]) != "" then Some(nodes[0])
    else FirstKeyed(nodes[1..])
  }

  function ValidateGroup(key: string, nodes: seq<Node>): (err: Option<ValidationError>)
    ensures err.None? <==> OperatorsOk(nodes) && (key != "" ==> forall m <- nodes :: NodeKey(m) == "")
  {
    if ValidateOperators(nodes).Some? then ValidateOperators(nodes)
    else if key != "" && FirstKeyed(nodes).Some? then Some(NamedGroupInvalidNodes(FirstKeyed(nodes).value))
    else None
  }

  // ----- the language of valid queries -----

  predicate Binary(n: Node) {
    n.OperatorNode? && (n.value == AND || n.value == OR)
  }

  predicate Negation(n: Node) {
    n.OperatorNode? && n.value == NOT
  }

  /** NOT* operand ((AND | OR)? NOT* operand)* */
  predicate Query(xs: seq<Node>) {
    xs != [] &&
    if Negation(xs[0]) then Query(xs[1..])
    else !xs[0].OperatorNode? && (|xs| == 1 || Query(if Binary(xs[1]) then xs[2..] else xs[1..]))
  }

  /** NOT* operand ((AND | OR) NOT* operand)* */
  predicate ConnectedQuery(xs: seq<Node>) {
    xs != [] &&
    if Negation(xs[0]) then ConnectedQuery(xs[1..])
    else !xs[0].OperatorNode? && (|xs| == 1 || (Binary(xs[1]) && ConnectedQuery(xs[2..])))
  }

  /** No dangling operator in `xs` when it follows an operator (or nothing), or an operand. */
  predicate OkAfter(prevOperator: bool, xs: seq<Node>)
    decreases |xs|
  {
    xs == [] ||
    (&& (Binary(xs[0]) ==> !prevOperator)
     && (xs[0].OperatorNode? ==> |xs| > 1)
     && OkAfter(xs[0].OperatorNode?, xs[1..]))
  }

  lemma {:induction false} OkAfterIsNoDangling(nodes: seq<Node>, i: nat)
    requires i <= |nodes|
    ensures OkAfter(i == 0 || nodes[i - 1].OperatorNode?, nodes[i..]) <==> forall k :: i <= k < |nodes| ==> !Dangling(nodes, k)
    decreases |nodes| - i
  {
    if i < |nodes| {
      var prev := i == 0 || nodes[i - 1].OperatorNode?;
      OkAfterIsNoDangling(nodes, i + 1);
      assert nodes[i..][1..] == nodes[i + 1..];
      assert OkAfter(prev, nodes[i..]) <==> !Dangling(nodes, i) && OkAfter(nodes[i].OperatorNode?, nodes[i + 1..]);
      assert (forall k :: i <= k < |nodes| ==> !Dangling(nodes, k)) <==>
        !Dangling(nodes, i) && forall k :: i + 1 <= k < |nodes| ==> !Dangling(nodes, k);
    }
  }

  lemma {:induction false} OperandlessIsNotOk(prevOperator: bool, xs: seq<Node>)
    requires xs != [] && FirstOperand(xs).None?
    ensures !OkAfter(prevOperator, xs) && !Query(xs)
    decreases |xs|
  {
    if |xs| > 1 {
      OperandlessIsNotOk(true, xs[1..]);
    }
  }

  lemma OkAfterStep(prevOperator: bool, x: Node, xs: seq<Node>)
    ensures OkAfter(prevOperator, [x] + xs)
        <==> (Binary(x) ==> !prevOperator) && (x.OperatorNode? ==> xs != []) && OkAfter(x.OperatorNode?, xs)
  {
    assert ([x] + xs)[1..] == xs;
  }

  lemma ConnectedQueryStep(x: Node, op: Node, xs: seq<Node>)
    ensures Negation(x) ==> (ConnectedQuery([x] + xs) <==> ConnectedQuery(xs))
    ensures !x.OperatorNode? && Binary(op) ==> (ConnectedQuery([x, op] + xs) <==> ConnectedQuery(xs))
  {
    assert ([x] + xs)[1..] == xs;
    assert ([x, op] + xs)[2..] == xs;
  }

  lemma ConnectedOperator(same: string, xs: seq<Node>)
    requires xs != [] && xs[0].OperatorNode?
    ensures Connected(same, xs) == [xs[0]] + Connected(same, xs[1..])
  {}

  /** Connected lists are fine after an operator exactly when the input is a query. */
  lemma {:induction false} OkIffQuery(same: string, xs: seq<Node>)
    requires BoolOperators(xs) && (same == AND || same == OR)
    requires xs != []
    ensures OkAfter(true, Connected(same, xs)) <==> Query(xs)
    ensures Query(xs) ==> ConnectedQuery(Connected(same, xs))
    decreases |xs|, 2
  {
    var x, rest := xs[0], xs[1..];
    assert x in xs;
    if rest != [] {
      OkIffQuery(same, rest);
      ConnectedFront(same, rest);
    }
    if x.OperatorNode? {
      ConnectedOperator(same, xs);
      OkAfterStep(true, x, Connected(same, rest));
      ConnectedQueryStep(x, x, Connected(same, rest));
    } else if rest != [] {
      OperandFirst(same, xs);
    } else {
      assert Connected(same, xs) == xs;
    }
  }

  lemma {:induction false} OperandFirst(same: string, xs: seq<Node>)
    requires BoolOperators(xs) && (same == AND || same == OR)
    requires |xs| > 1 && !xs[0].OperatorNode?
    requires OkAfter(true, Connected(same, xs[1..])) <==> Query(xs[1..])
    requires Query(xs[1..]) ==> ConnectedQuery(Connected(same, xs[1..]))
    ensures OkAfter(true, Connected(same, xs)) <==> Query(xs)
    ensures Query(xs) ==> ConnectedQuery(Connected(same, xs))
    decreases |xs|, 1
  {
    var x, rest, tail := xs[0], xs[1..], Connected(same, xs[1..]);
    assert rest[0] in xs;
    ConnectedFront(same, rest);
    ConnectedCases(same, xs);
    var ops := Between(same, x, rest);
    if ops != [] {
      OperatorInserted(same, xs, ops[0], tail);
    } else if FirstOperand(rest).None? {
      OkAfterStep(true, x, tail);
      OperandlessIsNotOk(false, tail);
      OperandlessIsNotOk(false, rest);
      if |rest| > 1 {
        OperandlessIsNotOk(false, rest[1..]);
      }
    } else {
      BinaryNext(same, xs);
    }
  }

  lemma OperatorInserted(same: string, xs: seq<Node>, op: Node, tail: seq<Node>)
    requires |xs| > 1 && !xs[0].OperatorNode? && !Binary(xs[1]) && Binary(op) && tail != []
    requires Connected(same, xs) == [xs[0], op] + tail
    requires OkAfter(true, tail) <==> Query(xs[1..])
    requires Query(xs[1..]) ==> ConnectedQuery(tail)
    ensures OkAfter(true, Connected(same, xs)) <==> Query(xs)
    ensures Query(xs) ==> ConnectedQuery(Connected(same, xs))
  {
    hide Connected;
    assert [xs[0], op] + tail == [xs[0]] + ([op] + tail);
    OkAfterStep(true, xs[0], [op] + tail);
    OkAfterStep(false, op, tail);
    ConnectedQueryStep(xs[0], op, tail);
  }

  lemma {:induction false} BinaryNext(same: string, xs: seq<Node>)
    requires BoolOperators(xs) && (same == AND || same == OR)
    requires |xs| > 1 && !xs[0].OperatorNode? && Binary(xs[1]) && Between(same, xs[0], xs[1..]) == []
    ensures OkAfter(true, Connected(same, xs)) <==> Query(xs)
    ensures Query(xs) ==> ConnectedQuery(Connected(same, xs))
    decreases |xs|, 0
  {
    var x, op, rest := xs[0], xs[1], xs[2..];
    assert xs[1..][1..] == rest;
    var tail := Connected(same, rest);
    ConnectedOperator(same, xs[1..]);
    assert Connected(same, xs) == [x] + ([op] + tail);
    OkAfterStep(true, x, [op] + tail);
    OkAfterStep(false, op, tail);
    assert [x, op] + tail == [x] + ([op] + tail);
    ConnectedQueryStep(x, op, tail);
    if rest != [] {
      OkIffQuery(same, rest);
      ConnectedFront(same, rest);
    }
  }

  /** Validation after connecting accepts a non-empty list exactly when it is a query, and what
      it accepts has one binary operator between any two consecutive operands. */
  lemma AcceptsExactlyQueries(same: string, xs: seq<Node>)
    requires BoolOperators(xs) && (same == AND || same == OR) && xs != []
    ensures ValidateOperators(Connected(same, xs)).None? <==> Query(xs)
    ensures ValidateOperators(Connected(same, xs)).None? ==> ConnectedQuery(Connected(same, xs))
  {
    var out := Connected(same, xs);
    OkAfterIsNoDangling(out, 0);
    assert out[0..] == out;
    OkIffQuery(same, xs);
  }

  /** The empty list, which the grammar never produces, is accepted as well. */
  lemma EmptyIsAccepted(same: string)
    ensures ValidateOperators(Connected(same, [])).None? && !Query([])
  {}

  /** A node that has a key, in a group with a key, is not accepted. */
  lemma KeyInKeyedGroupIsRejected(key: string, nodes: seq<Node>, n: Node, k: string)
    requires key != "" && k != "" && n in nodes && HasKey(n, k)
    ensures ValidateGroup(key, nodes).Some?
  {}

  /** But a number in it is, as long as no other node has a key: its key is not looked at. */
  lemma NumberInKeyedGroupIsAccepted(key: string, number: Node)
    requires number.NumberNode?
    ensures ValidateGroup(key, [number]).None?
  {}
}
