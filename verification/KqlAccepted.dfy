/** What `Builder.Build` (pkg/kql/kql.go) accepts, for every query: the query is spelled like a list
    of items of the concrete syntax, and the nodes are those of the items, connected; in them, and
    in every group, operands and binary operators alternate. */
module KqlAccepted {
  import opened Ast
  import Connect
  import Validate
  import opened Peg
  import opened PegLaws
  import opened KqlGrammar
  import opened KqlClean
  import opened KqlSyntax
  import opened KqlRestrictions
  import KqlQuery
  import KqlStrings

  // ----- what a query tree must be -----

  predicate GoodNode(n: Node)
    decreases n, 0
  {
    match n
    case GroupNode(key, nodes) =>
      GoodNodes(nodes) && Validate.ConnectedQuery(nodes) && (key != "" ==> forall m <- nodes :: NodeKey(m) == "")
    case OperatorNode(op, _) => op == AND || op == OR || op == NOT
    case _ => true
  }

  predicate GoodNodes(nodes: seq<Node>)
    decreases nodes, 1
  {
    forall n <- nodes :: GoodNode(n)
  }

  lemma GoodConcat(a: seq<Node>, b: seq<Node>)
    requires GoodNodes(a) && GoodNodes(b)
    ensures GoodNodes(a + b)
  {
    hide GoodNode;
  }

  /** Connecting adds only operators. */
  lemma {:induction false} ConnectedIsGood(nodes: seq<Node>)
    requires GoodNodes(nodes)
    ensures GoodNodes(Connect.Connected(OR, nodes)) && Connect.BoolOperators(nodes)
    decreases |nodes|
  {
    if nodes != [] {
      assert nodes[0] in nodes;
      assert forall n <- nodes[1..] :: n in nodes;
      ConnectedIsGood(nodes[1..]);
      Connect.ConnectedCases(OR, nodes);
      Connect.BetweenIsOneOperator(OR, nodes[0], nodes[1..]);
    }
  }

  lemma {:induction false} ProperIsGood(c: Conversions, items: seq<Item>)
    requires AllProper(c, items)
    ensures GoodNodes(AllNodes(items))
    decreases items, 0
  {
    if items != [] {
      ProperItemIsGood(c, items[0]);
      ProperIsGood(c, items[1..]);
      hide Proper, NodesOf, GoodNodes;
      GoodConcat(NodesOf(items[0]), AllNodes(items[1..]));
    }
  }

  lemma {:induction false} ProperItemIsGood(c: Conversions, i: Item)
    requires Proper(c, i)
    ensures GoodNodes(NodesOf(i))
    decreases i, 0
  {
    hide IsKey, IsMoment, IsNumber, IsPeriod, Blanks, Before, After, Free;
    if i.Group? {
      ProperIsGood(c, i.items);
      ConnectedIsGood(AllNodes(i.items));
    }
  }

  // ----- what the parser's values stand for -----

  lemma {:induction false} AllToNodesMore(vals: seq<KqlValue>, v: KqlValue)
    requires AllToNodes(vals).Some? && ToNodes(v).Some?
    ensures AllToNodes(vals + [v]) == Some(AllToNodes(vals).value + ToNodes(v).value)
    decreases |vals|
  {
    if vals == [] {
      assert [] + [v] == [v];
      assert [v][1..] == [];
      assert ToNodes(v).value + [] == [] + ToNodes(v).value;
    } else {
      assert (vals + [v])[1..] == vals[1..] + [v];
      AllToNodesMore(vals[1..], v);
      var x, y, z := ToNodes(vals[0]).value, AllToNodes(vals[1..]).value, ToNodes(v).value;
      assert x + (y + z) == (x + y) + z;
    }
  }

  lemma MeansMore(c: Conversions, vals: seq<KqlValue>, t: string, v: KqlValue, u: string)
    requires ((vals == [] && t == "") || Means(c, List(vals), t)) && Means(c, v, u)
    ensures Means(c, List(vals + [v]), t + u)
  {
    hide AllProper;
    var more :| AllProper(c, more) && Sources(more) == u && AllNodes(more) != [] && ToNodes(v) == Some(AllNodes(more));
    var items: seq<Item> := [];
    if vals != [] {
      items :| AllProper(c, items) && Sources(items) == t && AllNodes(items) != [] && ToNodes(List(vals)) == Some(AllNodes(items));
    } else {
      assert AllProper(c, []) by { NoItems(c); }
    }
    Appended(c, items, more);
    AllToNodesMore(vals, v);
    assert AllProper(c, items + more);
  }

  lemma NoItems(c: Conversions)
    ensures AllProper(c, [])
  {}

  lemma MeansStep(c: Conversions, b: string, v: KqlValue, t: string)
    requires Blanks(b) && Means(c, v, t)
    ensures Means(c, List([Nil, v]), b + t)
  {
    hide AllProper, Blanks;
    var items :| AllProper(c, items) && Sources(items) == t && AllNodes(items) != [] && ToNodes(v) == Some(AllNodes(items));
    var inner: seq<KqlValue> := [Nil, v];
    SpaceItem(c, b);
    Appended(c, [Space(b)], items);
    assert inner[1..] == [v];
    assert AllToNodes(inner[1..]) == Some(AllNodes(items) + []);
    assert AllNodes(items) + [] == AllNodes(items);
    assert AllToNodes(inner) == Some([] + AllNodes(items));
    assert AllProper(c, [Space(b)] + items);
  }

  lemma SpaceItem(c: Conversions, b: string)
    requires Blanks(b)
    ensures AllProper(c, [Space(b)]) && Sources([Space(b)]) == b && AllNodes([Space(b)]) == []
  {
    Single(c, Space(b));
  }

  // ----- the rules -----

  /** A match without errors means its text. */
  ghost predicate Faithful(c: Conversions, q: string, pos: nat, o: KqlOutcome) {
    Clean(o) && pos <= o.pos <= |q| ==> Means(c, o.val, q[pos..o.pos])
  }

  lemma BodyOf(c: Conversions, r: Rule)
    requires WellFormed(Kql(c))
    ensures Kql(c).body(r) == Body(r) && WellFormedExpr(Kql(c), Body(r)) && WellFormedExpr(Kql(c), RuleRef(r))
  {
    hide Body, WellFormedExpr;
    assert WellFormedExpr(Kql(c), Kql(c).body(r));
    assert WellFormedExpr(Kql(c), RuleRef(r)) by { RefIsWellFormed(Kql(c), r); }
  }

  lemma RefIsWellFormed(g: Grammar<Rule, Built>, r: Rule)
    ensures WellFormedExpr(g, RuleRef(r))
  {
  }

  lemma {:induction false} RefMeans(c: Conversions, q: string, rule: Rule, r: Rule, pos: nat)
    requires WellFormed(Kql(c)) && pos <= |q| && WellFormedExpr(Kql(c), RuleRef(r)) && r != ASTRule
    ensures Faithful(c, q, pos, Eval(Kql(c), q, rule, RuleRef(r), pos, map[], []))
    decreases |q| - pos, RuleRank(r), 1
  {
    hide WellFormed, WellFormedExpr, Eval, Kql, Body, Means;
    BodyOf(c, r);
    if Clean(Eval(Kql(c), q, rule, RuleRef(r), pos, map[], [])) {
      RefClean(Kql(c), q, rule, r, pos, map[]);
      match r
      case NodesRule => NodesMeans(c, q, pos);
      case NodeRule => NodeMeans(c, q, pos);
      case GroupNodeRule => GroupMeans(c, q, pos);
    }
  }

  lemma {:induction false} NodesMeans(c: Conversions, q: string, pos: nat)
    requires WellFormed(Kql(c)) && pos <= |q| && WellFormedExpr(Kql(c), Body(NodesRule))
    ensures Faithful(c, q, pos, Eval(Kql(c), q, NodesRule, Body(NodesRule), pos, map[], []))
    decreases |q| - pos, RuleRank(NodesRule), 0
  {
    var g, e := Kql(c), KqlQuery.NodesStep();
    KqlQuery.NodesParts(c);
    hide WellFormed, WellFormedExpr, MayBeEmpty, Eval, Kql, Body, Means, KqlQuery.NodesStep;
    if Clean(Eval(g, q, NodesRule, Body(NodesRule), pos, map[], [])) {
      OneOrMoreClean(g, q, NodesRule, e, pos);
      var o := Eval(g, q, NodesRule, e, pos, map[], []);
      StepMeans(c, q, pos);
      MeansMore(c, [], "", o.val, q[pos..o.pos]);
      assert [] + [o.val] == [o.val] && "" + q[pos..o.pos] == q[pos..o.pos];
      LoopMeans(c, q, pos, o.pos, [o.val]);
    }
  }

  lemma OneOrMoreClean(g: Grammar<Rule, Built>, q: string, rule: Rule, e: KqlExpr, pos: nat)
    requires WellFormed(g) && pos <= |q| && WellFormedExpr(g, e) && !MayBeEmpty(g, e) && WellFormedExpr(g, OneOrMore(e))
    requires Clean(Eval(g, q, rule, OneOrMore(e), pos, map[], []))
    ensures var o := Eval(g, q, rule, e, pos, map[], []);
      Clean(o) && o.pos > pos && Eval(g, q, rule, OneOrMore(e), pos, map[], []) == EvalLoop(g, q, rule, e, o.pos, map[], [], [o.val])
  {
    hide WellFormed, WellFormedExpr, MayBeEmpty;
    var o := Eval(g, q, rule, e, pos, map[], []);
    if o.Success? {
      LoopErrorsGrow(g, q, rule, e, o.pos, map[], o.errs, [o.val]);
    }
  }

  lemma {:induction false} LoopMeans(c: Conversions, q: string, start: nat, pos: nat, vals: seq<KqlValue>)
    requires WellFormed(Kql(c)) && start <= pos <= |q|
    requires WellFormedExpr(Kql(c), KqlQuery.NodesStep()) && !MayBeEmpty(Kql(c), KqlQuery.NodesStep())
    requires Means(c, List(vals), q[start..pos])
    ensures Faithful(c, q, start, EvalLoop(Kql(c), q, NodesRule, KqlQuery.NodesStep(), pos, map[], [], vals))
    decreases |q| - pos, RuleRank(NodesRule), 0
  {
    var g, e := Kql(c), KqlQuery.NodesStep();
    hide WellFormed, WellFormedExpr, MayBeEmpty, Eval, Kql, Body, Means, KqlQuery.NodesStep;
    var o := Eval(g, q, NodesRule, e, pos, map[], []);
    ErrorsGrow(g, q, NodesRule, e, pos, map[], []);
    if o.Success? {
      LoopErrorsGrow(g, q, NodesRule, e, o.pos, map[], o.errs, vals + [o.val]);
      if o.errs == [] {
        StepMeans(c, q, pos);
        MeansMore(c, vals, q[start..pos], o.val, q[pos..o.pos]);
        Joins(q, start, pos, o.pos);
        LoopMeans(c, q, start, o.pos, vals + [o.val]);
      }
    }
  }

  lemma {:induction false} StepMeans(c: Conversions, q: string, pos: nat)
    requires WellFormed(Kql(c)) && pos <= |q| && WellFormedExpr(Kql(c), KqlQuery.NodesStep())
    ensures Faithful(c, q, pos, Eval(Kql(c), q, NodesRule, KqlQuery.NodesStep(), pos, map[], []))
    decreases |q| - pos, RuleRank(NodeRule), 2
  {
    hide WellFormed, WellFormedExpr, MayBeEmpty, Eval, EvalSeq, Kql, Blank, Body, Means, Blanks;
    var g, es := Kql(c), [Blank(), RuleRef(NodeRule)];
    KqlQuery.NodesParts(c);
    if Clean(Eval(g, q, NodesRule, Seq(es), pos, map[], [])) {
      assert es == [Blank()] + ([RuleRef(NodeRule)] + []);
      EvalIsSeq(g, q, NodesRule, es, pos, map[], []);
      SeqClean(g, q, NodesRule, Blank(), [RuleRef(NodeRule)] + [], pos, map[], []);
      SpaceClean(c, q, NodesRule, pos, map[]);
      var b := Eval(g, q, NodesRule, Blank(), pos, map[], []);
      SeqClean(g, q, NodesRule, RuleRef(NodeRule), [], b.pos, map[], [] + [Nil]);
      RefMeans(c, q, NodesRule, NodeRule, b.pos);
      var o := Eval(g, q, NodesRule, RuleRef(NodeRule), b.pos, map[], []);
      EvalNoSeq(g, q, NodesRule, o.pos, o.env, [], [] + [Nil] + [o.val]);
      MeansStep(c, q[pos..b.pos], o.val, q[b.pos..o.pos]);
      Joins(q, pos, b.pos, o.pos);
      assert [] + [Nil] + [o.val] == [Nil, o.val];
    }
  }

  lemma {:induction false} NodeMeans(c: Conversions, q: string, pos: nat)
    requires WellFormed(Kql(c)) && pos <= |q| && WellFormedExpr(Kql(c), Body(NodeRule))
    ensures Faithful(c, q, pos, Eval(Kql(c), q, NodeRule, Body(NodeRule), pos, map[], []))
    decreases |q| - pos, RuleRank(NodeRule), 0
  {
    var g, es := Kql(c), [RuleRef(GroupNodeRule)] + NodeChoices();
    hide WellFormed, WellFormedExpr, Kql, Body, Means, NodeChoices, Eval, EvalChoice;
    KqlQuery.KqlBodies(c);
    NodeAlternatives(c);
    if Clean(Eval(g, q, NodeRule, Body(NodeRule), pos, map[], [])) {
      EvalIsChoice(g, q, NodeRule, es, pos, map[], []);
      var k := ChoiceClean(g, q, NodeRule, es, pos, map[]);
      if k == 0 {
        RefMeans(c, q, NodeRule, GroupNodeRule, pos);
      } else {
        assert es[k] == NodeChoices()[k - 1];
        AlternativeMeans(c, q, k - 1, pos);
      }
    }
  }

  lemma NodeAlternatives(c: Conversions)
    ensures var es := [RuleRef(GroupNodeRule)] + NodeChoices(); forall k :: 0 <= k < |es| ==> WellFormedExpr(Kql(c), es[k])
    ensures WellFormedExpr(Kql(c), RuleRef(GroupNodeRule))
  {
    var g, es := Kql(c), [RuleRef(GroupNodeRule)] + NodeChoices();
    NodeChoicesAreTokens(g);
    hide NodeChoices;
    assert es[1..] == NodeChoices();
    forall k | 0 <= k < |NodeChoices()|
      ensures WellFormedExpr(g, NodeChoices()[k])
    {
      KqlQuery.TokenIsWellFormed(g, NodeChoices()[k]);
    }
    KqlQuery.ChoiceIsWellFormed(g, es);
  }

  // ----- groups -----

  function GroupExprs(): seq<KqlExpr> {
    [Labeled("k", ZeroOrOne(Key())), ZeroOrOne(ColonOrEqual()), Lit("("), Labeled("v", RuleRef(NodesRule)), Lit(")")]
  }

  lemma GroupIs()
    ensures Body(GroupNodeRule) == Action(Seq(GroupExprs()), BUILD_GROUP)
  {
    hide Key, ColonOrEqual;
  }

  lemma GroupBody(c: Conversions)
    ensures Body(GroupNodeRule) == Action(Seq(GroupExprs()), BUILD_GROUP)
    ensures WellFormedExpr(Kql(c), Seq(GroupExprs())) && WellFormedExpr(Kql(c), Action(Seq(GroupExprs()), BUILD_GROUP))
    ensures forall k :: 0 <= k < |GroupExprs()| ==> WellFormedExpr(Kql(c), GroupExprs()[k])
    ensures WellFormedExpr(Kql(c), RuleRef(NodesRule)) && WellFormedExpr(Kql(c), ZeroOrOne(Key()))
  {
    hide *;
    GroupIs();
    GroupWellFormed(Kql(c));
    ActionParts(Kql(c), Seq(GroupExprs()), BUILD_GROUP);
  }

  lemma GroupWellFormed(g: Grammar<Rule, Built>)
    ensures WellFormedExpr(g, Seq(GroupExprs())) && forall k :: 0 <= k < |GroupExprs()| ==> WellFormedExpr(g, GroupExprs()[k])
    ensures WellFormedExpr(g, RuleRef(NodesRule)) && WellFormedExpr(g, ZeroOrOne(Key()))
  {
    hide WellFormedExpr, Key, ColonOrEqual;
    KqlGrammar.GroupParts(g, GroupExprs());
    RefParts(g, NodesRule, "v");
    SeqMembers(g, GroupExprs());
    assert GroupExprs()[0] == Labeled("k", ZeroOrOne(Key()));
    LabeledMember(g, "k", ZeroOrOne(Key()));
  }

  /** The key of a group, if it has one. */
  lemma OptionalKey(c: Conversions, q: string, pos: nat)
    requires WellFormed(Kql(c)) && pos <= |q| && WellFormedExpr(Kql(c), Labeled("k", ZeroOrOne(Key())))
    requires Clean(Eval(Kql(c), q, GroupNodeRule, Labeled("k", ZeroOrOne(Key())), pos, map[], []))
    ensures var o := Eval(Kql(c), q, GroupNodeRule, Labeled("k", ZeroOrOne(Key())), pos, map[], []);
      var t := q[pos..o.pos];
      if t == "" then o.env == map["k" := Nil] else o.env == map["k" := Text(t)] && IsKey(t)
  {
    var g, r, e := Kql(c), GroupNodeRule, Key().expr;
    assert Key() == Action(e, RETURN_TEXT);
    LabeledMember(g, "k", ZeroOrOne(Key()));
    OptionMember(g, Key());
    ActionParts(g, e, RETURN_TEXT);
    hide WellFormed, WellFormedExpr, Key, Eval, Kql, IsKey;
    LabeledClean(g, q, r, "k", ZeroOrOne(Key()), pos, map[]);
    OptionClean(g, q, r, Key(), pos);
    var o := Eval(g, q, r, Key(), pos, map[], []);
    OnlyLabel("k", Nil);
    if o.Success? {
      ActionText(c, q, r, e, pos, map[], []);
      MatchIsCovered(g, q, r, Key(), pos, map[], []);
      KeyOf(q[pos..o.pos]);
      KeysAreThere(q[pos..o.pos]);
      OnlyLabel("k", o.val);
    }
  }

  lemma KeysAreThere(t: string)
    requires IsKey(t)
    ensures t != ""
  {}

  lemma OptionMember(g: Grammar<Rule, Built>, e: KqlExpr)
    requires WellFormedExpr(g, ZeroOrOne(e))
    ensures WellFormedExpr(g, e)
  {}

  lemma OptionClean(g: Grammar<Rule, Built>, q: string, rule: Rule, e: KqlExpr, pos: nat)
    requires WellFormed(g) && pos <= |q| && WellFormedExpr(g, e) && WellFormedExpr(g, ZeroOrOne(e))
    requires Clean(Eval(g, q, rule, ZeroOrOne(e), pos, map[], []))
    ensures var o, inner := Eval(g, q, rule, ZeroOrOne(e), pos, map[], []), Eval(g, q, rule, e, pos, map[], []);
      if inner.Success? then Clean(inner) && o.val == inner.val && o.pos == inner.pos else o.val == Nil && o.pos == pos
  {
    hide WellFormed, WellFormedExpr;
  }

  lemma OptionalSep(c: Conversions, q: string, pos: nat, env: Env<Built>)
    requires WellFormed(Kql(c)) && pos <= |q| && WellFormedExpr(Kql(c), ZeroOrOne(ColonOrEqual()))
    requires Clean(Eval(Kql(c), q, GroupNodeRule, ZeroOrOne(ColonOrEqual()), pos, env, []))
    ensures var o := Eval(Kql(c), q, GroupNodeRule, ZeroOrOne(ColonOrEqual()), pos, env, []);
      o.env == env && (q[pos..o.pos] == "" || Sep(q[pos..o.pos]))
  {
    var e := ZeroOrOne(ColonOrEqual());
    hide WellFormed, WellFormedExpr, Eval, Kql, ColonOrEqual;
    KeepsScope(Kql(c), q, GroupNodeRule, e, pos, env, []);
    MatchIsCovered(Kql(c), q, GroupNodeRule, e, pos, env, []);
    SepIs(q[pos..Eval(Kql(c), q, GroupNodeRule, e, pos, env, []).pos]);
  }

  lemma SepIs(t: string)
    requires Covers(ZeroOrOne(ColonOrEqual()), t)
    ensures t == "" || Sep(t)
  {
    if t != "" {
      assert Covers(Op(":"), t) || Covers(Op("="), t);
      if Covers(Op(":"), t) {
        LitOf(":", BUILD_OPERATOR, t);
      } else {
        LitOf("=", BUILD_OPERATOR, t);
      }
    }
  }

  /** What stands before the opening parenthesis. */
  lemma GroupHead(c: Conversions, q: string, rest: seq<KqlExpr>, pos: nat) returns (p1: nat, p2: nat, vals: seq<KqlValue>)
    requires var es := [Labeled("k", ZeroOrOne(Key()))] + ([ZeroOrOne(ColonOrEqual())] + rest);
      && WellFormed(Kql(c)) && pos <= |q| && (forall k :: 0 <= k < |es| ==> WellFormedExpr(Kql(c), es[k]))
      && (forall k :: 0 <= k < |rest| ==> WellFormedExpr(Kql(c), rest[k]))
      && WellFormedExpr(Kql(c), Labeled("k", ZeroOrOne(Key()))) && WellFormedExpr(Kql(c), ZeroOrOne(ColonOrEqual()))
      && Clean(EvalSeq(Kql(c), q, GroupNodeRule, es, pos, map[], [], []))
    ensures pos <= p1 <= p2 <= |q| && (q[pos..p1] == "" || IsKey(q[pos..p1])) && (q[p1..p2] == "" || Sep(q[p1..p2]))
    ensures EvalSeq(Kql(c), q, GroupNodeRule, rest, p2, KeyValue(q[pos..p1]), [], vals)
      == EvalSeq(Kql(c), q, GroupNodeRule, [Labeled("k", ZeroOrOne(Key()))] + ([ZeroOrOne(ColonOrEqual())] + rest), pos, map[], [], [])
  {
    hide WellFormed, WellFormedExpr, Eval, EvalSeq, Kql, Key, IsKey, ColonOrEqual, Sep;
    var g, r, key, sep := Kql(c), GroupNodeRule, Labeled("k", ZeroOrOne(Key())), ZeroOrOne(ColonOrEqual());
    assert ([key] + ([sep] + rest))[1..] == [sep] + rest;
    SeqClean(g, q, r, key, [sep] + rest, pos, map[], []);
    OptionalKey(c, q, pos);
    var o1 := Eval(g, q, r, key, pos, map[], []);
    p1 := o1.pos;
    SeqClean(g, q, r, sep, rest, p1, o1.env, [] + [o1.val]);
    OptionalSep(c, q, p1, o1.env);
    var o2 := Eval(g, q, r, sep, p1, o1.env, []);
    p2, vals := o2.pos, [] + [o1.val] + [o2.val];
  }

  function KeyValue(key: string): Env<Built> {
    map["k" := if key == "" then Nil else Text(key)]
  }

  /** The parenthesis, and what is in it. */
  lemma GroupTail(c: Conversions, q: string, pos: nat, env: Env<Built>, vals: seq<KqlValue>) returns (p: nat)
    requires var es := [Lit("(")] + ([Labeled("v", RuleRef(NodesRule))] + ([Lit(")")] + []));
      && WellFormed(Kql(c)) && pos <= |q| && (forall k :: 0 <= k < |es| ==> WellFormedExpr(Kql(c), es[k]))
      && WellFormedExpr(Kql(c), Lit("(")) && WellFormedExpr(Kql(c), Lit(")")) && WellFormedExpr(Kql(c), RuleRef(NodesRule))
      && WellFormedExpr(Kql(c), Labeled("v", RuleRef(NodesRule)))
      && Clean(EvalSeq(Kql(c), q, GroupNodeRule, es, pos, env, [], vals))
    ensures var o := EvalSeq(Kql(c), q, GroupNodeRule, [Lit("(")] + ([Labeled("v", RuleRef(NodesRule))] + ([Lit(")")] + [])), pos, env, [], vals);
      && pos < |q| && q[pos..pos + 1] == "(" && Clean(Eval(Kql(c), q, GroupNodeRule, RuleRef(NodesRule), pos + 1, map[], []))
      && Eval(Kql(c), q, GroupNodeRule, RuleRef(NodesRule), pos + 1, map[], []).pos == p && pos + 1 <= p < o.pos <= |q|
      && q[p..o.pos] == ")" && o.env == env["v" := Eval(Kql(c), q, GroupNodeRule, RuleRef(NodesRule), pos + 1, map[], []).val]
  {
    hide WellFormed, WellFormedExpr, Eval, EvalSeq, Kql;
    var g, r := Kql(c), GroupNodeRule;
    var left: KqlExpr, nodes: KqlExpr, right: KqlExpr := Lit("("), Labeled("v", RuleRef(NodesRule)), Lit(")");
    SeqClean(g, q, r, left, [nodes] + ([right] + []), pos, env, vals);
    ParenClean(g, q, "(", pos, env);
    var o1 := Eval(g, q, r, left, pos, env, []);
    SeqClean(g, q, r, nodes, [right] + [], o1.pos, env, vals + [o1.val]);
    LabeledClean(g, q, r, "v", RuleRef(NodesRule), o1.pos, env);
    var o2 := Eval(g, q, r, nodes, o1.pos, env, []);
    p := o2.pos;
    SeqClean(g, q, r, right, [], p, o2.env, vals + [o1.val] + [o2.val]);
    ParenClean(g, q, ")", p, o2.env);
    var o3 := Eval(g, q, r, right, p, o2.env, []);
    EvalNoSeq(g, q, r, o3.pos, o3.env, [], vals + [o1.val] + [o2.val] + [o3.val]);
  }

  lemma ParenClean(g: Grammar<Rule, Built>, q: string, val: string, pos: nat, env: Env<Built>)
    requires WellFormed(g) && pos <= |q| && WellFormedExpr(g, Lit(val)) && Clean(Eval(g, q, GroupNodeRule, Lit(val), pos, env, []))
    ensures var o := Eval(g, q, GroupNodeRule, Lit(val), pos, env, []); q[pos..o.pos] == val && o.env == env && o.pos == pos + |val|
  {
    hide WellFormed;
  }

  lemma {:induction false} GroupMeans(c: Conversions, q: string, pos: nat)
    requires WellFormed(Kql(c)) && pos <= |q| && WellFormedExpr(Kql(c), Body(GroupNodeRule))
    ensures Faithful(c, q, pos, Eval(Kql(c), q, GroupNodeRule, Body(GroupNodeRule), pos, map[], []))
    decreases |q| - pos, RuleRank(GroupNodeRule), 0
  {
    var g, es := Kql(c), GroupExprs();
    GroupBody(c);
    hide WellFormed, WellFormedExpr, Kql, Body, Means, Eval, EvalSeq, Key, ColonOrEqual, Run, IsKey, Sep, KeyValue;
    if Clean(Eval(g, q, GroupNodeRule, Body(GroupNodeRule), pos, map[], [])) {
      ActionClean(c, q, GroupNodeRule, Seq(es), BUILD_GROUP, pos);
      EvalIsSeq(g, q, GroupNodeRule, es, pos, map[], []);
      var o := Eval(g, q, GroupNodeRule, Seq(es), pos, map[], []);
      var p1, p2, p3 := GroupClean(c, q, pos);
      RefMeans(c, q, GroupNodeRule, NodesRule, p2 + 1);
      var v := Eval(g, q, GroupNodeRule, RuleRef(NodesRule), p2 + 1, map[], []).val;
      GroupText(q, pos, p1, p2, p3, o.pos);
      GroupBuilt(c, q[pos..p1], q[p1..p2], v, q[p2 + 1..p3], q[pos..o.pos]);
    }
  }

  lemma GroupClean(c: Conversions, q: string, pos: nat) returns (p1: nat, p2: nat, p3: nat)
    requires WellFormed(Kql(c)) && pos <= |q| && (forall k :: 0 <= k < |GroupExprs()| ==> WellFormedExpr(Kql(c), GroupExprs()[k]))
    requires WellFormedExpr(Kql(c), RuleRef(NodesRule)) && Clean(EvalSeq(Kql(c), q, GroupNodeRule, GroupExprs(), pos, map[], [], []))
    ensures var o := EvalSeq(Kql(c), q, GroupNodeRule, GroupExprs(), pos, map[], [], []);
      && pos <= p1 <= p2 < p2 + 1 <= p3 < o.pos <= |q| && (q[pos..p1] == "" || IsKey(q[pos..p1])) && (q[p1..p2] == "" || Sep(q[p1..p2]))
      && q[p2..p2 + 1] == "(" && q[p3..o.pos] == ")"
      && Clean(Eval(Kql(c), q, GroupNodeRule, RuleRef(NodesRule), p2 + 1, map[], []))
      && Eval(Kql(c), q, GroupNodeRule, RuleRef(NodesRule), p2 + 1, map[], []).pos == p3
      && o.env == KeyValue(q[pos..p1])["v" := Eval(Kql(c), q, GroupNodeRule, RuleRef(NodesRule), p2 + 1, map[], []).val]
  {
    hide WellFormed, WellFormedExpr, Eval, EvalSeq, Kql, Key, IsKey, ColonOrEqual, Sep, KeyValue;
    var key, sep := Labeled("k", ZeroOrOne(Key())), ZeroOrOne(ColonOrEqual());
    var rest := [Lit("(")] + ([Labeled("v", RuleRef(NodesRule))] + ([Lit(")")] + []));
    assert GroupExprs() == [key] + ([sep] + rest);
    assert GroupExprs()[0] == key && GroupExprs()[1] == sep && GroupExprs()[2] == Lit("(");
    assert GroupExprs()[3] == Labeled("v", RuleRef(NodesRule)) && GroupExprs()[4] == Lit(")");
    var vals: seq<KqlValue>;
    p1, p2, vals := GroupHead(c, q, rest, pos);
    p3 := GroupTail(c, q, p2, KeyValue(q[pos..p1]), vals);
  }

  lemma GroupText(q: string, pos: nat, p1: nat, p2: nat, p3: nat, end: nat)
    requires pos <= p1 <= p2 < p2 + 1 <= p3 <= end <= |q| && q[p2..p2 + 1] == "(" && q[p3..end] == ")"
    ensures q[pos..end] == q[pos..p1] + q[p1..p2] + "(" + q[p2 + 1..p3] + ")"
  {
    Slices(q, pos, p1, p2, end);
    Slices(q, p2, p2 + 1, p3, end);
  }

  lemma GroupBuilt(c: Conversions, key: string, sep: string, v: KqlValue, text: string, whole: string)
    requires (key == "" || IsKey(key)) && (sep == "" || Sep(sep)) && Means(c, v, text)
    requires whole == key + sep + "(" + text + ")"
    requires Run(c, BUILD_GROUP, KeyValue(key)["v" := v], whole).err.None?
    ensures Means(c, Run(c, BUILD_GROUP, KeyValue(key)["v" := v], whole).val, whole)
  {
    hide IsKey, Sep, AllProper, Run, ToNodes, GoodNodes;
    var items :| AllProper(c, items) && Sources(items) == text && AllNodes(items) != [] && ToNodes(v) == Some(AllNodes(items));
    GroupRun(c, key, v, whole, AllNodes(items));
    ProperAreQueries(c, items);
    hide Means, Validate.ConnectedQuery, Connect.Connected;
    GroupIsProper(c, key, sep, items);
    var n := GroupNode(key, Connect.Connected(OR, AllNodes(items)));
    OneNode(n);
    assert NodesOf(Group(key, sep, items)) == [n] && Source(Group(key, sep, items)) == whole;
    MeansItem(c, Run(c, BUILD_GROUP, KeyValue(key)["v" := v], whole).val, Group(key, sep, items), whole);
  }

  /** Validation lets only queries through. */
  lemma ProperAreQueries(c: Conversions, items: seq<Item>)
    requires AllProper(c, items) && AllNodes(items) != []
    ensures var nodes := Connect.Connected(OR, AllNodes(items));
      GoodNodes(nodes) && (Validate.ValidateOperators(nodes).None? ==> Validate.ConnectedQuery(nodes))
  {
    hide AllProper, GoodNodes, Validate.ConnectedQuery, Validate.Query;
    ProperIsGood(c, items);
    ConnectedIsGood(AllNodes(items));
    Validate.AcceptsExactlyQueries(OR, AllNodes(items));
  }

  lemma GroupIsProper(c: Conversions, key: string, sep: string, items: seq<Item>)
    requires (key == "" || IsKey(key)) && (sep == "" || Sep(sep)) && AllProper(c, items) && AllNodes(items) != []
    requires var nodes := Connect.Connected(OR, AllNodes(items));
      Validate.ConnectedQuery(nodes) && (key != "" ==> forall m <- nodes :: NodeKey(m) == "")
    ensures Proper(c, Group(key, sep, items))
  {
    hide IsKey, Sep, AllProper, AllNodes, Validate.ConnectedQuery, Connect.Connected;
  }

  lemma OneNode(n: Node)
    ensures ToNodes(Built(One(n))) == Some([n])
  {}

  lemma GroupRun(c: Conversions, key: string, v: KqlValue, whole: string, nodes: seq<Node>)
    requires ToNodes(v) == Some(nodes) && Run(c, BUILD_GROUP, KeyValue(key)["v" := v], whole).err.None?
    ensures var connected := Connect.Connected(OR, nodes);
      && Run(c, BUILD_GROUP, KeyValue(key)["v" := v], whole).val == Built(One(GroupNode(key, connected)))
      && Validate.ValidateOperators(connected).None? && (key != "" ==> forall m <- connected :: NodeKey(m) == "")
  {
    hide Connect.Connected;
  }

  // ----- the query -----

  lemma QueryParts(c: Conversions, q: string) returns (p: nat)
    requires var es := [Labeled("n", RuleRef(NodesRule)), Blank(), AtEOF()];
      WellFormed(Kql(c)) && WellFormedExpr(Kql(c), Seq(es)) && (forall k :: 0 <= k < |es| ==> WellFormedExpr(Kql(c), es[k]))
      && Clean(Eval(Kql(c), q, ASTRule, Seq(es), 0, map[], []))
    requires WellFormedExpr(Kql(c), RuleRef(NodesRule))
    ensures var es := [Labeled("n", RuleRef(NodesRule)), Blank(), AtEOF()];
      var o := Eval(Kql(c), q, ASTRule, RuleRef(NodesRule), 0, map[], []);
      && Clean(o) && o.pos == p <= |q| && Blanks(q[p..]) && Eval(Kql(c), q, ASTRule, Seq(es), 0, map[], []).env == map["n" := o.val]
  {
    var g, r := Kql(c), ASTRule;
    var nodes, blank, end := Labeled("n", RuleRef(NodesRule)), Blank(), AtEOF();
    assert [nodes, blank, end][0] == nodes && [nodes, blank, end][1] == blank && [nodes, blank, end][2] == end;
    hide *;
    assert [nodes, blank, end] == [nodes] + ([blank] + ([end] + []));
    EvalIsSeq(g, q, r, [nodes, blank, end], 0, map[], []);
    SeqClean(g, q, r, nodes, [blank] + ([end] + []), 0, map[], []);
    LabeledClean(g, q, r, "n", RuleRef(NodesRule), 0, map[]);
    var o1 := Eval(g, q, r, nodes, 0, map[], []);
    p := o1.pos;
    OnlyLabel("n", Eval(g, q, r, RuleRef(NodesRule), 0, map[], []).val);
    BehindNodes(c, q, p, o1.env, [] + [o1.val]);
  }

  lemma BehindNodes(c: Conversions, q: string, pos: nat, env: Env<Built>, vals: seq<KqlValue>)
    requires WellFormed(Kql(c)) && pos <= |q| && WellFormedExpr(Kql(c), Blank()) && WellFormedExpr(Kql(c), AtEOF())
    requires var es := [Blank()] + ([AtEOF()] + []);
      (forall k :: 0 <= k < |es| ==> WellFormedExpr(Kql(c), es[k])) && Clean(EvalSeq(Kql(c), q, ASTRule, es, pos, env, [], vals))
    ensures Blanks(q[pos..]) && EvalSeq(Kql(c), q, ASTRule, [Blank()] + ([AtEOF()] + []), pos, env, [], vals).env == env
  {
    var g, r := Kql(c), ASTRule;
    hide WellFormed, WellFormedExpr, Eval, EvalSeq, Kql, Blank, AtEOF, Blanks;
    SeqClean(g, q, r, Blank(), [AtEOF()] + [], pos, env, vals);
    SpaceClean(c, q, r, pos, env);
    var o1 := Eval(g, q, r, Blank(), pos, env, []);
    SeqClean(g, q, r, AtEOF(), [], o1.pos, env, vals + [o1.val]);
    EndIsEnd(g, q, o1.pos, env);
    var o2 := Eval(g, q, r, AtEOF(), o1.pos, env, []);
    EvalNoSeq(g, q, r, o2.pos, o2.env, [], vals + [o1.val] + [o2.val]);
    assert q[pos..|q|] == q[pos..];
  }

  lemma EndIsEnd(g: Grammar<Rule, Built>, q: string, pos: nat, env: Env<Built>)
    requires WellFormed(g) && pos <= |q| && WellFormedExpr(g, AtEOF()) && Clean(Eval(g, q, ASTRule, AtEOF(), pos, env, []))
    ensures pos == |q| && Eval(g, q, ASTRule, AtEOF(), pos, env, []).env == env
  {
    hide WellFormed, WellFormedExpr, Eval;
    EndOfInput(g, q, ASTRule, pos, env, []);
    KeepsScope(g, q, ASTRule, AtEOF(), pos, env, []);
  }

  lemma QueryRun(c: Conversions, v: KqlValue, nodes: seq<Node>, text: string)
    requires ToNodes(v) == Some(nodes) && Run(c, BUILD_AST, map["n" := v], text).err.None?
    ensures var connected := Connect.Connected(OR, nodes);
      && Run(c, BUILD_AST, map["n" := v], text).val == Built(Query(connected)) && Validate.ValidateOperators(connected).None?
  {
    hide Connect.Connected;
  }

  /** Whatever query is accepted, is spelled, from its first to its last rune, like items of the
      concrete syntax whose nodes, connected, are the result. */
  lemma AcceptedIsWritten(c: Conversions, q: string) returns (items: seq<Item>)
    requires KqlQuery.Build(c, q).Some?
    ensures AllProper(c, items) && Sources(items) == q && AllNodes(items) != []
    ensures KqlQuery.Build(c, q) == Some(Connect.Connected(OR, AllNodes(items)))
    ensures Validate.ValidateOperators(Connect.Connected(OR, AllNodes(items))).None?
  {
    var es := [Labeled("n", RuleRef(NodesRule)), Blank(), AtEOF()];
    KqlIsWellFormed(c);
    KqlQuery.ASTParts(c);
    BodyOf(c, NodesRule);
    hide WellFormed, WellFormedExpr, Kql, Body, Eval, EvalSeq, Blank, Run, AllProper, Blanks, ToNodes;
    ActionClean(c, q, ASTRule, Seq(es), BUILD_AST, 0);
    var inner := Eval(Kql(c), q, ASTRule, Seq(es), 0, map[], []);
    var p := QueryParts(c, q);
    RefMeans(c, q, ASTRule, NodesRule, 0);
    var v := Eval(Kql(c), q, ASTRule, RuleRef(NodesRule), 0, map[], []).val;
    var shorter :| AllProper(c, shorter) && Sources(shorter) == q[0..p] && AllNodes(shorter) != [] && ToNodes(v) == Some(AllNodes(shorter));
    QueryRun(c, v, AllNodes(shorter), q[0..inner.pos]);
    hide *;
    items := BlanksBehind(c, q, p, shorter);
  }

  lemma BlanksBehind(c: Conversions, q: string, p: nat, shorter: seq<Item>) returns (items: seq<Item>)
    requires p <= |q| && AllProper(c, shorter) && Sources(shorter) == q[0..p] && Blanks(q[p..])
    ensures AllProper(c, items) && Sources(items) == q && AllNodes(items) == AllNodes(shorter)
  {
    hide AllProper, Sources, AllNodes, Blanks;
    items := shorter + [Space(q[p..])];
    SpaceItem(c, q[p..]);
    Appended(c, shorter, [Space(q[p..])]);
    assert q[0..p] + q[p..] == q && AllNodes(shorter) + [] == AllNodes(shorter);
  }

  /** In whatever query is accepted, one binary operator stands between any two consecutive
      operands, at the top and in every group, and no group with a key holds a node with one. */
  lemma AcceptedIsConnected(c: Conversions, q: string)
    ensures var nodes := KqlQuery.Build(c, q);
      nodes.Some? ==> Validate.ConnectedQuery(nodes.value) && GoodNodes(nodes.value)
  {
    if KqlQuery.Build(c, q).Some? {
      var items := AcceptedIsWritten(c, q);
      hide *;
      ProperAreQueries(c, items);
    }
  }
}
