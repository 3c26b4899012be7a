/** Each alternative of the grammar's Node rule that is not a group: whatever it matches is spelled
    like an item of the concrete syntax, and the nodes it builds are those of that item. */
module KqlRestrictions {
  import opened Ast
  import opened Peg
  import opened PegLaws
  import opened KqlGrammar
  import opened KqlClean
  import opened KqlSyntax
  import KqlStrings

  /** The value stands for items that are spelled like the text. */
  ghost predicate Means(c: Conversions, v: KqlValue, text: string) {
    exists items :: AllProper(c, items) && Sources(items) == text && AllNodes(items) != [] && ToNodes(v) == Some(AllNodes(items))
  }

  lemma MeansItem(c: Conversions, v: KqlValue, i: Item, text: string)
    requires Proper(c, i) && NodesOf(i) != [] && ToNodes(v) == Some(NodesOf(i)) && Source(i) == text
    ensures Means(c, v, text)
  {
    hide Proper, Source, NodesOf, ToNodes;
    Single(c, i);
    assert AllProper(c, [i]);
  }

  lemma Slices(q: string, a: nat, b: nat, c: nat, d: nat)
    requires a <= b <= c <= d <= |q|
    ensures q[a..d] == q[a..b] + q[b..c] + q[c..d]
  {}

  // ----- well-formed parts -----

  lemma SeqMembers(g: Grammar<Rule, Built>, es: seq<KqlExpr>)
    requires WellFormedExpr(g, Seq(es))
    ensures forall k :: 0 <= k < |es| ==> WellFormedExpr(g, es[k])
  {}

  lemma LabeledMember(g: Grammar<Rule, Built>, name: string, e: KqlExpr)
    requires WellFormedExpr(g, Labeled(name, e))
    ensures WellFormedExpr(g, e)
  {}

  lemma ActionMembers(g: Grammar<Rule, Built>, es: seq<KqlExpr>, run: nat)
    requires WellFormedExpr(g, Action(Seq(es), run))
    ensures WellFormedExpr(g, Seq(es)) && forall k :: 0 <= k < |es| ==> WellFormedExpr(g, es[k])
  {}

  // ----- keys and operators -----

  function KeyEnv(key: string): Env<Built> {
    map["k" := Text(key)]
  }

  lemma KeyClean(c: Conversions, q: string, pos: nat)
    requires WellFormed(Kql(c)) && pos <= |q| && WellFormedExpr(Kql(c), Labeled("k", Key()))
    requires Clean(Eval(Kql(c), q, NodeRule, Labeled("k", Key()), pos, map[], []))
    ensures var o := Eval(Kql(c), q, NodeRule, Labeled("k", Key()), pos, map[], []);
      o.env == KeyEnv(q[pos..o.pos]) && IsKey(q[pos..o.pos])
  {
    var g, e := Kql(c), Key().expr;
    assert Key() == Action(e, RETURN_TEXT);
    LabeledMember(g, "k", Key());
    ActionParts(g, e, RETURN_TEXT);
    hide WellFormed, WellFormedExpr, Key, Eval, Kql, IsKey;
    LabeledClean(g, q, NodeRule, "k", Key(), pos, map[]);
    ActionText(c, q, NodeRule, e, pos, map[], []);
    MatchIsCovered(g, q, NodeRule, Key(), pos, map[], []);
    KeyOf(q[pos..Eval(g, q, NodeRule, Key(), pos, map[], []).pos]);
    var env: Env<Built> := map[];
    forall v: KqlValue ensures env["k" := v] == map["k" := v] {}
  }

  /** The operators that restrictions use; the sign operators have names of their own. */
  predicate PlainOp(t: string) {
    t in [">=", "<=", ">", "<", "=", ":"]
  }

  lemma OpClean(c: Conversions, q: string, t: string, pos: nat, env: Env<Built>)
    requires WellFormed(Kql(c)) && pos <= |q| && WellFormedExpr(Kql(c), Op(t)) && PlainOp(t)
    requires Clean(Eval(Kql(c), q, NodeRule, Op(t), pos, env, []))
    ensures var o := Eval(Kql(c), q, NodeRule, Op(t), pos, env, []);
      q[pos..o.pos] == t && o.env == env && o.val == Built(One(OperatorNode(t, false)))
  {
    hide WellFormed, WellFormedExpr;
  }

  /** A choice among operators. */
  lemma OpsClean(c: Conversions, q: string, es: seq<KqlExpr>, ts: seq<string>, pos: nat, env: Env<Built>) returns (t: string)
    requires WellFormed(Kql(c)) && pos <= |q| && WellFormedExpr(Kql(c), Choice(es))
    requires |es| == |ts| && forall k :: 0 <= k < |es| ==> es[k] == Op(ts[k]) && PlainOp(ts[k])
    requires Clean(Eval(Kql(c), q, NodeRule, Choice(es), pos, env, []))
    ensures var o := Eval(Kql(c), q, NodeRule, Choice(es), pos, env, []);
      t in ts && q[pos..o.pos] == t && o.env == env && o.val == Built(One(OperatorNode(t, false)))
  {
    EvalIsChoice(Kql(c), q, NodeRule, es, pos, env, []);
    hide WellFormed, WellFormedExpr, Eval, EvalChoice, Kql, Op;
    KeepsScope(Kql(c), q, NodeRule, Choice(es), pos, env, []);
    var k := ChoiceClean(Kql(c), q, NodeRule, es, pos, env);
    t := ts[k];
    OpClean(c, q, t, pos, map[]);
  }

  /** A restriction is a key, an operator and a value, and sometimes more. */
  lemma KeyedClean(c: Conversions, q: string, m: KqlExpr, v: KqlExpr, rest: seq<KqlExpr>, pos: nat)
    returns (p1: nat, p2: nat, vals: seq<KqlValue>)
    requires var es := [Labeled("k", Key())] + ([m] + ([Labeled("v", v)] + rest));
      && WellFormed(Kql(c)) && pos <= |q| && (forall k :: 0 <= k < |es| ==> WellFormedExpr(Kql(c), es[k]))
      && (forall k :: 0 <= k < |rest| ==> WellFormedExpr(Kql(c), rest[k]))
      && WellFormedExpr(Kql(c), m) && WellFormedExpr(Kql(c), Labeled("v", v)) && WellFormedExpr(Kql(c), v)
      && WellFormedExpr(Kql(c), Labeled("k", Key()))
      && Clean(EvalSeq(Kql(c), q, NodeRule, es, pos, map[], [], []))
    ensures pos <= p1 <= p2 <= |q| && IsKey(q[pos..p1])
    ensures var om := Eval(Kql(c), q, NodeRule, m, p1, KeyEnv(q[pos..p1]), []);
      var ov := Eval(Kql(c), q, NodeRule, v, p2, map[], []);
      && Clean(om) && om.pos == p2 && Clean(ov)
      && EvalSeq(Kql(c), q, NodeRule, rest, ov.pos, om.env["v" := ov.val], [], vals)
      == EvalSeq(Kql(c), q, NodeRule, [Labeled("k", Key())] + ([m] + ([Labeled("v", v)] + rest)), pos, map[], [], [])
  {
    hide WellFormed, WellFormedExpr, Eval, EvalSeq, Kql, Key, IsKey;
    var g, r, lk, lv := Kql(c), NodeRule, Labeled("k", Key()), Labeled("v", v);
    assert [lv] + rest == ([m] + ([lv] + rest))[1..];
    SeqClean(g, q, r, lk, [m] + ([lv] + rest), pos, map[], []);
    KeyClean(c, q, pos);
    var o1 := Eval(g, q, r, lk, pos, map[], []);
    p1 := o1.pos;
    SeqClean(g, q, r, m, [lv] + rest, p1, o1.env, [] + [o1.val]);
    var o2 := Eval(g, q, r, m, p1, o1.env, []);
    p2 := o2.pos;
    SeqClean(g, q, r, lv, rest, p2, o2.env, [] + [o1.val] + [o2.val]);
    LabeledClean(g, q, r, "v", v, p2, o2.env);
    var o3 := Eval(g, q, r, lv, p2, o2.env, []);
    vals := [] + [o1.val] + [o2.val] + [o3.val];
  }

  /** A restriction of exactly three parts, with its action. */
  lemma RestrictionClean(c: Conversions, q: string, m: KqlExpr, v: KqlExpr, run: nat, pos: nat) returns (p1: nat, p2: nat)
    requires var e := Action(Seq([Labeled("k", Key()), m, Labeled("v", v)]), run);
      WellFormed(Kql(c)) && pos <= |q| && WellFormedExpr(Kql(c), e) && Clean(Eval(Kql(c), q, NodeRule, e, pos, map[], []))
    ensures WellFormedExpr(Kql(c), m) && WellFormedExpr(Kql(c), v)
    ensures pos <= p1 <= p2 <= |q| && IsKey(q[pos..p1])
    ensures var om := Eval(Kql(c), q, NodeRule, m, p1, KeyEnv(q[pos..p1]), []);
      var ov := Eval(Kql(c), q, NodeRule, v, p2, map[], []);
      var o := Eval(Kql(c), q, NodeRule, Action(Seq([Labeled("k", Key()), m, Labeled("v", v)]), run), pos, map[], []);
      && Clean(om) && om.pos == p2 && Clean(ov) && ov.pos == o.pos
      && Run(c, run, om.env["v" := ov.val], q[pos..o.pos]) == Returned(o.val, None)
  {
    var es := [Labeled("k", Key()), m, Labeled("v", v)];
    hide WellFormed, WellFormedExpr, Eval, EvalSeq, Kql, Key, IsKey, Run;
    ActionMembers(Kql(c), es, run);
    assert es[0] == Labeled("k", Key()) && es[1] == m && es[2] == Labeled("v", v);
    LabeledMember(Kql(c), "v", v);
    ActionClean(c, q, NodeRule, Seq(es), run, pos);
    EvalIsSeq(Kql(c), q, NodeRule, es, pos, map[], []);
    assert es == [Labeled("k", Key())] + ([m] + ([Labeled("v", v)] + []));
    var vals: seq<KqlValue>;
    p1, p2, vals := KeyedClean(c, q, m, v, [], pos);
    var om := Eval(Kql(c), q, NodeRule, m, p1, KeyEnv(q[pos..p1]), []);
    var ov := Eval(Kql(c), q, NodeRule, v, p2, map[], []);
    EvalNoSeq(Kql(c), q, NodeRule, ov.pos, om.env["v" := ov.val], [], vals);
  }

  // ----- text values -----

  lemma WordClean(c: Conversions, q: string, of: string, pos: nat)
    requires WellFormed(Kql(c)) && pos <= |q| && WellFormedExpr(Kql(c), OneOrMore(NoneOf(of)))
    requires Clean(Eval(Kql(c), q, NodeRule, OneOrMore(NoneOf(of)), pos, map[], []))
    ensures var o := Eval(Kql(c), q, NodeRule, OneOrMore(NoneOf(of)), pos, map[], []);
      ToString(o.val) == Some(q[pos..o.pos]) && Free(q[pos..o.pos], of)
  {
    var e := OneOrMore(NoneOf(of));
    assert Textual(e);
    hide WellFormed, WellFormedExpr, Eval, Kql, Free;
    TextOf(c, q, NodeRule, e, pos, map[], []);
    MatchIsCovered(Kql(c), q, NodeRule, e, pos, map[], []);
    FreeOf(of, q[pos..Eval(Kql(c), q, NodeRule, e, pos, map[], []).pos]);
  }

  lemma QuotedClean(c: Conversions, q: string, pos: nat)
    requires WellFormed(Kql(c)) && pos <= |q| && WellFormedExpr(Kql(c), String())
    requires Clean(Eval(Kql(c), q, NodeRule, String(), pos, map[], []))
    ensures var o := Eval(Kql(c), q, NodeRule, String(), pos, map[], []);
      o.val.Text? && q[pos..o.pos] == KqlStrings.Quote(o.val.text) && ToString(o.val) == Some(o.val.text)
  {
    hide WellFormed, WellFormedExpr, Eval, Kql, String;
    KqlStrings.StringBackward(c, q, NodeRule, pos, map[], []);
  }

  /** What stands behind `key=` or `key:`. */
  lemma WrittenClean(c: Conversions, q: string, pos: nat) returns (w: Written)
    requires var e := Choice([String(), OneOrMore(NoneOf(" ()\""))]);
      WellFormed(Kql(c)) && pos <= |q| && WellFormedExpr(Kql(c), e) && Clean(Eval(Kql(c), q, NodeRule, e, pos, map[], []))
    ensures var o := Eval(Kql(c), q, NodeRule, Choice([String(), OneOrMore(NoneOf(" ()\""))]), pos, map[], []);
      q[pos..o.pos] == Spelled(w) && ToString(o.val) == Some(w.value) && (w.Bare? ==> Free(w.value, " ()\""))
  {
    var es := [String(), OneOrMore(NoneOf(" ()\""))];
    EvalIsChoice(Kql(c), q, NodeRule, es, pos, map[], []);
    hide WellFormed, WellFormedExpr, Eval, EvalChoice, Kql, String, NoneOf, ToString, Free;
    var k := ChoiceClean(Kql(c), q, NodeRule, es, pos, map[]);
    var o := Eval(Kql(c), q, NodeRule, es[k], pos, map[], []);
    if k == 0 {
      assert es[k] == String();
      QuotedClean(c, q, pos);
      w := InQuotes(o.val.text);
    } else {
      assert es[k] == OneOrMore(NoneOf(" ()\""));
      WordClean(c, q, " ()\"", pos);
      w := Bare(q[pos..o.pos]);
    }
  }

  /** `key=value` and `key:value`. */
  lemma KeyedTextMeans(c: Conversions, q: string, op: string, run: nat, pos: nat)
    requires (op == "=" && run == BUILD_EXACT_STRING) || (op == ":" && run == BUILD_STRING)
    requires WellFormed(Kql(c)) && pos <= |q| && WellFormedExpr(Kql(c), TextRestriction(op, run))
    requires Clean(Eval(Kql(c), q, NodeRule, TextRestriction(op, run), pos, map[], []))
    ensures var o := Eval(Kql(c), q, NodeRule, TextRestriction(op, run), pos, map[], []); Means(c, o.val, q[pos..o.pos])
  {
    var v := Choice([String(), OneOrMore(NoneOf(" ()\""))]);
    assert TextRestriction(op, run) == Action(Seq([Labeled("k", Key()), Op(op), Labeled("v", v)]), run);
    hide WellFormed, WellFormedExpr, Eval, Kql, Key, IsKey, Op, String, NoneOf, TextRestriction, ToString, Free, Means, Source;
    var p1, p2 := RestrictionClean(c, q, Op(op), v, run, pos);
    OpClean(c, q, op, p1, KeyEnv(q[pos..p1]));
    var w := WrittenClean(c, q, p2);
    var o := Eval(Kql(c), q, NodeRule, TextRestriction(op, run), pos, map[], []);
    Slices(q, pos, p1, p2, o.pos);
    KeyedTextBuilt(c, q[pos..p1], op, run, w, Eval(Kql(c), q, NodeRule, v, p2, map[], []).val, q[pos..o.pos]);
  }

  lemma KeyedTextBuilt(c: Conversions, key: string, op: string, run: nat, w: Written, v: KqlValue, text: string)
    requires (op == "=" && run == BUILD_EXACT_STRING) || (op == ":" && run == BUILD_STRING)
    requires IsKey(key) && ToString(v) == Some(w.value) && (w.Bare? ==> Free(w.value, " ()\"")) && text == key + op + Spelled(w)
    ensures Means(c, Run(c, run, KeyEnv(key)["v" := v], text).val, text)
  {
    hide IsKey, Free, Means, AllProper;
    MeansItem(c, Run(c, run, KeyEnv(key)["v" := v], text).val, Keyed(key, op, w), text);
  }

  // ----- whole values: moments, periods and numbers -----

  function InQuotesExprs(e: KqlExpr): seq<KqlExpr> {
    [Lit("\""), Labeled("v", e), Lit("\""), Not(Lit("\""))]
  }

  function UnquotedExprs(e: KqlExpr): seq<KqlExpr> {
    [Labeled("v", e), ValueEnd()]
  }

  lemma LitClean(c: Conversions, q: string, val: string, pos: nat, env: Env<Built>)
    requires WellFormed(Kql(c)) && pos <= |q| && WellFormedExpr(Kql(c), Lit(val))
    requires Clean(Eval(Kql(c), q, NodeRule, Lit(val), pos, env, []))
    ensures var o := Eval(Kql(c), q, NodeRule, Lit(val), pos, env, []); q[pos..o.pos] == val && o.env == env && o.pos == pos + |val|
  {
    hide WellFormed;
  }

  /** Lookahead takes nothing. */
  lemma EndClean(c: Conversions, q: string, e: KqlExpr, pos: nat, env: Env<Built>)
    requires WellFormed(Kql(c)) && pos <= |q| && WellFormedExpr(Kql(c), e) && (e.Not? || e == ValueEnd())
    requires Clean(Eval(Kql(c), q, NodeRule, e, pos, env, []))
    ensures var o := Eval(Kql(c), q, NodeRule, e, pos, env, []); o.pos == pos && o.env == env
  {
    hide WellFormed, WellFormedExpr, Eval, Kql;
    MatchIsCovered(Kql(c), q, NodeRule, e, pos, env, []);
    KeepsScope(Kql(c), q, NodeRule, e, pos, env, []);
    var t := q[pos..Eval(Kql(c), q, NodeRule, e, pos, env, []).pos];
    assert t == "";
  }

  lemma InQuotesClean(c: Conversions, q: string, e: KqlExpr, pos: nat) returns (p: nat)
    requires WellFormed(Kql(c)) && pos <= |q| && WellFormedExpr(Kql(c), Action(Seq(InQuotesExprs(e)), RETURN_V))
    requires Clean(Eval(Kql(c), q, NodeRule, Action(Seq(InQuotesExprs(e)), RETURN_V), pos, map[], []))
    ensures WellFormedExpr(Kql(c), e)
    ensures var o := Eval(Kql(c), q, NodeRule, Action(Seq(InQuotesExprs(e)), RETURN_V), pos, map[], []);
      && pos + 1 <= p <= o.pos && Clean(Eval(Kql(c), q, NodeRule, e, pos + 1, map[], []))
      && Eval(Kql(c), q, NodeRule, e, pos + 1, map[], []).val == o.val && Eval(Kql(c), q, NodeRule, e, pos + 1, map[], []).pos == p
      && o.pos == p + 1 && q[pos..pos + 1] == "\"" && q[p..p + 1] == "\""
  {
    var g, r, es := Kql(c), NodeRule, InQuotesExprs(e);
    var quote: KqlExpr := Lit("\"");
    var value, end := Labeled("v", e), Not(quote);
    hide WellFormed, WellFormedExpr, Eval, EvalSeq, Kql, Run;
    ActionMembers(g, es, RETURN_V);
    assert es[0] == es[2] == quote && es[1] == value && es[3] == end;
    LabeledMember(g, "v", e);
    ActionClean(c, q, r, Seq(es), RETURN_V, pos);
    EvalIsSeq(g, q, r, es, pos, map[], []);
    assert es == [quote] + ([value] + ([quote] + ([end] + [])));
    SeqClean(g, q, r, quote, [value] + ([quote] + ([end] + [])), pos, map[], []);
    LitClean(c, q, "\"", pos, map[]);
    var o1 := Eval(g, q, r, quote, pos, map[], []);
    SeqClean(g, q, r, value, [quote] + ([end] + []), o1.pos, o1.env, [] + [o1.val]);
    LabeledClean(g, q, r, "v", e, o1.pos, o1.env);
    var o2 := Eval(g, q, r, value, o1.pos, o1.env, []);
    p := o2.pos;
    SeqClean(g, q, r, quote, [end] + [], p, o2.env, [] + [o1.val] + [o2.val]);
    LitClean(c, q, "\"", p, o2.env);
    var o3 := Eval(g, q, r, quote, p, o2.env, []);
    SeqClean(g, q, r, end, [], o3.pos, o3.env, [] + [o1.val] + [o2.val] + [o3.val]);
    EndClean(c, q, end, o3.pos, o3.env);
    var o4 := Eval(g, q, r, end, o3.pos, o3.env, []);
    EvalNoSeq(g, q, r, o4.pos, o4.env, [], [] + [o1.val] + [o2.val] + [o3.val] + [o4.val]);
    ReturnsV(c, o4.env, q[pos..o4.pos]);
  }

  lemma ReturnsV(c: Conversions, env: Env<Built>, text: string)
    requires "v" in env
    ensures Run(c, RETURN_V, env, text) == Returned(env["v"], None)
  {}

  lemma UnquotedClean(c: Conversions, q: string, e: KqlExpr, pos: nat)
    requires WellFormed(Kql(c)) && pos <= |q| && WellFormedExpr(Kql(c), Action(Seq(UnquotedExprs(e)), RETURN_V))
    requires Clean(Eval(Kql(c), q, NodeRule, Action(Seq(UnquotedExprs(e)), RETURN_V), pos, map[], []))
    ensures WellFormedExpr(Kql(c), e)
    ensures var o, inner := Eval(Kql(c), q, NodeRule, Action(Seq(UnquotedExprs(e)), RETURN_V), pos, map[], []),
                            Eval(Kql(c), q, NodeRule, e, pos, map[], []);
      Clean(inner) && inner.val == o.val && inner.pos == o.pos
  {
    var g, r, es := Kql(c), NodeRule, UnquotedExprs(e);
    var value, end := Labeled("v", e), ValueEnd();
    hide WellFormed, WellFormedExpr, Eval, EvalSeq, Kql, Run, ValueEnd;
    ActionMembers(g, es, RETURN_V);
    assert es[0] == value && es[1] == end;
    LabeledMember(g, "v", e);
    ActionClean(c, q, r, Seq(es), RETURN_V, pos);
    EvalIsSeq(g, q, r, es, pos, map[], []);
    assert es == [value] + ([end] + []);
    SeqClean(g, q, r, value, [end] + [], pos, map[], []);
    LabeledClean(g, q, r, "v", e, pos, map[]);
    var o1 := Eval(g, q, r, value, pos, map[], []);
    SeqClean(g, q, r, end, [], o1.pos, o1.env, [] + [o1.val]);
    EndClean(c, q, end, o1.pos, o1.env);
    var o2 := Eval(g, q, r, end, o1.pos, o1.env, []);
    EvalNoSeq(g, q, r, o2.pos, o2.env, [], [] + [o1.val] + [o2.val]);
    ReturnsV(c, o2.env, q[pos..o2.pos]);
  }

  lemma WholeShape(e: KqlExpr)
    ensures WholeValue(e) == Choice([Action(Seq(InQuotesExprs(e)), RETURN_V), Action(Seq(UnquotedExprs(e)), RETURN_V)])
  {}

  lemma ChoiceMembers(g: Grammar<Rule, Built>, es: seq<KqlExpr>)
    requires WellFormedExpr(g, Choice(es))
    ensures forall k :: 0 <= k < |es| ==> WellFormedExpr(g, es[k])
  {}

  /** A whole value is its text, quoted or not. */
  lemma WholeClean(c: Conversions, q: string, e: KqlExpr, pos: nat) returns (quoted: bool, text: string)
    requires WellFormed(Kql(c)) && pos <= |q| && WellFormedExpr(Kql(c), WholeValue(e)) && Textual(e)
    requires Clean(Eval(Kql(c), q, NodeRule, WholeValue(e), pos, map[], []))
    ensures var o := Eval(Kql(c), q, NodeRule, WholeValue(e), pos, map[], []);
      q[pos..o.pos] == MaybeQuoted(quoted, text) && ToString(o.val) == Some(text) && Covers(e, text)
  {
    var g, r := Kql(c), NodeRule;
    var es := [Action(Seq(InQuotesExprs(e)), RETURN_V), Action(Seq(UnquotedExprs(e)), RETURN_V)];
    hide WellFormed, WellFormedExpr, Eval, EvalChoice, Kql, Textual, Covers, ToString, ValueEnd, WholeValue, InQuotesExprs, UnquotedExprs;
    WholeShape(e);
    ChoiceMembers(g, es);
    EvalIsChoice(g, q, r, es, pos, map[], []);
    var k := ChoiceClean(g, q, r, es, pos, map[]);
    var o := Eval(g, q, r, es[k], pos, map[], []);
    if k == 0 {
      var p := InQuotesClean(c, q, e, pos);
      quoted, text := true, q[pos + 1..p];
      TextOf(c, q, r, e, pos + 1, map[], []);
      MatchIsCovered(g, q, r, e, pos + 1, map[], []);
      Slices(q, pos, pos + 1, p, o.pos);
    } else {
      UnquotedClean(c, q, e, pos);
      quoted, text := false, q[pos..o.pos];
      TextOf(c, q, r, e, pos, map[], []);
      MatchIsCovered(g, q, r, e, pos, map[], []);
    }
  }

  lemma ValuesAreTextual()
    ensures Textual(AnyDateTime()) && Textual(NaturalLanguage()) && Textual(Number())
  {}

  const COMPARISONS := [">=", "<=", ">", "<"]
  const COMPARISONS_AND_EQUALS := [">=", "<=", ">", "<", "=", ":"]

  function OpsOf(ts: seq<string>): seq<KqlExpr> {
    seq(|ts|, i requires 0 <= i < |ts| => Op(ts[i]))
  }

  /** The operator under the label `o`. */
  lemma LabeledOpClean(c: Conversions, q: string, ts: seq<string>, pos: nat, env: Env<Built>) returns (t: string)
    requires WellFormed(Kql(c)) && pos <= |q| && WellFormedExpr(Kql(c), Labeled("o", Choice(OpsOf(ts))))
    requires forall k :: 0 <= k < |ts| ==> PlainOp(ts[k])
    requires Clean(Eval(Kql(c), q, NodeRule, Labeled("o", Choice(OpsOf(ts))), pos, env, []))
    ensures var o := Eval(Kql(c), q, NodeRule, Labeled("o", Choice(OpsOf(ts))), pos, env, []);
      t in ts && q[pos..o.pos] == t && o.env == env["o" := Built(One(OperatorNode(t, false)))]
  {
    hide WellFormed, WellFormedExpr, Eval, Kql, Op, PlainOp;
    LabeledMember(Kql(c), "o", Choice(OpsOf(ts)));
    LabeledClean(Kql(c), q, NodeRule, "o", Choice(OpsOf(ts)), pos, env);
    t := OpsClean(c, q, OpsOf(ts), ts, pos, map[]);
  }

  function ComparedEnv(key: string, op: string, v: KqlValue): Env<Built> {
    KeyEnv(key)["o" := Built(One(OperatorNode(op, false)))]["v" := v]
  }

  /** `key<value` with a whole value. */
  lemma ComparisonClean(c: Conversions, q: string, ts: seq<string>, e: KqlExpr, run: nat, pos: nat)
    returns (key: string, op: string, quoted: bool, text: string, v: KqlValue)
    requires var r := Action(Seq([Labeled("k", Key()), Labeled("o", Choice(OpsOf(ts))), Labeled("v", WholeValue(e))]), run);
      WellFormed(Kql(c)) && pos <= |q| && WellFormedExpr(Kql(c), r) && Clean(Eval(Kql(c), q, NodeRule, r, pos, map[], []))
    requires Textual(e) && forall k :: 0 <= k < |ts| ==> PlainOp(ts[k])
    ensures var r := Action(Seq([Labeled("k", Key()), Labeled("o", Choice(OpsOf(ts))), Labeled("v", WholeValue(e))]), run);
      var o := Eval(Kql(c), q, NodeRule, r, pos, map[], []);
      && IsKey(key) && op in ts && Covers(e, text) && ToString(v) == Some(text)
      && q[pos..o.pos] == key + op + MaybeQuoted(quoted, text)
      && Run(c, run, ComparedEnv(key, op, v), q[pos..o.pos]) == Returned(o.val, None)
  {
    hide WellFormed, WellFormedExpr, Eval, Kql, Key, IsKey, Op, WholeValue, Textual, Covers, ToString, Run, PlainOp, MaybeQuoted;
    var m, value := Labeled("o", Choice(OpsOf(ts))), WholeValue(e);
    var p1, p2 := RestrictionClean(c, q, m, value, run, pos);
    key := q[pos..p1];
    op := LabeledOpClean(c, q, ts, p1, KeyEnv(key));
    quoted, text := WholeClean(c, q, e, p2);
    v := Eval(Kql(c), q, NodeRule, value, p2, map[], []).val;
    var r := Action(Seq([Labeled("k", Key()), m, Labeled("v", value)]), run);
    Slices(q, pos, p1, p2, Eval(Kql(c), q, NodeRule, r, pos, map[], []).pos);
  }

  lemma MomentMeans(c: Conversions, q: string, pos: nat)
    requires WellFormed(Kql(c)) && pos <= |q| && WellFormedExpr(Kql(c), DateTimeRestriction())
    requires Clean(Eval(Kql(c), q, NodeRule, DateTimeRestriction(), pos, map[], []))
    ensures var o := Eval(Kql(c), q, NodeRule, DateTimeRestriction(), pos, map[], []); Means(c, o.val, q[pos..o.pos])
  {
    var ts := COMPARISONS_AND_EQUALS;
    OpsAre();
    ValuesAreTextual();
    hide WellFormed, WellFormedExpr, Eval, Kql, Key, IsKey, Op, WholeValue, Textual, Covers, ToString, Run, AnyDateTime, Means, OpsOf;
    var r := Action(Seq([Labeled("k", Key()), Labeled("o", Choice(OpsOf(ts))), Labeled("v", WholeValue(AnyDateTime()))]), BUILD_DATE_TIME);
    assert DateTimeRestriction() == r;
    var key, op, quoted, text, v := ComparisonClean(c, q, ts, AnyDateTime(), BUILD_DATE_TIME, pos);
    MomentOf(text);
    var o := Eval(Kql(c), q, NodeRule, r, pos, map[], []);
    MomentBuilt(c, key, op, quoted, text, v, q[pos..o.pos]);
  }

  lemma OpsAre()
    ensures OpsOf(COMPARISONS) == [Op(">="), Op("<="), Op(">"), Op("<")]
    ensures OpsOf(COMPARISONS_AND_EQUALS) == [Op(">="), Op("<="), Op(">"), Op("<"), Op("="), Op(":")]
    ensures forall k :: 0 <= k < |COMPARISONS| ==> PlainOp(COMPARISONS[k])
    ensures forall k :: 0 <= k < |COMPARISONS_AND_EQUALS| ==> PlainOp(COMPARISONS_AND_EQUALS[k])
  {
    hide Op;
  }

  lemma MomentBuilt(c: Conversions, key: string, op: string, quoted: bool, text: string, v: KqlValue, whole: string)
    requires IsKey(key) && op in COMPARISONS_AND_EQUALS && IsMoment(text) && ToString(v) == Some(text)
    requires whole == key + op + MaybeQuoted(quoted, text)
    requires Run(c, BUILD_DATE_TIME, ComparedEnv(key, op, v), whole).err.None?
    ensures Means(c, Run(c, BUILD_DATE_TIME, ComparedEnv(key, op, v), whole).val, whole)
  {
    hide IsKey, IsMoment, Means, MaybeQuoted, AllProper;
    var time := c.toTime(text);
    assert time.Some?;
    MeansItem(c, Run(c, BUILD_DATE_TIME, ComparedEnv(key, op, v), whole).val, Moment(key, op, quoted, text, time.value), whole);
  }

  lemma QuantityMeans(c: Conversions, q: string, pos: nat)
    requires WellFormed(Kql(c)) && pos <= |q| && WellFormedExpr(Kql(c), NumberRestriction())
    requires Clean(Eval(Kql(c), q, NodeRule, NumberRestriction(), pos, map[], []))
    ensures var o := Eval(Kql(c), q, NodeRule, NumberRestriction(), pos, map[], []); Means(c, o.val, q[pos..o.pos])
  {
    var ts := COMPARISONS;
    OpsAre();
    ValuesAreTextual();
    hide WellFormed, WellFormedExpr, Eval, Kql, Key, IsKey, Op, WholeValue, Textual, Covers, ToString, Run, Number, Means, OpsOf;
    var r := Action(Seq([Labeled("k", Key()), Labeled("o", Choice(OpsOf(ts))), Labeled("v", WholeValue(Number()))]), BUILD_NUMBER);
    assert NumberRestriction() == r;
    var key, op, quoted, text, v := ComparisonClean(c, q, ts, Number(), BUILD_NUMBER, pos);
    NumberOf(text);
    var o := Eval(Kql(c), q, NodeRule, r, pos, map[], []);
    QuantityBuilt(c, key, op, quoted, text, v, q[pos..o.pos]);
  }

  lemma QuantityBuilt(c: Conversions, key: string, op: string, quoted: bool, text: string, v: KqlValue, whole: string)
    requires IsKey(key) && op in COMPARISONS && IsNumber(text) && ToString(v) == Some(text)
    requires whole == key + op + MaybeQuoted(quoted, text)
    requires Run(c, BUILD_NUMBER, ComparedEnv(key, op, v), whole).err.None?
    ensures Means(c, Run(c, BUILD_NUMBER, ComparedEnv(key, op, v), whole).val, whole)
  {
    hide IsKey, IsNumber, Means, MaybeQuoted, AllProper;
    var number := c.toFloat(text);
    assert number.Some?;
    MeansItem(c, Run(c, BUILD_NUMBER, ComparedEnv(key, op, v), whole).val, Quantity(key, op, quoted, text, number.value), whole);
  }

  // ----- `key=value` and `key:value` with whole values -----

  lemma SepClean(c: Conversions, q: string, e: KqlExpr, pos: nat, env: Env<Built>) returns (t: string)
    requires WellFormed(Kql(c)) && pos <= |q| && WellFormedExpr(Kql(c), e) && (e == ColonOrEqual() || e == EqualOrColon())
    requires Clean(Eval(Kql(c), q, NodeRule, e, pos, env, []))
    ensures var o := Eval(Kql(c), q, NodeRule, e, pos, env, []); Sep(t) && q[pos..o.pos] == t && o.env == env
  {
    hide WellFormed, WellFormedExpr, Eval, Kql, Op;
    t := OpsClean(c, q, e.alternatives, if e == ColonOrEqual() then [":", "="] else ["=", ":"], pos, env);
  }

  lemma PeriodMeans(c: Conversions, q: string, pos: nat)
    requires WellFormed(Kql(c)) && pos <= |q| && WellFormedExpr(Kql(c), NaturalRestriction())
    requires Clean(Eval(Kql(c), q, NodeRule, NaturalRestriction(), pos, map[], []))
    ensures var o := Eval(Kql(c), q, NodeRule, NaturalRestriction(), pos, map[], []); Means(c, o.val, q[pos..o.pos])
  {
    ValuesAreTextual();
    hide WellFormed, WellFormedExpr, Eval, Kql, Key, IsKey, EqualOrColon, WholeValue, Textual, Covers, ToString, Run, NaturalLanguage, Means, Sep;
    var m, value := EqualOrColon(), WholeValue(NaturalLanguage());
    var r := Action(Seq([Labeled("k", Key()), m, Labeled("v", value)]), BUILD_NATURAL_DATE_TIME);
    assert NaturalRestriction() == r;
    var p1, p2 := RestrictionClean(c, q, m, value, BUILD_NATURAL_DATE_TIME, pos);
    var sep := SepClean(c, q, m, p1, KeyEnv(q[pos..p1]));
    var quoted, text := WholeClean(c, q, NaturalLanguage(), p2);
    PeriodOf(text);
    var o := Eval(Kql(c), q, NodeRule, r, pos, map[], []);
    Slices(q, pos, p1, p2, o.pos);
    PeriodBuilt(c, q[pos..p1], sep, quoted, text, Eval(Kql(c), q, NodeRule, value, p2, map[], []).val, q[pos..o.pos]);
  }

  lemma PeriodBuilt(c: Conversions, key: string, sep: string, quoted: bool, text: string, v: KqlValue, whole: string)
    requires IsKey(key) && Sep(sep) && IsPeriod(text) && ToString(v) == Some(text)
    requires whole == key + sep + MaybeQuoted(quoted, text)
    requires Run(c, BUILD_NATURAL_DATE_TIME, KeyEnv(key)["v" := v], whole).err.None?
    ensures Means(c, Run(c, BUILD_NATURAL_DATE_TIME, KeyEnv(key)["v" := v], whole).val, whole)
  {
    hide IsKey, IsPeriod, Means, MaybeQuoted, AllProper, Sep;
    var range := c.toTimeRange(text);
    assert range.Some?;
    MeansItem(c, Run(c, BUILD_NATURAL_DATE_TIME, KeyEnv(key)["v" := v], whole).val,
              Period(key, sep, quoted, text, range.value.0, range.value.1), whole);
  }

  lemma TruthClean(c: Conversions, q: string, pos: nat) returns (truth: bool)
    requires var e := Choice([Lit("true"), Lit("false")]);
      WellFormed(Kql(c)) && pos <= |q| && WellFormedExpr(Kql(c), e) && Clean(Eval(Kql(c), q, NodeRule, e, pos, map[], []))
    ensures var o := Eval(Kql(c), q, NodeRule, Choice([Lit("true"), Lit("false")]), pos, map[], []);
      var text := if truth then "true" else "false";
      q[pos..o.pos] == text && ToString(o.val) == Some(text)
  {
    var e := Choice([Lit("true"), Lit("false")]);
    assert Textual(e);
    hide WellFormed, WellFormedExpr, Eval, Kql;
    TextOf(c, q, NodeRule, e, pos, map[], []);
    MatchIsCovered(Kql(c), q, NodeRule, e, pos, map[], []);
    var t := q[pos..Eval(Kql(c), q, NodeRule, e, pos, map[], []).pos];
    truth := t == "true";
  }

  lemma YesNoShape()
    ensures YesNo() == Action(Seq([Labeled("k", Key()), ColonOrEqual(), Labeled("v", Choice([Lit("true"), Lit("false")])), ValueEnd()]), BUILD_BOOLEAN)
  {}

  lemma YesNoMeans(c: Conversions, q: string, pos: nat)
    requires WellFormed(Kql(c)) && pos <= |q| && WellFormedExpr(Kql(c), YesNo())
    requires Clean(Eval(Kql(c), q, NodeRule, YesNo(), pos, map[], []))
    ensures var o := Eval(Kql(c), q, NodeRule, YesNo(), pos, map[], []); Means(c, o.val, q[pos..o.pos])
  {
    var m, value, end := ColonOrEqual(), Choice([Lit("true"), Lit("false")]), ValueEnd();
    var es := [Labeled("k", Key()), m, Labeled("v", value), end];
    hide WellFormed, WellFormedExpr, Eval, EvalSeq, Kql, Key, IsKey, ColonOrEqual, ToString, Run, Means, Sep, ValueEnd, YesNo;
    YesNoShape();
    ActionMembers(Kql(c), es, BUILD_BOOLEAN);
    assert es[0] == Labeled("k", Key()) && es[1] == m && es[2] == Labeled("v", value) && es[3] == end;
    LabeledMember(Kql(c), "v", value);
    ActionClean(c, q, NodeRule, Seq(es), BUILD_BOOLEAN, pos);
    EvalIsSeq(Kql(c), q, NodeRule, es, pos, map[], []);
    assert es == [Labeled("k", Key())] + ([m] + ([Labeled("v", value)] + [end])) && [end] == [end] + [];
    var p1, p2, vals := KeyedClean(c, q, m, value, [end], pos);
    var sep := SepClean(c, q, m, p1, KeyEnv(q[pos..p1]));
    var truth := TruthClean(c, q, p2);
    var v := Eval(Kql(c), q, NodeRule, value, p2, map[], []);
    var env := KeyEnv(q[pos..p1])["v" := v.val];
    SeqClean(Kql(c), q, NodeRule, end, [], v.pos, env, vals);
    EndClean(c, q, end, v.pos, env);
    EvalNoSeq(Kql(c), q, NodeRule, v.pos, env, [], vals + [Eval(Kql(c), q, NodeRule, end, v.pos, env, []).val]);
    Slices(q, pos, p1, p2, v.pos);
    TruthBuilt(c, q[pos..p1], sep, truth, v.val, q[pos..v.pos]);
  }

  lemma TruthBuilt(c: Conversions, key: string, sep: string, truth: bool, v: KqlValue, whole: string)
    requires IsKey(key) && Sep(sep) && ToString(v) == Some(if truth then "true" else "false")
    requires whole == key + sep + if truth then "true" else "false"
    ensures Means(c, Run(c, BUILD_BOOLEAN, KeyEnv(key)["v" := v], whole).val, whole)
  {
    LowerCase();
    hide IsKey, Means, AllProper, Sep, ToLower;
    MeansItem(c, Run(c, BUILD_BOOLEAN, KeyEnv(key)["v" := v], whole).val, Truth(key, sep, truth), whole);
  }

  lemma LowerCase()
    ensures ToLower("true") == "true" && ToLower("false") != "true"
  {
    assert "true"[1..] == "rue" && "rue"[1..] == "ue" && "ue"[1..] == "e" && "e"[1..] == "";
    assert ToLower("e") == "e";
    assert ToLower("ue") == "ue";
    assert ToLower("rue") == "rue";
  }

  // ----- operators and free text -----

  lemma OperatorMeans(c: Conversions, q: string, e: KqlExpr, pos: nat)
    requires e == AndOperator() || e == NotOperator() || e == Op("OR")
    requires WellFormed(Kql(c)) && pos <= |q| && WellFormedExpr(Kql(c), e) && Clean(Eval(Kql(c), q, NodeRule, e, pos, map[], []))
    ensures var o := Eval(Kql(c), q, NodeRule, e, pos, map[], []); Means(c, o.val, q[pos..o.pos])
  {
    ActionParts(Kql(c), e.expr, BUILD_OPERATOR);
    hide WellFormed, WellFormedExpr, Eval, Kql, Means, Run;
    ActionClean(c, q, NodeRule, e.expr, BUILD_OPERATOR, pos);
    var o := Eval(Kql(c), q, NodeRule, e.expr, pos, map[], []);
    MatchIsCovered(Kql(c), q, NodeRule, e.expr, pos, map[], []);
    hide AndOperator, NotOperator, Op;
    OperatorText(e, q[pos..o.pos]);
    OperatorBuilt(c, o.env, q[pos..o.pos]);
  }

  lemma OperatorText(e: KqlExpr, t: string)
    requires (e == AndOperator() || e == NotOperator() || e == Op("OR")) && Covers(e.expr, t)
    ensures t in ["AND", "+", "NOT", "-", "OR"]
  {}

  lemma OperatorBuilt(c: Conversions, env: Env<Built>, text: string)
    requires text in ["AND", "+", "NOT", "-", "OR"]
    ensures Means(c, Run(c, BUILD_OPERATOR, env, text).val, text)
  {
    hide Means, AllProper;
    MeansItem(c, Run(c, BUILD_OPERATOR, env, text).val, Operator(text), text);
  }

  lemma OptionalClean(c: Conversions, q: string, pos: nat, env: Env<Built>)
    requires WellFormed(Kql(c)) && pos <= |q| && WellFormedExpr(Kql(c), ZeroOrOne(Op(":")))
    requires Clean(Eval(Kql(c), q, NodeRule, ZeroOrOne(Op(":")), pos, env, []))
    ensures var o := Eval(Kql(c), q, NodeRule, ZeroOrOne(Op(":")), pos, env, []);
      o.env == env && (q[pos..o.pos] == "" || q[pos..o.pos] == ":")
  {
    var e := ZeroOrOne(Op(":"));
    hide WellFormed, WellFormedExpr, Eval, Kql;
    KeepsScope(Kql(c), q, NodeRule, e, pos, env, []);
    MatchIsCovered(Kql(c), q, NodeRule, e, pos, env, []);
    OptionalColonIs(q[pos..Eval(Kql(c), q, NodeRule, e, pos, env, []).pos]);
  }

  lemma OptionalColonIs(t: string)
    requires Covers<Rule>(ZeroOrOne(Op(":")), t)
    ensures t == "" || t == ":"
  {
    if t != "" {
      LitOf(":", BUILD_OPERATOR, t);
    }
  }

  lemma SpaceClean(c: Conversions, q: string, rule: Rule, pos: nat, env: Env<Built>)
    requires WellFormed(Kql(c)) && pos <= |q| && WellFormedExpr(Kql(c), Blank())
    requires Clean(Eval(Kql(c), q, rule, Blank(), pos, env, []))
    ensures var o := Eval(Kql(c), q, rule, Blank(), pos, env, []); o.env == env && o.val == Nil && Blanks(q[pos..o.pos])
  {
    hide WellFormed, WellFormedExpr, Eval, Kql, Blank, Blanks;
    BlankClean(c, q, rule, pos, env);
    MatchIsCovered(Kql(c), q, rule, Blank(), pos, env, []);
    BlanksOf(q[pos..Eval(Kql(c), q, rule, Blank(), pos, env, []).pos]);
  }

  lemma BeforeText(a: string, b: string)
    requires (a == "" || a == ":") && Blanks(b)
    ensures Before(a + b) && After(b + a)
  {
    assert (":" + b)[1..] == b && (b + ":")[..|b|] == b && "" + b == b && b + "" == b;
  }

  /** The value between the blanks and optional colons of free text. */
  lemma FreeTextClean(c: Conversions, q: string, v: KqlExpr, pos: nat) returns (p1: nat, p2: nat)
    requires WellFormed(Kql(c)) && pos <= |q| && WellFormedExpr(Kql(c), FreeText(v))
    requires Clean(Eval(Kql(c), q, NodeRule, FreeText(v), pos, map[], []))
    ensures WellFormedExpr(Kql(c), v)
    ensures var o := Eval(Kql(c), q, NodeRule, FreeText(v), pos, map[], []);
      && pos <= p1 <= p2 <= o.pos && Before(q[pos..p1]) && After(q[p2..o.pos])
      && Clean(Eval(Kql(c), q, NodeRule, v, p1, map[], [])) && Eval(Kql(c), q, NodeRule, v, p1, map[], []).pos == p2
      && Run(c, BUILD_FREE_STRING, map["v" := Eval(Kql(c), q, NodeRule, v, p1, map[], []).val], q[pos..o.pos]) == Returned(o.val, None)
  {
    var g, r, colon, blank, text := Kql(c), NodeRule, ZeroOrOne(Op(":")), Blank(), Labeled("v", v);
    var es := [colon, blank, text, blank, colon];
    hide WellFormed, WellFormedExpr, Eval, EvalSeq, Kql, FreeText, Op, Blank, Before, After, Run;
    FreeTextShape(v);
    FreeTextParts(c, v, es);
    ActionClean(c, q, r, Seq(es), BUILD_FREE_STRING, pos);
    EvalIsSeq(g, q, r, es, pos, map[], []);
    assert es == [colon] + ([blank] + ([text] + ([blank] + ([colon] + []))));
    var vals: seq<KqlValue>;
    p1, vals := BeforeClean(c, q, [text] + ([blank] + ([colon] + [])), pos);
    SeqClean(g, q, r, text, [blank] + ([colon] + []), p1, map[], vals);
    LabeledClean(g, q, r, "v", v, p1, map[]);
    var o := Eval(g, q, r, text, p1, map[], []);
    p2 := o.pos;
    AfterClean(c, q, p2, o.env, vals + [o.val]);
    OnlyLabel("v", Eval(g, q, r, v, p1, map[], []).val);
  }

  lemma OnlyLabel(name: string, v: KqlValue)
    ensures var env: Env<Built> := map[]; env[name := v] == map[name := v]
  {}

  lemma FreeTextShape(v: KqlExpr)
    ensures FreeText(v) == Action(Seq([ZeroOrOne(Op(":")), Blank(), Labeled("v", v), Blank(), ZeroOrOne(Op(":"))]), BUILD_FREE_STRING)
  {}

  lemma FreeTextParts(c: Conversions, v: KqlExpr, es: seq<KqlExpr>)
    requires es == [ZeroOrOne(Op(":")), Blank(), Labeled("v", v), Blank(), ZeroOrOne(Op(":"))]
    requires WellFormedExpr(Kql(c), Action(Seq(es), BUILD_FREE_STRING))
    ensures var g := Kql(c);
      && WellFormedExpr(g, Seq(es)) && (forall k :: 0 <= k < |es| ==> WellFormedExpr(g, es[k]))
      && WellFormedExpr(g, ZeroOrOne(Op(":"))) && WellFormedExpr(g, Blank()) && WellFormedExpr(g, Labeled("v", v))
      && WellFormedExpr(g, v)
  {
    hide WellFormedExpr, Op, Blank;
    ActionMembers(Kql(c), es, BUILD_FREE_STRING);
    assert es[0] == ZeroOrOne(Op(":")) && es[1] == Blank() && es[2] == Labeled("v", v);
    LabeledMember(Kql(c), "v", v);
  }

  lemma BeforeClean(c: Conversions, q: string, rest: seq<KqlExpr>, pos: nat) returns (p: nat, vals: seq<KqlValue>)
    requires WellFormed(Kql(c)) && pos <= |q| && WellFormedExpr(Kql(c), Blank()) && WellFormedExpr(Kql(c), ZeroOrOne(Op(":")))
    requires forall k :: 0 <= k < |rest| ==> WellFormedExpr(Kql(c), rest[k])
    requires var es := [ZeroOrOne(Op(":"))] + ([Blank()] + rest);
      (forall k :: 0 <= k < |es| ==> WellFormedExpr(Kql(c), es[k])) && Clean(EvalSeq(Kql(c), q, NodeRule, es, pos, map[], [], []))
    ensures pos <= p <= |q| && Before(q[pos..p])
    ensures EvalSeq(Kql(c), q, NodeRule, rest, p, map[], [], vals)
         == EvalSeq(Kql(c), q, NodeRule, [ZeroOrOne(Op(":"))] + ([Blank()] + rest), pos, map[], [], [])
  {
    var g, r, colon, blank := Kql(c), NodeRule, ZeroOrOne(Op(":")), Blank();
    hide WellFormed, WellFormedExpr, Eval, EvalSeq, Kql, Op, Blank, Blanks, Before;
    assert ([colon] + ([blank] + rest))[1..] == [blank] + rest;
    SeqClean(g, q, r, colon, [blank] + rest, pos, map[], []);
    OptionalClean(c, q, pos, map[]);
    var o1 := Eval(g, q, r, colon, pos, map[], []);
    SeqClean(g, q, r, blank, rest, o1.pos, map[], [] + [o1.val]);
    SpaceClean(c, q, r, o1.pos, map[]);
    var o2 := Eval(g, q, r, blank, o1.pos, map[], []);
    p, vals := o2.pos, [] + [o1.val] + [o2.val];
    Joins(q, pos, o1.pos, p);
    BeforeText(q[pos..o1.pos], q[o1.pos..p]);
  }

  lemma AfterClean(c: Conversions, q: string, pos: nat, env: Env<Built>, vals: seq<KqlValue>)
    requires WellFormed(Kql(c)) && pos <= |q| && WellFormedExpr(Kql(c), Blank()) && WellFormedExpr(Kql(c), ZeroOrOne(Op(":")))
    requires var es := [Blank()] + ([ZeroOrOne(Op(":"))] + []);
      (forall k :: 0 <= k < |es| ==> WellFormedExpr(Kql(c), es[k])) && Clean(EvalSeq(Kql(c), q, NodeRule, es, pos, env, [], vals))
    ensures var o := EvalSeq(Kql(c), q, NodeRule, [Blank()] + ([ZeroOrOne(Op(":"))] + []), pos, env, [], vals);
      o.env == env && After(q[pos..o.pos])
  {
    var g, r, colon, blank := Kql(c), NodeRule, ZeroOrOne(Op(":")), Blank();
    hide WellFormed, WellFormedExpr, Eval, EvalSeq, Kql, Op, Blank, Blanks, After;
    SeqClean(g, q, r, blank, [colon] + [], pos, env, vals);
    SpaceClean(c, q, r, pos, env);
    var o1 := Eval(g, q, r, blank, pos, env, []);
    SeqClean(g, q, r, colon, [], o1.pos, env, vals + [o1.val]);
    OptionalClean(c, q, o1.pos, env);
    var o2 := Eval(g, q, r, colon, o1.pos, env, []);
    EvalNoSeq(g, q, r, o2.pos, env, [], vals + [o1.val] + [o2.val]);
    Joins(q, pos, o1.pos, o2.pos);
    BeforeText(q[o1.pos..o2.pos], q[pos..o1.pos]);
  }

  lemma WordsMean(c: Conversions, q: string, v: KqlExpr, pos: nat)
    requires v == String() || v == OneOrMore(NoneOf(" :()\""))
    requires WellFormed(Kql(c)) && pos <= |q| && WellFormedExpr(Kql(c), FreeText(v))
    requires Clean(Eval(Kql(c), q, NodeRule, FreeText(v), pos, map[], []))
    ensures var o := Eval(Kql(c), q, NodeRule, FreeText(v), pos, map[], []); Means(c, o.val, q[pos..o.pos])
  {
    hide WellFormed, WellFormedExpr, Eval, Kql, Run, FreeText, String, NoneOf, Means, Before, After, Free;
    var p1, p2 := FreeTextClean(c, q, v, pos);
    var inner, o := Eval(Kql(c), q, NodeRule, v, p1, map[], []), Eval(Kql(c), q, NodeRule, FreeText(v), pos, map[], []);
    var w: Written;
    if v == String() {
      QuotedClean(c, q, p1);
      w := InQuotes(inner.val.text);
    } else {
      WordClean(c, q, " :()\"", p1);
      w := Bare(q[p1..p2]);
    }
    Slices(q, pos, p1, p2, o.pos);
    WordsBuilt(c, q[pos..p1], w, q[p2..o.pos], inner.val, q[pos..o.pos]);
  }

  lemma WordsBuilt(c: Conversions, before: string, w: Written, after: string, v: KqlValue, whole: string)
    requires Before(before) && After(after) && (w.Bare? ==> Free(w.value, " :()\""))
    requires ToString(v) == Some(w.value) && whole == before + Spelled(w) + after
    ensures Means(c, Run(c, BUILD_FREE_STRING, map["v" := v], whole).val, whole)
  {
    EmptyText();
    hide Before, After, Free, Means, AllProper;
    MeansItem(c, Run(c, BUILD_FREE_STRING, map["v" := v], whole).val, Words(before, w, after), whole);
  }

  lemma EmptyText()
    ensures ToString(Text("")) == Some("")
  {}

  /** All alternatives. */
  lemma AlternativeMeans(c: Conversions, q: string, k: nat, pos: nat)
    requires WellFormed(Kql(c)) && pos <= |q| && k < |NodeChoices()| && WellFormedExpr(Kql(c), NodeChoices()[k])
    requires Clean(Eval(Kql(c), q, NodeRule, NodeChoices()[k], pos, map[], []))
    ensures var o := Eval(Kql(c), q, NodeRule, NodeChoices()[k], pos, map[], []); Means(c, o.val, q[pos..o.pos])
  {
    hide WellFormed, WellFormedExpr, Eval, Kql, Means, YesNo, DateTimeRestriction, NaturalRestriction, NumberRestriction, TextRestriction,
      AndOperator, NotOperator, Op, FreeText, String, NoneOf;
    match k
    case 0 => YesNoMeans(c, q, pos);
    case 1 => MomentMeans(c, q, pos);
    case 2 => PeriodMeans(c, q, pos);
    case 3 => QuantityMeans(c, q, pos);
    case 4 => KeyedTextMeans(c, q, "=", BUILD_EXACT_STRING, pos);
    case 5 => KeyedTextMeans(c, q, ":", BUILD_STRING, pos);
    case 6 => OperatorMeans(c, q, AndOperator(), pos);
    case 7 => OperatorMeans(c, q, NotOperator(), pos);
    case 8 => OperatorMeans(c, q, Op("OR"), pos);
    case 9 => WordsMean(c, q, String(), pos);
    case 10 => WordsMean(c, q, OneOrMore(NoneOf(" :()\"")), pos);
  }
}
