/** Expressions of the KQL grammar that match without an action reporting an error: what then holds
    of their parts, and of the text that they leave as a value. */
module KqlClean {
  import opened Peg
  import opened PegLaws
  import opened KqlGrammar
  import KqlStrings

  // ----- expressions that succeed without any error -----

  type KqlOutcome = Outcome<Rule, Built>

  predicate Clean(o: KqlOutcome) {
    o.Success? && o.errs == []
  }

  /** One element of a sequence that ends without an error. */
  lemma SeqClean(g: Grammar<Rule, Built>, q: string, rule: Rule, e: KqlExpr, rest: seq<KqlExpr>, pos: nat, env: Env<Built>, vals: seq<KqlValue>)
    requires WellFormed(g) && pos <= |q| && WellFormedExpr(g, e) && forall k :: 0 <= k < |rest| ==> WellFormedExpr(g, rest[k])
    requires forall k :: 0 <= k < |[e] + rest| ==> WellFormedExpr(g, ([e] + rest)[k])
    requires Clean(EvalSeq(g, q, rule, [e] + rest, pos, env, [], vals))
    ensures var o := Eval(g, q, rule, e, pos, env, []);
      Clean(o) && EvalSeq(g, q, rule, rest, o.pos, o.env, [], vals + [o.val]) == EvalSeq(g, q, rule, [e] + rest, pos, env, [], vals)
  {
    hide WellFormed, WellFormedExpr, Eval, EvalSeq;
    KqlStrings.SeqStep(g, q, rule, e, rest, pos, env, [], vals);
    var o := Eval(g, q, rule, e, pos, env, []);
    if o.Success? {
      SeqErrorsGrow(g, q, rule, rest, o.pos, o.env, o.errs, vals + [o.val]);
    }
  }

  lemma ActionClean(c: Conversions, q: string, rule: Rule, e: KqlExpr, run: nat, pos: nat)
    requires var g := Kql(c); WellFormed(g) && pos <= |q| && WellFormedExpr(g, e) && WellFormedExpr(g, Action(e, run))
    requires Clean(Eval(Kql(c), q, rule, Action(e, run), pos, map[], []))
    ensures var o, inner := Eval(Kql(c), q, rule, Action(e, run), pos, map[], []), Eval(Kql(c), q, rule, e, pos, map[], []);
      && Clean(inner) && inner.pos == o.pos
      && Run(c, run, inner.env, q[pos..inner.pos]) == Returned(o.val, None)
  {
    hide WellFormed, WellFormedExpr;
    ErrorsGrow(Kql(c), q, rule, e, pos, map[], []);
  }

  lemma LabeledClean(g: Grammar<Rule, Built>, q: string, rule: Rule, name: string, e: KqlExpr, pos: nat, env: Env<Built>)
    requires WellFormed(g) && pos <= |q| && WellFormedExpr(g, e) && WellFormedExpr(g, Labeled(name, e)) && name != ""
    requires Clean(Eval(g, q, rule, Labeled(name, e), pos, env, []))
    ensures var o, inner := Eval(g, q, rule, Labeled(name, e), pos, env, []), Eval(g, q, rule, e, pos, map[], []);
      Clean(inner) && inner.pos == o.pos && o.env == env[name := inner.val]
  {
    hide WellFormed, WellFormedExpr;
  }

  lemma RefClean(g: Grammar<Rule, Built>, q: string, rule: Rule, r: Rule, pos: nat, env: Env<Built>)
    requires WellFormed(g) && pos <= |q| && WellFormedExpr(g, RuleRef(r)) && WellFormedExpr(g, g.body(r))
    requires Clean(Eval(g, q, rule, RuleRef(r), pos, env, []))
    ensures var o, inner := Eval(g, q, rule, RuleRef(r), pos, env, []), Eval(g, q, r, g.body(r), pos, map[], []);
      Clean(inner) && inner.val == o.val && inner.pos == o.pos && o.env == env
  {
    hide WellFormed, WellFormedExpr;
  }

  lemma BlankClean(c: Conversions, q: string, rule: Rule, pos: nat, env: Env<Built>)
    requires WellFormed(Kql(c)) && pos <= |q| && WellFormedExpr(Kql(c), Blank())
    requires Clean(Eval(Kql(c), q, rule, Blank(), pos, env, []))
    ensures var o := Eval(Kql(c), q, rule, Blank(), pos, env, []); o.val == Nil && o.env == env
  {
    var e := ZeroOrMore(OneOf(" \t"));
    hide WellFormed;
    KeepsScope(Kql(c), q, rule, e, pos, env, []);
  }

  /** A choice that ends without an error is one of its alternatives. */
  lemma {:induction false} ChoiceClean(g: Grammar<Rule, Built>, q: string, rule: Rule, es: seq<KqlExpr>, pos: nat, env: Env<Built>)
    returns (k: nat)
    requires WellFormed(g) && pos <= |q| && forall j :: 0 <= j < |es| ==> WellFormedExpr(g, es[j])
    requires Clean(EvalChoice(g, q, rule, es, pos, env, []))
    ensures k < |es| && Clean(Eval(g, q, rule, es[k], pos, map[], []))
    ensures var o := Eval(g, q, rule, es[k], pos, map[], []);
      o.val == EvalChoice(g, q, rule, es, pos, env, []).val && o.pos == EvalChoice(g, q, rule, es, pos, env, []).pos
    decreases |es|
  {
    hide WellFormed, WellFormedExpr, Eval;
    var o := Eval(g, q, rule, es[0], pos, map[], []);
    if o.Success? {
      k := 0;
    } else {
      ChoiceErrorsGrow(g, q, rule, es[1..], pos, env, o.errs);
      var j := ChoiceClean(g, q, rule, es[1..], pos, env);
      k := j + 1;
    }
  }

  // ----- values that are texts -----

  /** Its value is the text that it matches, in one or more pieces. */
  predicate Textual(e: KqlExpr)
    decreases e
  {
    match e
    case Lit(_) => true
    case Any => true
    case CharClass(_, _, _) => true
    case Action(_, run) => run == RETURN_TEXT
    case Choice(es) => forall k :: 0 <= k < |es| ==> Textual(es[k])
    case Labeled(_, e1) => Textual(e1)
    case OneOrMore(e1) => Textual(e1)
    case ZeroOrMore(e1) => Textual(e1)
    case _ => false
  }

  lemma {:induction false} JoinedMore(vals: seq<KqlValue>, v: KqlValue)
    requires Joined(vals).Some? && ToString(v).Some?
    ensures Joined(vals + [v]) == Some(Joined(vals).value + ToString(v).value)
    decreases |vals|
  {
    if vals == [] {
      assert [] + [v] == [v] && [v][1..] == [];
      assert ToString(v).value + "" == "" + ToString(v).value;
    } else {
      assert (vals + [v])[1..] == vals[1..] + [v];
      JoinedMore(vals[1..], v);
      var x, y, z := ToString(vals[0]).value, Joined(vals[1..]).value, ToString(v).value;
      assert x + (y + z) == (x + y) + z;
    }
  }

  lemma {:induction false} TextOf(c: Conversions, q: string, rule: Rule, e: KqlExpr, pos: nat, env: Env<Built>, errs: seq<Error<Rule>>)
    requires WellFormed(Kql(c)) && WellFormedExpr(Kql(c), e) && pos <= |q| && Textual(e)
    ensures var o := Eval(Kql(c), q, rule, e, pos, env, errs); o.Success? ==> ToString(o.val) == Some(q[pos..o.pos])
    decreases e, 0, 0
  {
    hide WellFormed;
    assert pos < |q| ==> q[pos..pos + 1] == [q[pos]];
    match e
    case Action(e1, _) => ActionText(c, q, rule, e1, pos, env, errs);
    case Choice(es) => ChoiceText(c, q, rule, es, pos, env, errs);
    case Labeled(_, e1) => TextOf(c, q, rule, e1, pos, map[], errs);
    case OneOrMore(e1) =>
      TextOf(c, q, rule, e1, pos, map[], errs);
      var o := Eval(Kql(c), q, rule, e1, pos, map[], errs);
      if o.Success? {
        JoinedMore([], o.val);
        assert [] + [o.val] == [o.val] && "" + ToString(o.val).value == ToString(o.val).value;
        LoopText(c, q, rule, e1, pos, o.pos, env, o.errs, [o.val]);
      }
    case ZeroOrMore(e1) =>
      assert q[pos..pos] == "";
      LoopText(c, q, rule, e1, pos, pos, env, errs, []);
    case _ =>
  }

  lemma ActionText(c: Conversions, q: string, rule: Rule, e: KqlExpr, pos: nat, env: Env<Built>, errs: seq<Error<Rule>>)
    requires WellFormed(Kql(c)) && WellFormedExpr(Kql(c), e) && WellFormedExpr(Kql(c), Action(e, RETURN_TEXT)) && pos <= |q|
    ensures var o, inner := Eval(Kql(c), q, rule, Action(e, RETURN_TEXT), pos, env, errs), Eval(Kql(c), q, rule, e, pos, env, errs);
      if inner.Success? then o == Success(Text(q[pos..inner.pos]), inner.pos, inner.env, inner.errs) else o == inner
  {
    hide WellFormed, WellFormedExpr;
  }

  lemma {:induction false} ChoiceText(c: Conversions, q: string, rule: Rule, es: seq<KqlExpr>, pos: nat, env: Env<Built>,
                                      errs: seq<Error<Rule>>)
    requires WellFormed(Kql(c)) && pos <= |q| && forall k :: 0 <= k < |es| ==> WellFormedExpr(Kql(c), es[k]) && Textual(es[k])
    ensures var o := EvalChoice(Kql(c), q, rule, es, pos, env, errs); o.Success? ==> ToString(o.val) == Some(q[pos..o.pos])
    decreases es, 0, 0
  {
    hide WellFormed, WellFormedExpr, Eval, Textual, ToString;
    if es != [] {
      TextOf(c, q, rule, es[0], pos, map[], errs);
      ChoiceText(c, q, rule, es[1..], pos, env, Eval(Kql(c), q, rule, es[0], pos, map[], errs).errs);
    }
  }

  lemma {:induction false} LoopText(c: Conversions, q: string, rule: Rule, e: KqlExpr, start: nat, pos: nat, env: Env<Built>,
                                    errs: seq<Error<Rule>>, vals: seq<KqlValue>)
    requires WellFormed(Kql(c)) && WellFormedExpr(Kql(c), e) && !MayBeEmpty(Kql(c), e) && start <= pos <= |q| && Textual(e)
    requires Joined(vals) == Some(q[start..pos])
    ensures var o := EvalLoop(Kql(c), q, rule, e, pos, env, errs, vals); ToString(o.val) == Some(q[start..o.pos])
    decreases e, 1, |q| - pos
  {
    hide WellFormed, WellFormedExpr, MayBeEmpty, Eval, Textual, Kql;
    TextOf(c, q, rule, e, pos, map[], errs);
    KqlStrings.LoopStep(Kql(c), q, rule, e, pos, env, errs, vals);
    var o := Eval(Kql(c), q, rule, e, pos, map[], errs);
    if o.Success? {
      JoinedMore(vals, o.val);
      assert q[start..o.pos] == q[start..pos] + q[pos..o.pos];
      hide ToString, Joined;
      LoopText(c, q, rule, e, start, o.pos, env, o.errs, vals + [o.val]);
    }
  }
}
