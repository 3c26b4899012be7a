/** `Builder.Build` (pkg/kql/kql.go), and when expressions of the grammar fail right at a rune. */
module KqlQuery {
  import opened Ast
  import Connect
  import Validate
  import opened Peg
  import opened KqlGrammar
  import opened KqlStrings
  import PegParser

  /** The nodes of a query; `None` when it does not parse, or when an action reported an error. */
  ghost function Build(c: Conversions, q: string): Option<seq<Node>> {
    KqlIsWellFormed(c);
    var o := Eval(Kql(c), q, ASTRule, Body(ASTRule), 0, map[], []);
    if o.Success? && o.errs == [] && o.val.Built? && o.val.node.Query? then Some(o.val.node.nodes) else None
  }

  /** The stateful parser, run on the KQL grammar, gives exactly that. */
  method BuildQuery(c: Conversions, q: string) returns (nodes: Option<seq<Node>>)
    ensures nodes == Build(c, q)
  {
    KqlIsWellFormed(c);
    hide WellFormed, Kql, Body;
    KqlBodies(c);
    var p := new PegParser.Parser(Kql(c), q);
    var val, ok := p.Parse(ASTRule);
    if ok && p.errs == [] && val.Built? && val.node.Query? {
      return Some(val.node.nodes);
    }
    return None;
  }

  // ----- what cannot match at a given rune -----

  function At(input: string, pos: nat): Option<char> {
    if pos < |input| then Some(input[pos]) else None
  }

  /** A syntactic reason why `e` fails at the rune `ch` (or at the end) without running an action. */
  predicate CannotStart(e: KqlExpr, ch: Option<char>)
    decreases e, 0
  {
    match e
    case Action(e1, _) => CannotStart(e1, ch)
    case Labeled(_, e1) => CannotStart(e1, ch)
    case OneOrMore(e1) => CannotStart(e1, ch)
    case Any => ch.None?
    case CharClass(chars, ranges, inverted) => ch.None? || InClass(ch.value, chars, ranges) == inverted
    case Choice(es) => forall k :: 0 <= k < |es| ==> CannotStart(es[k], ch)
    case Lit(val) => val != "" && (ch.None? || ch.value != val[0])
    case Seq(es) => SeqCannotStart(es, ch)
    case _ => false
  }

  predicate SeqCannotStart(es: seq<KqlExpr>, ch: Option<char>)
    decreases es, 0
  {
    es != [] && (CannotStart(es[0], ch) || (Skips(es[0], ch) && SeqCannotStart(es[1..], ch)))
  }

  /** A syntactic reason why `e` succeeds there without consuming anything. */
  predicate Skips(e: KqlExpr, ch: Option<char>)
    decreases e, 0
  {
    match e
    case ZeroOrOne(e1) => CannotStart(e1, ch)
    case ZeroOrMore(e1) => CannotStart(e1, ch)
    case Labeled(_, e1) => Skips(e1, ch)
    case Action(e1, run) => run == RETURN_NIL && Skips(e1, ch)
    case _ => false
  }

  lemma {:induction false} CannotStartFails(c: Conversions, input: string, rule: Rule, e: KqlExpr, pos: nat, env: Env<Built>,
                                            errs: seq<Error<Rule>>)
    requires WellFormed(Kql(c)) && WellFormedExpr(Kql(c), e) && pos <= |input|
    requires CannotStart(e, At(input, pos))
    ensures Eval(Kql(c), input, rule, e, pos, env, errs) == Failure(errs)
    decreases e, 1
  {
    hide WellFormed;
    match e
    case Action(e1, _) => CannotStartFails(c, input, rule, e1, pos, env, errs);
    case Labeled(_, e1) => CannotStartFails(c, input, rule, e1, pos, map[], errs);
    case OneOrMore(e1) => CannotStartFails(c, input, rule, e1, pos, map[], errs);
    case Choice(es) => ChoiceFails(c, input, rule, es, pos, env, errs);
    case Seq(es) => SeqFails(c, input, rule, es, pos, env, errs, []);
    case Lit(val) => assert pos + |val| <= |input| ==> input[pos..pos + |val|][0] == input[pos];
    case _ =>
  }

  lemma {:induction false} ChoiceFails(c: Conversions, input: string, rule: Rule, es: seq<KqlExpr>, pos: nat, env: Env<Built>,
                                       errs: seq<Error<Rule>>)
    requires WellFormed(Kql(c)) && pos <= |input|
    requires forall k :: 0 <= k < |es| ==> WellFormedExpr(Kql(c), es[k]) && CannotStart(es[k], At(input, pos))
    ensures EvalChoice(Kql(c), input, rule, es, pos, env, errs) == Failure(errs)
    decreases es, 0
  {
    hide WellFormed, WellFormedExpr, Eval;
    if es != [] {
      CannotStartFails(c, input, rule, es[0], pos, map[], errs);
      ChoiceFails(c, input, rule, es[1..], pos, env, errs);
    }
  }

  lemma {:induction false} SeqFails(c: Conversions, input: string, rule: Rule, es: seq<KqlExpr>, pos: nat, env: Env<Built>,
                                    errs: seq<Error<Rule>>, vals: seq<KqlValue>)
    requires WellFormed(Kql(c)) && pos <= |input| && forall k :: 0 <= k < |es| ==> WellFormedExpr(Kql(c), es[k])
    requires SeqCannotStart(es, At(input, pos))
    ensures EvalSeq(Kql(c), input, rule, es, pos, env, errs, vals) == Failure(errs)
    decreases es, 0
  {
    hide WellFormed, WellFormedExpr, Eval;
    if CannotStart(es[0], At(input, pos)) {
      CannotStartFails(c, input, rule, es[0], pos, env, errs);
    } else {
      SkipsConsumesNothing(c, input, rule, es[0], pos, env, errs);
      var o := Eval(Kql(c), input, rule, es[0], pos, env, errs);
      SeqFails(c, input, rule, es[1..], pos, o.env, errs, vals + [o.val]);
    }
  }

  lemma {:induction false} SkipsConsumesNothing(c: Conversions, input: string, rule: Rule, e: KqlExpr, pos: nat, env: Env<Built>,
                                                errs: seq<Error<Rule>>)
    requires WellFormed(Kql(c)) && WellFormedExpr(Kql(c), e) && pos <= |input|
    requires Skips(e, At(input, pos))
    ensures var o := Eval(Kql(c), input, rule, e, pos, env, errs); o.Success? && o.pos == pos && o.errs == errs
    ensures !e.Labeled? && !e.Action? ==> Eval(Kql(c), input, rule, e, pos, env, errs).env == env
    ensures e.Action? && !e.expr.Labeled? && !e.expr.Action? ==>
              var o := Eval(Kql(c), input, rule, e, pos, env, errs); o.env == env && o.val == Nil
    decreases e, 1
  {
    hide WellFormed;
    match e
    case ZeroOrOne(e1) => CannotStartFails(c, input, rule, e1, pos, map[], errs);
    case ZeroOrMore(e1) => CannotStartFails(c, input, rule, e1, pos, map[], errs);
    case Labeled(_, e1) => SkipsConsumesNothing(c, input, rule, e1, pos, map[], errs);
    case Action(e1, run) => SkipsConsumesNothing(c, input, rule, e1, pos, env, errs);
    case _ =>
  }

  /** Starts no key, no operator behind a key and no blanks. */
  predicate Keyless(ch: Option<char>) {
    ch.None? || (!('A' <= ch.value <= 'Z' || 'a' <= ch.value <= 'z') && ch.value !in " \t:=(")
  }

  lemma KeyCannotStart(ch: Option<char>)
    requires Keyless(ch)
    ensures CannotStart(Key(), ch)
  {
    assert CannotStart(Char(), ch);
  }

  lemma ActionCannotStart(es: seq<KqlExpr>, run: nat, ch: Option<char>)
    requires SeqCannotStart(es, ch)
    ensures CannotStart(Action(Seq(es), run), ch)
  {
    assert CannotStart(Seq(es), ch);
  }

  /** The third part fails and the first two may be absent. */
  lemma ThirdCannotStart(es: seq<KqlExpr>, ch: Option<char>)
    requires |es| >= 3 && Skips(es[0], ch) && Skips(es[1], ch) && CannotStart(es[2], ch)
    ensures SeqCannotStart(es, ch)
  {
    hide CannotStart, Skips;
    assert es[1..][0] == es[1] && es[1..][1..][0] == es[2];
    assert SeqCannotStart(es[1..][1..], ch);
    assert SeqCannotStart(es[1..], ch);
  }

  lemma KeyedCannotStart(ch: Option<char>, e: KqlExpr)
    requires Keyless(ch) && e.Action? && e.expr.Seq? && e.expr.exprs != [] && e.expr.exprs[0] == Labeled("k", Key())
    ensures CannotStart(e, ch)
  {
    KeyCannotStart(ch);
    hide Key;
    assert CannotStart(e.expr.exprs[0], ch);
    ActionCannotStart(e.expr.exprs, e.run, ch);
  }

  lemma RestrictionsCannotStart(ch: Option<char>)
    requires Keyless(ch)
    ensures forall k :: 0 <= k < 6 ==> CannotStart(NodeChoices()[k], ch)
  {
    hide CannotStart, Key, WholeValue, AnyDateTime, NaturalLanguage, Number, ColonOrEqual, EqualOrColon, ValueEnd, String, Phrase,
      Word, AndOperator, NotOperator;
    forall k | 0 <= k < 6 ensures CannotStart(NodeChoices()[k], ch) {
      KeyedCannotStart(ch, NodeChoices()[k]);
    }
  }

  lemma OperatorsCannotStart(ch: Option<char>)
    ensures ch != Some('A') && ch != Some('+') ==> CannotStart(AndOperator(), ch)
    ensures ch != Some('N') && ch != Some('-') ==> CannotStart(NotOperator(), ch)
    ensures ch != Some('O') ==> CannotStart(Op("OR"), ch)
  {}

  lemma GroupCannotStart(ch: Option<char>)
    requires Keyless(ch)
    ensures CannotStart(Body(GroupNodeRule), ch)
  {
    KeyCannotStart(ch);
    ColonOrEqualSkips(ch);
    hide Key, ColonOrEqual;
    var es := [Labeled("k", ZeroOrOne(Key())), ZeroOrOne(ColonOrEqual()), Lit("("), Labeled("v", RuleRef(NodesRule)), Lit(")")];
    LabeledSkips("k", Key(), ch);
    ThirdCannotStart(es, ch);
    hide CannotStart, SeqCannotStart;
    ActionCannotStart(es, BUILD_GROUP, ch);
  }

  lemma ColonOrEqualSkips(ch: Option<char>)
    requires ch != Some(':') && ch != Some('=')
    ensures Skips(ZeroOrOne(ColonOrEqual()), ch)
  {}

  lemma LabeledSkips(name: string, e: KqlExpr, ch: Option<char>)
    requires CannotStart(e, ch)
    ensures Skips(Labeled(name, ZeroOrOne(e)), ch)
  {
    hide CannotStart;
  }

  lemma OptionalsSkip(ch: Option<char>)
    ensures ch != Some(':') ==> Skips(ZeroOrOne(Op(":")), ch)
    ensures ch != Some(' ') && ch != Some('\t') ==> Skips(Blank(), ch)
  {}

  lemma FreeTextCannotStart(v: KqlExpr, ch: Option<char>)
    requires CannotStart(v, ch) && ch != Some(':') && ch != Some(' ') && ch != Some('\t')
    ensures CannotStart(FreeText(v), ch)
  {
    OptionalsSkip(ch);
    hide Op, Blank;
    var es := [ZeroOrOne(Op(":")), Blank(), Labeled("v", v), Blank(), ZeroOrOne(Op(":"))];
    assert CannotStart(Labeled("v", v), ch);
    ThirdCannotStart(es, ch);
    hide CannotStart, SeqCannotStart;
    ActionCannotStart(es, BUILD_FREE_STRING, ch);
  }

  lemma PhraseCannotStart(ch: Option<char>)
    requires ch.None? || ch.value !in " \t:\""
    ensures CannotStart(Phrase(), ch)
  {
    assert CannotStart(String(), ch);
    FreeTextCannotStart(String(), ch);
  }

  lemma WordCannotStart(ch: Option<char>)
    requires ch.None? || ch.value in ")("
    ensures CannotStart(Word(), ch)
  {
    FreeTextCannotStart(OneOrMore(NoneOf(" :()\"")), ch);
  }

  /** At the end of the input, and at a closing parenthesis, no node starts. */
  lemma NodeCannotStart(ch: Option<char>)
    requires ch == None || ch == Some(')')
    ensures forall k :: 0 <= k < |NodeChoices()| ==> CannotStart(NodeChoices()[k], ch)
  {
    hide CannotStart, NodeChoices, AndOperator, NotOperator, Op, Phrase, Word;
    RestrictionsCannotStart(ch);
    OperatorsCannotStart(ch);
    PhraseCannotStart(ch);
    WordCannotStart(ch);
    LastChoices();
    forall k | 0 <= k < |NodeChoices()|
      ensures CannotStart(NodeChoices()[k], ch)
    {
      if k >= 6 {
        assert k == 6 || k == 7 || k == 8 || k == 9 || k == 10;
      }
    }
  }

  lemma LastChoices()
    ensures var es := NodeChoices();
      |es| == 11 && es[6] == AndOperator() && es[7] == NotOperator() && es[8] == Op("OR") && es[9] == Phrase() && es[10] == Word()
  {
    hide YesNo, DateTimeRestriction, NaturalRestriction, NumberRestriction, TextRestriction, AndOperator, NotOperator, Op, Phrase, Word;
  }

  // ----- the rules -----

  lemma TokenIsWellFormed(g: Grammar<Rule, Built>, e: KqlExpr)
    requires Token(g, e)
    ensures WellFormedExpr(g, e)
  {}

  lemma ChoiceIsWellFormed(g: Grammar<Rule, Built>, es: seq<KqlExpr>)
    requires es != [] && es[0].RuleRef? && forall k :: 0 <= k < |es[1..]| ==> WellFormedExpr(g, es[1..][k])
    ensures WellFormedExpr(g, Choice(es)) && forall k :: 0 <= k < |es| ==> WellFormedExpr(g, es[k])
  {
    forall k | 0 <= k < |es| ensures WellFormedExpr(g, es[k]) {
      if k > 0 {
        assert es[k] == es[1..][k - 1];
      }
    }
  }

  lemma KqlBodies(c: Conversions)
    ensures forall r: Rule :: Kql(c).body(r) == Body(r)
    ensures Body(NodeRule) == Choice([RuleRef(GroupNodeRule)] + NodeChoices())
  {}

  lemma RefUnfolds(c: Conversions, q: string, rule: Rule, r: Rule, pos: nat, env: Env<Built>)
    requires WellFormed(Kql(c)) && pos <= |q| && Kql(c).body(r) == Body(r)
    ensures WellFormedExpr(Kql(c), Body(r)) && WellFormedExpr(Kql(c), RuleRef(r))
    ensures var o := Eval(Kql(c), q, r, Body(r), pos, map[], []);
            Eval(Kql(c), q, rule, RuleRef(r), pos, env, []) == if o.Failure? then o else Success(o.val, o.pos, env, o.errs)
  {
    hide Kql, Body;
    assert WellFormedExpr(Kql(c), Kql(c).body(r));
  }

  function NodesStep(): KqlExpr {
    Seq([Blank(), RuleRef(NodeRule)])
  }

  lemma NodesParts(c: Conversions)
    ensures var g := Kql(c);
            && WellFormedExpr(g, Blank()) && WellFormedExpr(g, RuleRef(NodeRule)) && WellFormedExpr(g, NodesStep())
            && !MayBeEmpty(g, NodesStep()) && WellFormedExpr(g, OneOrMore(NodesStep())) && Body(NodesRule) == OneOrMore(NodesStep())
  {
    KqlRules(c);
    hide Kql, Body, WellFormedExpr, MayBeEmpty, LeftRank, Blank;
    NodesShape(Kql(c));
    RefParts(Kql(c), NodeRule, "n");
    OneOrMoreParts(Kql(c), NodesStep());
    assert NodesStep() == Seq(NodesExprs()) && NodesExprs()[0] == Blank();
  }

  lemma ASTParts(c: Conversions)
    ensures var g, es := Kql(c), [Labeled("n", RuleRef(NodesRule)), Blank(), AtEOF()];
            && (forall k :: 0 <= k < |es| ==> WellFormedExpr(g, es[k])) && WellFormedExpr(g, Seq(es))
            && Body(ASTRule) == Action(Seq(es), BUILD_AST) && WellFormedExpr(g, Body(ASTRule))
  {
    KqlRules(c);
    hide Kql, Body, WellFormedExpr, MayBeEmpty, LeftRank, Blank, AtEOF;
    ASTShape(Kql(c));
    ActionParts(Kql(c), Seq(ASTExprs()), BUILD_AST);
  }

  lemma KqlRules(c: Conversions)
    ensures forall r: Rule :: !Kql(c).nullable(r) && Kql(c).rank(r) == RuleRank(r)
  {}
}
