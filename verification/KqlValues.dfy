/** The values behind a key: which text is a time, a period, a number, a truth or a word, and how much
    of the query it takes. */
module KqlValues {
  import opened Ast
  import opened Peg
  import opened PegLaws
  import opened KqlGrammar
  import opened KqlClean
  import opened KqlSyntax
  import opened KqlRestrictions
  import opened KqlQuery
  import opened KqlAccepted
  import opened KqlMatch
  import KqlStrings

  // ----- expressions that report nothing -----

  /** None of its actions can fail, and it enters no rule. */
  predicate Quiet(e: KqlExpr)
    decreases e
  {
    match e
    case Action(e1, run) => (run == RETURN_TEXT || run == RETURN_NIL || run == RETURN_V || run == UNQUOTE || run == BUILD_OPERATOR) && Quiet(e1)
    case And(e1) => Quiet(e1)
    case Not(e1) => Quiet(e1)
    case Choice(es) => forall k :: 0 <= k < |es| ==> Quiet(es[k])
    case Labeled(_, e1) => Quiet(e1)
    case OneOrMore(e1) => Quiet(e1)
    case ZeroOrMore(e1) => Quiet(e1)
    case ZeroOrOne(e1) => Quiet(e1)
    case RuleRef(_) => false
    case Seq(es) => forall k :: 0 <= k < |es| ==> Quiet(es[k])
    case _ => true
  }

  lemma {:induction false} QuietEval(c: Conversions, q: string, rule: Rule, e: KqlExpr, pos: nat, env: Env<Built>, errs: seq<Error<Rule>>)
    requires WellFormed(Kql(c)) && WellFormedExpr(Kql(c), e) && pos <= |q| && Quiet(e)
    ensures Eval(Kql(c), q, rule, e, pos, env, errs).errs == errs
    decreases e, 0, 0
  {
    hide WellFormed;
    match e
    case Action(e1, run) =>
      QuietEval(c, q, rule, e1, pos, env, errs);
      QuietAction(c, q, rule, e1, run, pos, env, errs);
    case And(e1) => QuietEval(c, q, rule, e1, pos, map[], errs);
    case Not(e1) => QuietEval(c, q, rule, e1, pos, map[], errs);
    case Choice(es) => QuietChoice(c, q, rule, es, pos, env, errs);
    case Labeled(_, e1) => QuietEval(c, q, rule, e1, pos, map[], errs);
    case OneOrMore(e1) =>
      QuietEval(c, q, rule, e1, pos, map[], errs);
      var o := Eval(Kql(c), q, rule, e1, pos, map[], errs);
      if o.Success? {
        QuietLoop(c, q, rule, e1, o.pos, env, errs, [o.val]);
      }
    case ZeroOrMore(e1) => QuietLoop(c, q, rule, e1, pos, env, errs, []);
    case ZeroOrOne(e1) => QuietEval(c, q, rule, e1, pos, map[], errs);
    case Seq(es) => QuietSeq(c, q, rule, es, pos, env, errs, []);
    case _ =>
  }

  lemma QuietAction(c: Conversions, q: string, rule: Rule, e: KqlExpr, run: nat, pos: nat, env: Env<Built>, errs: seq<Error<Rule>>)
    requires WellFormed(Kql(c)) && WellFormedExpr(Kql(c), e) && WellFormedExpr(Kql(c), Action(e, run)) && pos <= |q| && Quiet(Action(e, run))
    requires Eval(Kql(c), q, rule, e, pos, env, errs).errs == errs
    ensures Eval(Kql(c), q, rule, Action(e, run), pos, env, errs).errs == errs
  {
    hide WellFormed, WellFormedExpr;
    var o := Eval(Kql(c), q, rule, e, pos, env, errs);
    if o.Success? {
      assert Run(c, run, o.env, q[pos..o.pos]).err.None?;
    }
  }

  lemma {:induction false} QuietChoice(c: Conversions, q: string, rule: Rule, es: seq<KqlExpr>, pos: nat, env: Env<Built>,
                                       errs: seq<Error<Rule>>)
    requires WellFormed(Kql(c)) && pos <= |q| && forall k :: 0 <= k < |es| ==> WellFormedExpr(Kql(c), es[k]) && Quiet(es[k])
    ensures EvalChoice(Kql(c), q, rule, es, pos, env, errs).errs == errs
    decreases es, 0, 0
  {
    hide WellFormed, WellFormedExpr, Eval, Quiet;
    if es != [] {
      QuietEval(c, q, rule, es[0], pos, map[], errs);
      QuietChoice(c, q, rule, es[1..], pos, env, errs);
    }
  }

  lemma {:induction false} QuietSeq(c: Conversions, q: string, rule: Rule, es: seq<KqlExpr>, pos: nat, env: Env<Built>,
                                    errs: seq<Error<Rule>>, vals: seq<KqlValue>)
    requires WellFormed(Kql(c)) && pos <= |q| && forall k :: 0 <= k < |es| ==> WellFormedExpr(Kql(c), es[k]) && Quiet(es[k])
    ensures EvalSeq(Kql(c), q, rule, es, pos, env, errs, vals).errs == errs
    decreases es, 0, 0
  {
    hide WellFormed, WellFormedExpr, Eval, Quiet;
    if es != [] {
      QuietEval(c, q, rule, es[0], pos, env, errs);
      var o := Eval(Kql(c), q, rule, es[0], pos, env, errs);
      if o.Success? {
        QuietSeq(c, q, rule, es[1..], o.pos, o.env, errs, vals + [o.val]);
      }
    }
  }

  lemma {:induction false} QuietLoop(c: Conversions, q: string, rule: Rule, e: KqlExpr, pos: nat, env: Env<Built>,
                                     errs: seq<Error<Rule>>, vals: seq<KqlValue>)
    requires WellFormed(Kql(c)) && WellFormedExpr(Kql(c), e) && !MayBeEmpty(Kql(c), e) && pos <= |q| && Quiet(e)
    ensures EvalLoop(Kql(c), q, rule, e, pos, env, errs, vals).errs == errs
    decreases e, 1, |q| - pos
  {
    hide WellFormed, WellFormedExpr, MayBeEmpty, Eval, Quiet, Kql;
    QuietEval(c, q, rule, e, pos, map[], errs);
    KqlStrings.LoopStep(Kql(c), q, rule, e, pos, env, errs, vals);
    var o := Eval(Kql(c), q, rule, e, pos, map[], errs);
    if o.Success? {
      QuietLoop(c, q, rule, e, o.pos, env, errs, vals + [o.val]);
    }
  }

  /** What covers no text here, fails. */
  lemma NoMatch(c: Conversions, q: string, e: KqlExpr, pos: nat)
    requires WellFormed(Kql(c)) && WellFormedExpr(Kql(c), e) && pos <= |q| && Quiet(e)
    requires forall n :: pos <= n <= |q| ==> !Covers(e, q[pos..n])
    ensures Eval(Kql(c), q, NodeRule, e, pos, map[], []) == Failure([])
  {
    hide WellFormed, WellFormedExpr, Eval, Kql, Quiet, Covers;
    QuietEval(c, q, NodeRule, e, pos, map[], []);
    MatchIsCovered(Kql(c), q, NodeRule, e, pos, map[], []);
  }

  // ----- digits and patterns -----

  lemma {:induction false} PatternMatches(c: Conversions, q: string, e: KqlExpr, pos: nat, env: Env<Built>, p: string)
    requires WellFormed(Kql(c)) && WellFormedExpr(Kql(c), e) && PatternOf(e) == Some(p) && Quiet(e)
    requires pos + |p| <= |q| && Shape(q[pos..pos + |p|], p)
    ensures var o := Eval(Kql(c), q, NodeRule, e, pos, env, []); o.Success? && o.pos == pos + |p| && o.env == env
    decreases e, 0
  {
    hide WellFormed;
    match e
    case Lit(_) =>
    case CharClass(_, _, _) => DigitIs(q[pos..pos + 1]);
    case Action(e1, _) => PatternMatches(c, q, e1, pos, env, p);
    case Seq(es) =>
      var vals := PatternSeq(c, q, es, [], pos, env, [], p);
      assert es + [] == es;
      EvalNoSeq(Kql(c), q, NodeRule, pos + |p|, env, [], vals);
    case _ =>
  }

  /** The first parts of a sequence match a pattern; the others go on behind it. */
  lemma {:induction false} PatternSeq(c: Conversions, q: string, a: seq<KqlExpr>, b: seq<KqlExpr>, pos: nat, env: Env<Built>,
                                      vals: seq<KqlValue>, p: string) returns (more: seq<KqlValue>)
    requires WellFormed(Kql(c)) && PatternOfAll(a) == Some(p) && pos + |p| <= |q| && Shape(q[pos..pos + |p|], p)
    requires (forall k :: 0 <= k < |a| ==> WellFormedExpr(Kql(c), a[k]) && Quiet(a[k]))
    requires forall k :: 0 <= k < |b| ==> WellFormedExpr(Kql(c), b[k])
    requires forall k :: 0 <= k < |a + b| ==> WellFormedExpr(Kql(c), (a + b)[k])
    ensures EvalSeq(Kql(c), q, NodeRule, a + b, pos, env, [], vals) == EvalSeq(Kql(c), q, NodeRule, b, pos + |p|, env, [], more)
    decreases a, 0
  {
    hide WellFormed, WellFormedExpr, Eval, EvalSeq, Quiet, PatternOf, Kql;
    more := vals;
    if a == [] {
      assert a + b == b;
    } else {
      var first, rest := PatternOf(a[0]).value, PatternOfAll(a[1..]).value;
      ShapeSplits(q, pos, first, rest);
      PatternMatches(c, q, a[0], pos, env, first);
      QuietEval(c, q, NodeRule, a[0], pos, env, []);
      assert (a + b)[1..] == a[1..] + b && (a + b)[0] == a[0];
      assert a + b == [a[0]] + (a[1..] + b);
      assert forall k :: 0 <= k < |a[1..] + b| ==> (a[1..] + b)[k] == (a + b)[k + 1];
      KqlStrings.SeqStep(Kql(c), q, NodeRule, a[0], a[1..] + b, pos, env, [], vals);
      var v := Eval(Kql(c), q, NodeRule, a[0], pos, env, []).val;
      more := PatternSeq(c, q, a[1..], b, pos + |first|, env, vals + [v], rest);
    }
  }

  lemma ShapeSplits(q: string, pos: nat, a: string, b: string)
    requires pos + |a| + |b| <= |q| && Shape(q[pos..pos + |a + b|], a + b)
    ensures Shape(q[pos..pos + |a|], a) && Shape(q[pos + |a|..pos + |a| + |b|], b)
  {
    var t := q[pos..pos + |a + b|];
    forall k | 0 <= k < |a| ensures if a[k] == '0' then IsDigit(q[pos..pos + |a|][k]) else q[pos..pos + |a|][k] == a[k] {
      assert q[pos..pos + |a|][k] == t[k] && (a + b)[k] == a[k];
    }
    forall k | 0 <= k < |b|
      ensures var s := q[pos + |a|..pos + |a| + |b|]; if b[k] == '0' then IsDigit(s[k]) else s[k] == b[k]
    {
      assert q[pos + |a|..pos + |a| + |b|][k] == t[|a| + k] && (a + b)[|a| + k] == b[k];
    }
  }

  // ----- times -----

  /** The expressions for times, and their parts, are well formed and quiet. */
  predicate Plainly(c: Conversions, e: KqlExpr) {
    WellFormedExpr(Kql(c), e) && Quiet(e)
  }

  lemma SeqPlainly(c: Conversions, es: seq<KqlExpr>)
    requires forall k :: 0 <= k < |es| ==> Plainly(c, es[k])
    ensures Plainly(c, Seq(es)) && Plainly(c, Action(Seq(es), RETURN_TEXT)) && Plainly(c, Choice(es))
  {}

  lemma DigitPlainly(c: Conversions)
    ensures Plainly(c, Digit()) && !MayBeEmpty(Kql(c), Digit()) && Plainly(c, OneOrMore(Digit()))
    ensures Plainly(c, DigitClass()) && !MayBeEmpty(Kql(c), DigitClass()) && Plainly(c, OneOrMore(DigitClass()))
  {}

  lemma LitPlainly(c: Conversions)
    ensures Plainly(c, Lit("-")) && Plainly(c, Lit(":")) && Plainly(c, Lit(".")) && Plainly(c, Lit("+")) && Plainly(c, Lit("Z"))
    ensures Plainly(c, Lit("T"))
  {}

  lemma ClockPlainly(c: Conversions)
    ensures Plainly(c, Digits2()) && Plainly(c, TimeYear()) && Plainly(c, FullDate())
    ensures Plainly(c, PlusOrMinus()) && Plainly(c, Offset())
  {
    hide Plainly, Digit;
    DigitPlainly(c);
    LitPlainly(c);
    SeqPlainly(c, [Digit(), Digit()]);
    SeqPlainly(c, [Digit(), Digit(), Digit(), Digit()]);
    SeqPlainly(c, [TimeYear(), Lit("-"), Digits2(), Lit("-"), Digits2()]);
    SeqPlainly(c, [Lit("+"), Lit("-")]);
    SeqPlainly(c, [PlusOrMinus(), Digits2(), Lit(":"), Digits2()]);
  }

  function Decimals(): KqlExpr {
    Seq([Lit("."), OneOrMore(Digit())])
  }

  function ZoneExpr(): KqlExpr {
    Choice([Lit("Z"), Offset()])
  }

  function Clock(): seq<KqlExpr> {
    [Digits2(), Lit(":"), Digits2(), Lit(":"), Digits2()]
  }

  lemma FullTimeIs()
    ensures FullTime() == Action(Seq(Clock() + [ZeroOrOne(Decimals()), ZoneExpr()]), RETURN_TEXT)
  {
    hide Digits2, Digit;
    assert Clock() + [ZeroOrOne(Decimals()), ZoneExpr()] == FullTime().expr.exprs;
  }

  lemma OptionPlainly(c: Conversions, e: KqlExpr)
    requires Plainly(c, e)
    ensures Plainly(c, ZeroOrOne(e))
  {}

  lemma TimePlainly(c: Conversions)
    ensures Plainly(c, Decimals()) && Plainly(c, ZeroOrOne(Decimals())) && Plainly(c, ZoneExpr()) && Plainly(c, FullTime())
    ensures forall k :: 0 <= k < 5 ==> Plainly(c, Clock()[k])
    ensures Plainly(c, Seq(Clock() + [ZeroOrOne(Decimals()), ZoneExpr()]))
    ensures Plainly(c, DateTime()) && Plainly(c, AnyDateTime()) && Plainly(c, FullDate())
  {
    hide Plainly, Digit, Digits2, Offset, FullDate, FullTime, PlusOrMinus;
    DigitPlainly(c);
    LitPlainly(c);
    ClockPlainly(c);
    SeqPlainly(c, [Lit("."), OneOrMore(Digit())]);
    OptionPlainly(c, Decimals());
    SeqPlainly(c, [Lit("Z"), Offset()]);
    FullTimeIs();
    SeqPlainly(c, Clock() + [ZeroOrOne(Decimals()), ZoneExpr()]);
    SeqPlainly(c, [FullDate(), Lit("T"), FullTime()]);
    SeqPlainly(c, [DateTime(), FullDate(), FullTime()]);
  }

  /** A run of digits. */
  lemma DigitsRun(c: Conversions, q: string, e: KqlExpr, pos: nat, t: string, env: Env<Built>)
    requires WellFormed(Kql(c)) && Reads(q, pos, t) && Digits(t) && (e == Digit() || e == DigitClass())
    requires At(q, pos + |t|).None? || !IsDigit(At(q, pos + |t|).value)
    ensures WellFormedExpr(Kql(c), OneOrMore(e))
    ensures var o := Eval(Kql(c), q, NodeRule, OneOrMore(e), pos, env, []);
      o.Success? && o.pos == pos + |t| && o.env == env && o.errs == []
  {
    hide WellFormed, Kql, Digit, DigitClass;
    ReadsAt(q, pos, t);
    DigitPlainly(c);
    forall k | pos <= k < pos + |t| ensures Takes(c, q, NodeRule, e, k) {
      assert q[k] == t[k - pos];
      DigitTakes(c, q, e, k);
    }
    DigitStops(e, At(q, pos + |t|));
    CannotStartFails(c, q, NodeRule, e, pos + |t|, map[], []);
    SomeOf(c, q, NodeRule, e, pos, |t|, env);
  }

  lemma DigitTakes(c: Conversions, q: string, e: KqlExpr, pos: nat)
    requires WellFormed(Kql(c)) && WellFormedExpr(Kql(c), e) && (e == Digit() || e == DigitClass()) && pos < |q| && IsDigit(q[pos])
    ensures Takes(c, q, NodeRule, e, pos)
  {
    hide WellFormed, Kql;
    var ranges := [('0', '9')];
    assert ranges[0].0 <= q[pos] <= ranges[0].1;
    assert InClass(q[pos], [], ranges);
    ActionText(c, q, NodeRule, CharClass([], ranges, false), pos, map[], []);
  }

  lemma DigitStops(e: KqlExpr, ch: Option<char>)
    requires (e == Digit() || e == DigitClass()) && (ch.None? || !IsDigit(ch.value))
    ensures CannotStart(e, ch)
  {}

  // ----- parts of a time -----

  lemma TwoMatch(c: Conversions, q: string, a: KqlExpr, b: KqlExpr, pos: nat, env: Env<Built>)
    requires WellFormed(Kql(c)) && pos <= |q| && WellFormedExpr(Kql(c), Seq([a, b])) && WellFormedExpr(Kql(c), a) && WellFormedExpr(Kql(c), b)
    requires var o1 := Eval(Kql(c), q, NodeRule, a, pos, env, []);
      && o1.Success? && o1.errs == []
      && var o2 := Eval(Kql(c), q, NodeRule, b, o1.pos, o1.env, []); o2.Success? && o2.errs == []
    ensures var o1 := Eval(Kql(c), q, NodeRule, a, pos, env, []);
      var o2 := Eval(Kql(c), q, NodeRule, b, o1.pos, o1.env, []);
      var o := Eval(Kql(c), q, NodeRule, Seq([a, b]), pos, env, []);
      o.Success? && o.pos == o2.pos && o.env == o2.env && o.errs == []
  {
    hide *;
    var g := Kql(c);
    assert [a, b] == [a] + ([b] + []);
    EvalIsSeq(g, q, NodeRule, [a, b], pos, env, []);
    var o1 := Eval(g, q, NodeRule, a, pos, env, []);
    var o2 := Eval(g, q, NodeRule, b, o1.pos, o1.env, []);
    EvalNoSeq(g, q, NodeRule, o2.pos, o2.env, [], [] + [o1.val] + [o2.val]);
    KqlStrings.SeqStep(g, q, NodeRule, b, [], o1.pos, o1.env, [], [] + [o1.val]);
    KqlStrings.SeqStep(g, q, NodeRule, a, [b] + [], pos, env, [], []);
  }

  lemma PlainlyIs(c: Conversions, e: KqlExpr)
    requires Plainly(c, e)
    ensures WellFormedExpr(Kql(c), e) && Quiet(e)
  {}

  lemma FractionMatches(c: Conversions, q: string, pos: nat, t: string, env: Env<Built>)
    requires WellFormed(Kql(c)) && Reads(q, pos, t) && Fraction(t)
    requires At(q, pos + |t|).Some? && At(q, pos + |t|).value in "Z+-"
    ensures WellFormedExpr(Kql(c), ZeroOrOne(Decimals()))
    ensures var o := Eval(Kql(c), q, NodeRule, ZeroOrOne(Decimals()), pos, env, []);
      o.Success? && o.pos == pos + |t| && o.env == env && o.errs == []
  {
    hide *;
    TimePlainly(c);
    PlainlyIs(c, ZeroOrOne(Decimals()));
    PlainlyIs(c, Decimals());
    ReadsThere(q, pos, t);
    if t == "" {
      NoDecimals(At(q, pos));
      SkipsConsumesNothing(c, q, NodeRule, ZeroOrOne(Decimals()), pos, env, []);
    } else {
      DecimalsMatch(c, q, pos, t);
      OptionTakes(Kql(c), q, Decimals(), pos, env);
    }
  }

  lemma NoDecimals(ch: Option<char>)
    requires ch.Some? && ch.value in "Z+-"
    ensures Skips(ZeroOrOne(Decimals()), ch)
  {
    hide Digit;
  }

  lemma DecimalsMatch(c: Conversions, q: string, pos: nat, t: string)
    requires WellFormed(Kql(c)) && Reads(q, pos, t) && Fraction(t) && t != "" && WellFormedExpr(Kql(c), Decimals())
    requires At(q, pos + |t|).Some? && At(q, pos + |t|).value in "Z+-"
    ensures var o := Eval(Kql(c), q, NodeRule, Decimals(), pos, map[], []);
      o.Success? && o.pos == pos + |t| && o.errs == []
  {
    hide *;
    FractionParts(q, pos, t);
    DecimalsAre();
    SeqMembers(Kql(c), [Lit("."), OneOrMore(Digit())]);
    LitPlainly(c);
    PlainlyIs(c, Lit("."));
    LitMatches(Kql(c), q, NodeRule, ".", pos, map[]);
    DigitsRun(c, q, Digit(), pos + 1, t[1..], map[]);
    TwoMatch(c, q, Lit("."), OneOrMore(Digit()), pos, map[]);
  }

  lemma DecimalsAre()
    ensures Decimals() == Seq([Lit("."), OneOrMore(Digit())])
  {}

  lemma FractionParts(q: string, pos: nat, t: string)
    requires Reads(q, pos, t) && Fraction(t) && t != "" && At(q, pos + |t|).Some? && At(q, pos + |t|).value in "Z+-"
    ensures Reads(q, pos, ".") && Digits(t[1..]) && Reads(q, pos + 1, t[1..]) && |"."| == 1
    ensures At(q, pos + 1 + |t[1..]|).Some? && !IsDigit(At(q, pos + 1 + |t[1..]|).value)
  {
    assert t == "." + t[1..];
    ReadsParts(q, pos, ".", t[1..]);
  }

  lemma OptionTakes(g: Grammar<Rule, Built>, q: string, e: KqlExpr, pos: nat, env: Env<Built>)
    requires WellFormed(g) && pos <= |q| && WellFormedExpr(g, e) && Eval(g, q, NodeRule, e, pos, map[], []).Success?
    ensures WellFormedExpr(g, ZeroOrOne(e))
    ensures var o := Eval(g, q, NodeRule, e, pos, map[], []);
      Eval(g, q, NodeRule, ZeroOrOne(e), pos, env, []) == Success(o.val, o.pos, env, o.errs)
  {
    hide WellFormed;
  }

  lemma ZoneMatches(c: Conversions, q: string, pos: nat, t: string, env: Env<Built>)
    requires WellFormed(Kql(c)) && Reads(q, pos, t) && Zone(t)
    ensures WellFormedExpr(Kql(c), ZoneExpr())
    ensures var o := Eval(Kql(c), q, NodeRule, ZoneExpr(), pos, env, []); o.Success? && o.pos == pos + |t| && o.env == env
  {
    hide *;
    TimePlainly(c);
    ClockPlainly(c);
    LitPlainly(c);
    PlainlyIs(c, ZoneExpr());
    PlainlyIs(c, Offset());
    PlainlyIs(c, Lit("Z"));
    ZoneIs();
    ReadsThere(q, pos, t);
    var es := [Lit("Z"), Offset()];
    EvalIsChoice(Kql(c), q, NodeRule, es, pos, env, []);
    assert es[0] == Lit("Z") && es[1] == Offset();
    if t == "Z" {
      LitMatches(Kql(c), q, NodeRule, "Z", pos, map[]);
      ChoicePicks(c, q, NodeRule, es, 0, pos, env);
    } else {
      SignedOffset(q, pos, t);
      LitFails(Kql(c), q, NodeRule, "Z", pos, map[]);
      OffsetMatches(c, q, pos, t);
      ChoicePicks(c, q, NodeRule, es, 1, pos, env);
    }
  }

  lemma ZoneIs()
    ensures ZoneExpr() == Choice([Lit("Z"), Offset()])
  {}

  lemma SignedOffset(q: string, pos: nat, t: string)
    requires Reads(q, pos, t) && Zone(t) && t != "Z"
    ensures |t| == 6 && pos + 6 <= |q| && (Reads(q, pos, "+") || Reads(q, pos, "-")) && !Reads(q, pos, "Z")
    ensures (Reads(q, pos, "+") ==> !Reads(q, pos, "-")) && Shape(q[pos + 1..pos + 1 + |"00:00"|], "00:00")
  {
    ReadsAt(q, pos, t);
    assert t[0] == '+' || t[0] == '-';
    assert q[pos..pos + 1] == [t[0]];
    var p := if t[0] == '+' then "+00:00" else "-00:00";
    assert Shape(t, p) && p[1..] == "00:00";
    forall k | 0 <= k < 5 ensures q[pos + 1..pos + 6][k] == t[k + 1] && "00:00"[k] == p[k + 1] {
      assert p[1..][k] == p[k + 1];
    }
  }

  lemma OffsetMatches(c: Conversions, q: string, pos: nat, t: string)
    requires WellFormed(Kql(c)) && Reads(q, pos, t) && Zone(t) && t != "Z" && WellFormedExpr(Kql(c), Offset())
    ensures pos + |t| <= |q|
    ensures var o := Eval(Kql(c), q, NodeRule, Offset(), pos, map[], []); o.Success? && o.pos == pos + |t|
  {
    hide *;
    SignedOffset(q, pos, t);
    var rest := [Digits2(), Lit(":"), Digits2()];
    OffsetIs();
    ClockPlainly(c);
    LitPlainly(c);
    SignMatches(c, q, pos);
    SeqMembers(Kql(c), [PlusOrMinus()] + rest);
    ClockPattern();
    RestPlainly(c);
    EvalIsSeq(Kql(c), q, NodeRule, [PlusOrMinus()] + rest, pos, map[], []);
    PlainlyIs(c, PlusOrMinus());
    KqlStrings.SeqStep(Kql(c), q, NodeRule, PlusOrMinus(), rest, pos, map[], [], []);
    var o := Eval(Kql(c), q, NodeRule, PlusOrMinus(), pos, map[], []);
    var vals := PatternSeq(c, q, rest, [], pos + 1, map[], [] + [o.val], "00:00");
    assert rest + [] == rest;
    EvalNoSeq(Kql(c), q, NodeRule, pos + 1 + |"00:00"|, map[], [], vals);
  }

  lemma OffsetIs()
    ensures Offset() == Seq([PlusOrMinus()] + [Digits2(), Lit(":"), Digits2()])
  {
    hide Digits2, PlusOrMinus;
    assert [PlusOrMinus()] + [Digits2(), Lit(":"), Digits2()] == [PlusOrMinus(), Digits2(), Lit(":"), Digits2()];
  }

  lemma RestPlainly(c: Conversions)
    ensures var rest := [Digits2(), Lit(":"), Digits2()];
      forall k :: 0 <= k < |rest| ==> WellFormedExpr(Kql(c), rest[k]) && Quiet(rest[k])
    ensures var rest := [Digits2(), Lit(":"), Digits2()]; forall k :: 0 <= k < |rest + []| ==> WellFormedExpr(Kql(c), (rest + [])[k])
  {
    ClockPlainly(c);
    LitPlainly(c);
    hide WellFormedExpr, Quiet, Kql, Digits2;
  }

  lemma SignIs()
    ensures PlusOrMinus() == Choice([Lit("+"), Lit("-")])
  {}

  lemma PlusIsOne()
    ensures |"+"| == 1 && |"-"| == 1
  {}

  lemma SignMatches(c: Conversions, q: string, pos: nat)
    requires WellFormed(Kql(c)) && (Reads(q, pos, "+") || Reads(q, pos, "-")) && (Reads(q, pos, "+") ==> !Reads(q, pos, "-"))
    ensures WellFormedExpr(Kql(c), PlusOrMinus()) && pos + 1 <= |q|
    ensures var o := Eval(Kql(c), q, NodeRule, PlusOrMinus(), pos, map[], []);
      o.Success? && o.pos == pos + 1 && o.env == map[] && o.errs == []
  {
    hide *;
    ClockPlainly(c);
    LitPlainly(c);
    PlainlyIs(c, PlusOrMinus());
    PlainlyIs(c, Lit("+"));
    PlainlyIs(c, Lit("-"));
    SignIs();
    var es := [Lit("+"), Lit("-")];
    assert es[0] == Lit("+") && es[1] == Lit("-");
    PlusIsOne();
    if Reads(q, pos, "+") {
      ReadsThere(q, pos, "+");
    } else {
      ReadsThere(q, pos, "-");
    }
    EvalIsChoice(Kql(c), q, NodeRule, es, pos, map[], []);
    if Reads(q, pos, "+") {
      LitMatches(Kql(c), q, NodeRule, "+", pos, map[]);
      ChoicePicks(c, q, NodeRule, es, 0, pos, map[]);
    } else {
      LitFails(Kql(c), q, NodeRule, "+", pos, map[]);
      LitMatches(Kql(c), q, NodeRule, "-", pos, map[]);
      ChoicePicks(c, q, NodeRule, es, 1, pos, map[]);
    }
  }

  // ----- whole times -----

  lemma DateMatches(c: Conversions, q: string, pos: nat, t: string)
    requires WellFormed(Kql(c)) && Reads(q, pos, t) && IsDate(t)
    ensures WellFormedExpr(Kql(c), FullDate()) && |t| == 10 && pos + 10 <= |q|
    ensures var o := Eval(Kql(c), q, NodeRule, FullDate(), pos, map[], []);
      o.Success? && o.pos == pos + 10 && o.env == map[] && o.errs == []
  {
    ClockPlainly(c);
    DatePattern();
    assert |"0000-00-00"| == 10;
    hide WellFormed, WellFormedExpr, Kql, Eval, FullDate, Quiet, PatternOf;
    PatternMatches(c, q, FullDate(), pos, map[], "0000-00-00");
    QuietEval(c, q, NodeRule, FullDate(), pos, map[], []);
  }

  lemma ClockParts(c: Conversions, q: string, pos: nat, t: string, n: nat)
    requires Reads(q, pos, t) && 8 <= n <= |t| && Shape(t[..8], "00:00:00") && Fraction(t[8..n]) && Zone(t[n..])
    ensures pos + |t| <= |q| && Shape(q[pos..pos + |"00:00:00"|], "00:00:00") && |"00:00:00"| == 8
    ensures Reads(q, pos + 8, t[8..n]) && Reads(q, pos + n, t[n..])
    ensures At(q, pos + 8 + |t[8..n]|).Some? && At(q, pos + 8 + |t[8..n]|).value in "Z+-"
  {
    hide Reads, At, Shape, Fraction, Zone;
    ThreeParts(t, n);
    ReadsParts(q, pos, t[..8], t[8..n] + t[n..]);
    ReadsParts(q, pos + 8, t[8..n], t[n..]);
    ReadsIs(q, pos, t[..8]);
    ReadsThere(q, pos, t);
    ReadsAt(q, pos + n, t[n..]);
    ZoneStarts(t[n..]);
  }

  lemma ThreeParts(t: string, n: nat)
    requires 8 <= n <= |t|
    ensures t == t[..8] + (t[8..n] + t[n..]) && |"00:00:00"| == 8
  {}

  lemma ZoneStarts(z: string)
    requires Zone(z)
    ensures z != "" && z[0] in "Z+-"
  {
    assert z == "Z" || z[0] == '+' || z[0] == '-';
  }

  lemma ClockMembers(c: Conversions)
    ensures var es := Clock() + [ZeroOrOne(Decimals()), ZoneExpr()];
      && WellFormedExpr(Kql(c), Seq(es)) && WellFormedExpr(Kql(c), FullTime()) && Quiet(FullTime())
      && (forall k :: 0 <= k < |es| ==> WellFormedExpr(Kql(c), es[k]))
      && (forall k :: 0 <= k < |Clock()| ==> WellFormedExpr(Kql(c), Clock()[k]) && Quiet(Clock()[k]))
      && WellFormedExpr(Kql(c), ZeroOrOne(Decimals())) && WellFormedExpr(Kql(c), ZoneExpr())
  {
    TimePlainly(c);
    hide WellFormedExpr, Quiet, Kql, Decimals, ZoneExpr, FullTime, Digits2;
    SeqMembers(Kql(c), Clock() + [ZeroOrOne(Decimals()), ZoneExpr()]);
    assert |Clock()| == 5;
  }

  lemma TimeMatches(c: Conversions, q: string, pos: nat, t: string)
    requires WellFormed(Kql(c)) && Reads(q, pos, t) && IsTime(t)
    ensures WellFormedExpr(Kql(c), FullTime()) && pos + |t| <= |q|
    ensures var o := Eval(Kql(c), q, NodeRule, FullTime(), pos, map[], []); o.Success? && o.pos == pos + |t| && o.errs == []
  {
    var n :| 8 <= n <= |t| && Shape(t[..8], "00:00:00") && Fraction(t[8..n]) && Zone(t[n..]);
    hide *;
    ClockMembers(c);
    ClockParts(c, q, pos, t, n);
    QuietEval(c, q, NodeRule, FullTime(), pos, map[], []);
    TimeSeq(c, q, pos, t, n);
    FullTimeIs();
    ActionText(c, q, NodeRule, Seq(Clock() + [ZeroOrOne(Decimals()), ZoneExpr()]), pos, map[], []);
  }

  lemma TimeSeq(c: Conversions, q: string, pos: nat, t: string, n: nat)
    requires WellFormed(Kql(c)) && Reads(q, pos, t)
    requires 8 <= n <= |t| && Shape(t[..8], "00:00:00") && Fraction(t[8..n]) && Zone(t[n..])
    ensures WellFormedExpr(Kql(c), Seq(Clock() + [ZeroOrOne(Decimals()), ZoneExpr()])) && pos + |t| <= |q|
    ensures var o := Eval(Kql(c), q, NodeRule, Seq(Clock() + [ZeroOrOne(Decimals()), ZoneExpr()]), pos, map[], []);
      o.Success? && o.pos == pos + |t|
  {
    hide *;
    var g, r, a, fraction, zone := Kql(c), NodeRule, Clock(), ZeroOrOne(Decimals()), ZoneExpr();
    ClockMembers(c);
    ClockParts(c, q, pos, t, n);
    ClockPattern();
    ClockIs();
    EvalIsSeq(g, q, r, a + [fraction, zone], pos, map[], []);
    var vals := PatternSeq(c, q, a, [fraction, zone], pos, map[], [], "00:00:00");
    FractionMatches(c, q, pos + 8, t[8..n], map[]);
    ZoneMatches(c, q, pos + n, t[n..], map[]);
    assert [fraction, zone] == [fraction] + ([zone] + []);
    var o1 := Eval(g, q, r, fraction, pos + 8, map[], []);
    var o2 := Eval(g, q, r, zone, pos + n, map[], []);
    EvalNoSeq(g, q, r, o2.pos, o2.env, o2.errs, vals + [o1.val] + [o2.val]);
    KqlStrings.SeqStep(g, q, r, zone, [], pos + n, map[], [], vals + [o1.val]);
    KqlStrings.SeqStep(g, q, r, fraction, [zone] + [], pos + 8, map[], [], vals);
  }

  lemma ClockIs()
    ensures Clock() == [Digits2(), Lit(":"), Digits2(), Lit(":"), Digits2()]
  {}

  /** What may follow a value that is not in quotes, or in them. */
  predicate ValueStop(ch: Option<char>) {
    ch.None? || ch.value in " \t()\""
  }

  function DateTimeExprs(): seq<KqlExpr> {
    [FullDate(), Lit("T"), FullTime()]
  }

  lemma DateTimeIs(c: Conversions)
    ensures DateTime() == Action(Seq(DateTimeExprs()), RETURN_TEXT)
    ensures AnyDateTime() == Choice([DateTime(), FullDate(), FullTime()])
    ensures WellFormedExpr(Kql(c), Seq(DateTimeExprs())) && forall k :: 0 <= k < 3 ==> WellFormedExpr(Kql(c), DateTimeExprs()[k])
    ensures var es := DateTimeExprs(); |es| == 3 && es[0] == FullDate() && es[1] == Lit("T") && es[2] == FullTime()
    ensures WellFormedExpr(Kql(c), DateTime()) && WellFormedExpr(Kql(c), FullDate()) && WellFormedExpr(Kql(c), FullTime())
    ensures WellFormedExpr(Kql(c), AnyDateTime()) && WellFormedExpr(Kql(c), Lit("T"))
    ensures Quiet(FullDate()) && Quiet(AnyDateTime())
  {
    TimePlainly(c);
    LitPlainly(c);
    hide WellFormedExpr, Quiet, Kql, FullDate, FullTime;
    assert DateTime() == Action(Seq(DateTimeExprs()), RETURN_TEXT);
    ActionParts(Kql(c), Seq(DateTimeExprs()), RETURN_TEXT);
    SeqMembers(Kql(c), DateTimeExprs());
  }

  /** Behind a date there is no `T`. */
  lemma DateOnly(c: Conversions, q: string, pos: nat, t: string)
    requires WellFormed(Kql(c)) && Reads(q, pos, t) && IsDate(t) && At(q, pos + |t|) != Some('T')
    ensures pos <= |q| && WellFormedExpr(Kql(c), DateTime()) && Eval(Kql(c), q, NodeRule, DateTime(), pos, map[], []) == Failure([])
  {
    hide *;
    DateTimeIs(c);
    DateMatches(c, q, pos, t);
    NoT(q, pos + 10);
    LitFails(Kql(c), q, NodeRule, "T", pos + 10, map[]);
    KqlStrings.SeqOfThree(Kql(c), q, NodeRule, DateTimeExprs(), pos, map[], []);
    ActionFails(c, q, NodeRule, Seq(DateTimeExprs()), RETURN_TEXT, pos);
  }

  lemma NoT(q: string, pos: nat)
    requires At(q, pos) != Some('T')
    ensures !Reads(q, pos, "T")
  {
    if Reads(q, pos, "T") {
      ReadsAt(q, pos, "T");
    }
  }

  lemma DateThird(t: string)
    requires IsDate(t)
    ensures |t| > 2 && IsDigit(t[2])
  {
    assert "0000-00-00"[2] == '0';
  }

  /** The third rune of a date is a digit. */
  lemma NoDate(c: Conversions, q: string, pos: nat)
    requires WellFormed(Kql(c)) && pos <= |q| && (At(q, pos + 2).None? || !IsDigit(At(q, pos + 2).value))
    ensures WellFormedExpr(Kql(c), FullDate()) && Eval(Kql(c), q, NodeRule, FullDate(), pos, map[], []) == Failure([])
    ensures WellFormedExpr(Kql(c), DateTime()) && Eval(Kql(c), q, NodeRule, DateTime(), pos, map[], []) == Failure([])
  {
    DateTimeIs(c);
    hide WellFormed, WellFormedExpr, Eval, EvalSeq, Kql, Quiet, FullDate, FullTime, DateTime, DateTimeExprs, Covers;
    forall n | pos <= n <= |q| ensures !Covers(FullDate(), q[pos..n]) {
      if Covers(FullDate(), q[pos..n]) {
        DateOf(q[pos..n]);
        DateThird(q[pos..n]);
      }
    }
    NoMatch(c, q, FullDate(), pos);
    KqlStrings.SeqOfThree(Kql(c), q, NodeRule, DateTimeExprs(), pos, map[], []);
    ActionFails(c, q, NodeRule, Seq(DateTimeExprs()), RETURN_TEXT, pos);
  }

  lemma DateTimeMatches(c: Conversions, q: string, pos: nat, t: string)
    requires WellFormed(Kql(c)) && Reads(q, pos, t) && |t| > 11 && IsDate(t[..10]) && t[10] == 'T' && IsTime(t[11..])
    ensures pos + |t| <= |q| && WellFormedExpr(Kql(c), DateTime())
    ensures var o := Eval(Kql(c), q, NodeRule, DateTime(), pos, map[], []); o.Success? && o.pos == pos + |t| && o.errs == []
  {
    hide *;
    DateTimeReads(q, pos, t);
    DateTimeIs(c);
    DateMatches(c, q, pos, t[..10]);
    LitMatches(Kql(c), q, NodeRule, "T", pos + 10, map[]);
    TimeMatches(c, q, pos + 11, t[11..]);
    KqlStrings.SeqOfThree(Kql(c), q, NodeRule, DateTimeExprs(), pos, map[], []);
    ActionText(c, q, NodeRule, Seq(DateTimeExprs()), pos, map[], []);
  }

  lemma DateTimeReads(q: string, pos: nat, t: string)
    requires Reads(q, pos, t) && |t| > 11 && t[10] == 'T'
    ensures Reads(q, pos, t[..10]) && Reads(q, pos + 10, "T") && Reads(q, pos + 11, t[11..]) && pos + 11 + |t[11..]| == pos + |t| <= |q|
    ensures pos + 10 + |"T"| == pos + 11
  {
    assert t == t[..10] + ("T" + t[11..]);
    ReadsParts(q, pos, t[..10], "T" + t[11..]);
    ReadsParts(q, pos + 10, "T", t[11..]);
  }

  lemma ThirdIsColon(q: string, pos: nat, t: string)
    requires Reads(q, pos, t) && IsTime(t)
    ensures pos <= |q| && At(q, pos + 2) == Some(':')
  {
    ReadsAt(q, pos, t);
    assert t[..8][2] == t[2] && "00:00:00"[2] == ':';
    assert q[pos + 2] == t[2];
  }

  /** A time, up to what may follow it, is taken whole. */
  lemma MomentTaken(c: Conversions, q: string, pos: nat, t: string)
    requires WellFormed(Kql(c)) && Reads(q, pos, t) && IsMoment(t) && ValueStop(At(q, pos + |t|))
    ensures pos + |t| <= |q| && WellFormedExpr(Kql(c), AnyDateTime())
    ensures var o := Eval(Kql(c), q, NodeRule, AnyDateTime(), pos, map[], []);
      o.Success? && o.pos == pos + |t| && o.errs == [] && ToString(o.val) == Some(t)
  {
    hide *;
    MomentKinds(t);
    StopsAreNoT(At(q, pos + |t|));
    ReadsThere(q, pos, t);
    DateTimeIs(c);
    var es := [DateTime(), FullDate(), FullTime()];
    EvalIsChoice(Kql(c), q, NodeRule, es, pos, map[], []);
    assert es[0] == DateTime() && es[1] == FullDate() && es[2] == FullTime();
    if IsDate(t) {
      DateOnly(c, q, pos, t);
      DateMatches(c, q, pos, t);
      ChoicePicks(c, q, NodeRule, es, 1, pos, map[]);
    } else if IsTime(t) {
      ThirdIsColon(q, pos, t);
      ColonIsNoDigit();
      NoDate(c, q, pos);
      TimeMatches(c, q, pos, t);
      ChoicePicks(c, q, NodeRule, es, 2, pos, map[]);
    } else {
      DateTimeMatches(c, q, pos, t);
      ChoicePicks(c, q, NodeRule, es, 0, pos, map[]);
    }
    ValuesAreTextual();
    TextOf(c, q, NodeRule, AnyDateTime(), pos, map[], []);
    ReadsIs(q, pos, t);
  }

  lemma MomentKinds(t: string)
    requires IsMoment(t)
    ensures IsDate(t) || IsTime(t) || (|t| > 11 && IsDate(t[..10]) && t[10] == 'T' && IsTime(t[11..]))
  {
    hide IsDate, IsTime;
  }

  lemma StopsAreNoT(ch: Option<char>)
    requires ValueStop(ch)
    ensures ch != Some('T')
  {}

  lemma ColonIsNoDigit()
    ensures !IsDigit(':')
  {}

  /** A number is no time. */
  lemma NumberIsNoMoment(c: Conversions, q: string, pos: nat, t: string)
    requires WellFormed(Kql(c)) && Reads(q, pos, t) && IsNumber(t) && ValueStop(At(q, pos + |t|))
    ensures pos <= |q| && WellFormedExpr(Kql(c), AnyDateTime())
    ensures Eval(Kql(c), q, NodeRule, AnyDateTime(), pos, map[], []) == Failure([])
  {
    hide *;
    DateTimeIs(c);
    NumberRunes(t);
    ReadsThere(q, pos, t);
    forall n | pos <= n <= |q| ensures !Covers(AnyDateTime(), q[pos..n]) {
      if Covers(AnyDateTime(), q[pos..n]) {
        MomentOf(q[pos..n]);
        MomentMarks(q[pos..n]);
        SliceReads(q, pos, n);
        NoMark(q, pos, t, q[pos..n]);
      }
    }
    NoMatch(c, q, AnyDateTime(), pos);
  }

  /** Every time has a dash or a colon within its first five runes, and digits before. */
  lemma MomentMarks(s: string)
    requires IsMoment(s)
    ensures |s| > 4 && IsDigit(s[0]) && IsDigit(s[1])
    ensures s[2] == ':' || (IsDigit(s[2]) && IsDigit(s[3]) && s[4] == '-')
  {
    var d, c := "0000-00-00", "00:00:00";
    assert d[4] == '-' && d[0] == '0' && d[1] == '0' && d[2] == '0' && d[3] == '0' && c[0] == '0' && c[1] == '0' && c[2] == ':';
    if IsTime(s) && !IsDate(s) {
      var n :| 8 <= n <= |s| && Shape(s[..8], "00:00:00") && Fraction(s[8..n]) && Zone(s[n..]);
      assert s[..8][0] == s[0] && s[..8][1] == s[1] && s[..8][2] == s[2];
    } else if !IsDate(s) {
      assert s[..10][0] == s[0] && s[..10][1] == s[1] && s[..10][2] == s[2] && s[..10][3] == s[3] && s[..10][4] == s[4];
    }
  }

  lemma NumberRunes(t: string)
    requires IsNumber(t)
    ensures t != "" && forall k :: 0 <= k < |t| ==> IsDigit(t[k]) || t[k] == '.'
  {
    if !Digits(t) {
      var k :| 0 < k < |t| && t[k] == '.' && Digits(t[..k]) && Digits(t[k + 1..]);
      forall j | 0 <= j < |t| ensures IsDigit(t[j]) || t[j] == '.' {
        if j < k {
          assert t[j] == t[..k][j];
        } else if j > k {
          assert t[j] == t[k + 1..][j - k - 1];
        }
      }
    }
  }

  lemma RuneOf(q: string, pos: nat, t: string, s: string, j: nat)
    requires Reads(q, pos, t) && Reads(q, pos, s) && ValueStop(At(q, pos + |t|)) && j < |s| && j <= |t|
    ensures if j < |t| then s[j] == t[j] else s[j] in " \t()\""
  {
    ReadsAt(q, pos, t);
    ReadsAt(q, pos, s);
    assert s[j] == q[pos + j];
  }

  lemma SliceReads(q: string, pos: nat, n: nat)
    requires pos <= n <= |q|
    ensures Reads(q, pos, q[pos..n])
  {}

  lemma NoMark(q: string, pos: nat, t: string, s: string)
    requires Reads(q, pos, t) && Reads(q, pos, s) && ValueStop(At(q, pos + |t|)) && |s| > 4
    requires t != "" && forall k :: 0 <= k < |t| ==> IsDigit(t[k]) || t[k] == '.'
    ensures !(IsDigit(s[0]) && IsDigit(s[1]) && s[2] == ':')
    ensures !(IsDigit(s[0]) && IsDigit(s[1]) && IsDigit(s[2]) && IsDigit(s[3]) && s[4] == '-')
  {
    RuneOf(q, pos, t, s, if |t| < 2 then |t| else 2);
    RuneOf(q, pos, t, s, if |t| < 4 then |t| else 4);
  }

  // ----- numbers -----

  function DotDigits(): KqlExpr {
    Seq([Lit("."), OneOrMore(DigitClass())])
  }

  lemma NumberShape()
    ensures Number() == Action(Seq([OneOrMore(DigitClass()), ZeroOrOne(DotDigits())]), RETURN_TEXT)
  {}

  lemma NumberIs(c: Conversions)
    ensures Number() == Action(Seq([OneOrMore(DigitClass()), ZeroOrOne(DotDigits())]), RETURN_TEXT)
    ensures Plainly(c, Number()) && Plainly(c, Seq([OneOrMore(DigitClass()), ZeroOrOne(DotDigits())]))
    ensures Plainly(c, OneOrMore(DigitClass())) && Plainly(c, ZeroOrOne(DotDigits())) && Plainly(c, DotDigits()) && Plainly(c, Lit("."))
    ensures DotDigits() == Seq([Lit("."), OneOrMore(DigitClass())])
  {
    hide Plainly, DigitClass, Number;
    NumberShape();
    DigitPlainly(c);
    LitPlainly(c);
    SeqPlainly(c, [Lit("."), OneOrMore(DigitClass())]);
    OptionPlainly(c, DotDigits());
    SeqPlainly(c, [OneOrMore(DigitClass()), ZeroOrOne(DotDigits())]);
  }

  lemma NumberTaken(c: Conversions, q: string, pos: nat, t: string)
    requires WellFormed(Kql(c)) && Reads(q, pos, t) && IsNumber(t) && ValueStop(At(q, pos + |t|))
    ensures pos + |t| <= |q| && WellFormedExpr(Kql(c), Number())
    ensures var o := Eval(Kql(c), q, NodeRule, Number(), pos, map[], []);
      o.Success? && o.pos == pos + |t| && o.errs == [] && ToString(o.val) == Some(t)
  {
    hide *;
    ReadsThere(q, pos, t);
    NumberIs(c);
    PlainlyIs(c, Number());
    PlainlyIs(c, Seq([OneOrMore(DigitClass()), ZeroOrOne(DotDigits())]));
    PlainlyIs(c, OneOrMore(DigitClass()));
    PlainlyIs(c, ZeroOrOne(DotDigits()));
    PlainlyIs(c, DotDigits());
    var n := IntegerPart(q, pos, t);
    DigitsRun(c, q, DigitClass(), pos, t[..n], map[]);
    if n == |t| {
      NoDot(At(q, pos + |t|));
      SkipsConsumesNothing(c, q, NodeRule, ZeroOrOne(DotDigits()), pos + n, map[], []);
    } else {
      PlainlyIs(c, Lit("."));
      LitMatches(Kql(c), q, NodeRule, ".", pos + n, map[]);
      DigitsRun(c, q, DigitClass(), pos + n + 1, t[n + 1..], map[]);
      TwoMatch(c, q, Lit("."), OneOrMore(DigitClass()), pos + n, map[]);
      OptionTakes(Kql(c), q, DotDigits(), pos + n, map[]);
    }
    TwoMatch(c, q, OneOrMore(DigitClass()), ZeroOrOne(DotDigits()), pos, map[]);
    ActionText(c, q, NodeRule, Seq([OneOrMore(DigitClass()), ZeroOrOne(DotDigits())]), pos, map[], []);
    TextIsString(q[pos..pos + |t|]);
    ReadsIs(q, pos, t);
  }

  lemma ReadsIs(q: string, pos: nat, t: string)
    requires Reads(q, pos, t)
    ensures q[pos..pos + |t|] == t
  {}

  lemma NoDot(ch: Option<char>)
    requires ValueStop(ch)
    ensures Skips(ZeroOrOne(DotDigits()), ch)
  {
    hide DigitClass;
  }

  lemma IntegerPart(q: string, pos: nat, t: string) returns (n: nat)
    requires Reads(q, pos, t) && IsNumber(t) && ValueStop(At(q, pos + |t|))
    ensures 0 < n <= |t| && Digits(t[..n]) && Reads(q, pos, t[..n]) && |t[..n]| == n
    ensures At(q, pos + n).None? || !IsDigit(At(q, pos + n).value)
    ensures n < |t| ==> Reads(q, pos + n, ".") && Reads(q, pos + n + 1, t[n + 1..]) && Digits(t[n + 1..])
    ensures n < |t| ==> pos + n + |"."| == pos + n + 1 && pos + n + 1 + |t[n + 1..]| == pos + |t|
    ensures At(q, pos + |t|).None? || !IsDigit(At(q, pos + |t|).value)
  {
    if Digits(t) {
      n := |t|;
      assert t[..n] == t;
    } else {
      n :| 0 < n < |t| && t[n] == '.' && Digits(t[..n]) && Digits(t[n + 1..]);
      hide Digits, Reads;
      DotSplits(q, pos, t, n);
    }
  }

  lemma CutAtDot(t: string, n: nat)
    requires n < |t| && t[n] == '.'
    ensures t == t[..n] + ("." + t[n + 1..])
  {}

  lemma DotSplits(q: string, pos: nat, t: string, n: nat)
    requires Reads(q, pos, t) && n < |t| && t[n] == '.'
    ensures Reads(q, pos, t[..n]) && Reads(q, pos + n, ".") && Reads(q, pos + n + 1, t[n + 1..])
    ensures At(q, pos + n) == Some('.') && |"."| == 1
  {
    hide Reads, At;
    CutAtDot(t, n);
    ReadsParts(q, pos, t[..n], "." + t[n + 1..]);
    ReadsParts(q, pos + n, ".", t[n + 1..]);
  }

  // ----- periods and truths -----

  /** Where two of the words differ. */
  function Differs(j: nat, k: nat): nat
    requires j < k < 10
  {
    if PERIODS[j][0] != PERIODS[k][0] then 0 else if j == 0 then 1 else 5
  }

  lemma PeriodsDiffer(j: nat, k: nat)
    requires j < k < 10
    ensures var i := Differs(j, k); i < |PERIODS[j]| && i < |PERIODS[k]| && PERIODS[j][i] != PERIODS[k][i]
  {
    assert PERIODS[0] == "today" && PERIODS[1] == "yesterday" && PERIODS[2] == "this week" && PERIODS[3] == "last week";
    assert PERIODS[4] == "last 7 days" && PERIODS[5] == "this month" && PERIODS[6] == "last month" && PERIODS[7] == "last 30 days";
    assert PERIODS[8] == "this year" && PERIODS[9] == "last year";
  }

  lemma NotBoth(q: string, pos: nat, a: string, b: string, i: nat)
    requires Reads(q, pos, b) && i < |a| && i < |b| && a[i] != b[i]
    ensures !Reads(q, pos, a)
  {
    ReadsAt(q, pos, b);
    if Reads(q, pos, a) {
      ReadsAt(q, pos, a);
    }
  }

  lemma PeriodShape()
    ensures var es := NaturalLanguage().alternatives;
      && NaturalLanguage() == Choice(es) && |es| == 10 && |PERIODS| == 10
      && (forall k :: 0 <= k < 9 ==> es[k] == Lit(PERIODS[k])) && es[9] == Action(Lit(PERIODS[9]), RETURN_TEXT)
  {}

  lemma PeriodExprs(c: Conversions)
    ensures WellFormedExpr(Kql(c), NaturalLanguage())
    ensures forall k :: 0 <= k < |NaturalLanguage().alternatives| ==> WellFormedExpr(Kql(c), NaturalLanguage().alternatives[k])
    ensures WellFormedExpr(Kql(c), Lit(PERIODS[9]))
  {
    hide WellFormedExpr, Token, Kql, NaturalLanguage;
    NaturalLanguageToken(Kql(c));
    TokenIs(Kql(c), NaturalLanguage());
    PeriodShape();
    ChoiceMembers(Kql(c), NaturalLanguage().alternatives);
    ActionParts(Kql(c), Lit(PERIODS[9]), RETURN_TEXT);
  }

  lemma ChoiceMembers(g: Grammar<Rule, Built>, es: seq<KqlExpr>)
    requires WellFormedExpr(g, Choice(es))
    ensures forall k :: 0 <= k < |es| ==> WellFormedExpr(g, es[k])
  {}

  lemma OtherPeriodFails(c: Conversions, q: string, pos: nat, j: nat, k: nat)
    requires WellFormed(Kql(c)) && j < k < 10 && Reads(q, pos, PERIODS[k]) && WellFormedExpr(Kql(c), NaturalLanguage().alternatives[j])
    ensures pos <= |q| && Eval(Kql(c), q, NodeRule, NaturalLanguage().alternatives[j], pos, map[], []) == Failure([])
  {
    hide *;
    PeriodShape();
    ReadsThere(q, pos, PERIODS[k]);
    PeriodsDiffer(j, k);
    NotBoth(q, pos, PERIODS[j], PERIODS[k], Differs(j, k));
    LitFails(Kql(c), q, NodeRule, PERIODS[j], pos, map[]);
  }

  lemma PeriodMatches(c: Conversions, q: string, pos: nat, k: nat)
    requires WellFormed(Kql(c)) && k < 10 && Reads(q, pos, PERIODS[k]) && WellFormedExpr(Kql(c), NaturalLanguage().alternatives[k])
    requires WellFormedExpr(Kql(c), Lit(PERIODS[9]))
    ensures pos <= |q|
    ensures Eval(Kql(c), q, NodeRule, NaturalLanguage().alternatives[k], pos, map[], [])
         == Success(Text(PERIODS[k]), pos + |PERIODS[k]|, map[], [])
  {
    hide *;
    PeriodShape();
    ReadsThere(q, pos, PERIODS[k]);
    ReadsIs(q, pos, PERIODS[k]);
    LitMatches(Kql(c), q, NodeRule, PERIODS[k], pos, map[]);
    if k == 9 {
      ActionText(c, q, NodeRule, Lit(PERIODS[9]), pos, map[], []);
    }
  }

  lemma PeriodIndex(t: string) returns (k: nat)
    requires IsPeriod(t)
    ensures k < 10 && PERIODS[k] == t
  {
    k :| 0 <= k < |PERIODS| && PERIODS[k] == t;
  }

  lemma PeriodTaken(c: Conversions, q: string, pos: nat, t: string)
    requires WellFormed(Kql(c)) && Reads(q, pos, t) && IsPeriod(t)
    ensures pos + |t| <= |q| && WellFormedExpr(Kql(c), NaturalLanguage())
    ensures Eval(Kql(c), q, NodeRule, NaturalLanguage(), pos, map[], []) == Success(Text(t), pos + |t|, map[], [])
  {
    hide *;
    PeriodExprs(c);
    PeriodShape();
    var k := PeriodIndex(t);
    ReadsThere(q, pos, t);
    var es := NaturalLanguage().alternatives;
    EvalIsChoice(Kql(c), q, NodeRule, es, pos, map[], []);
    forall j | 0 <= j < k ensures Eval(Kql(c), q, NodeRule, es[j], pos, map[], []) == Failure([]) {
      OtherPeriodFails(c, q, pos, j, k);
    }
    PeriodMatches(c, q, pos, k);
    ChoicePicks(c, q, NodeRule, es, k, pos, map[]);
  }

  function TruthExpr(): KqlExpr {
    Choice([Lit("true"), Lit("false")])
  }

  lemma TruthParts(c: Conversions)
    ensures WellFormedExpr(Kql(c), Lit("true")) && WellFormedExpr(Kql(c), Lit("false")) && WellFormedExpr(Kql(c), TruthExpr())
    ensures "true" != "" && "false" != "" && "true"[0] != "false"[0]
  {}

  lemma TruthTaken(c: Conversions, q: string, pos: nat, truth: bool)
    requires WellFormed(Kql(c)) && Reads(q, pos, if truth then "true" else "false")
    ensures pos <= |q| && WellFormedExpr(Kql(c), TruthExpr())
    ensures var t := if truth then "true" else "false";
      Eval(Kql(c), q, NodeRule, TruthExpr(), pos, map[], []) == Success(Text(t), pos + |t|, map[], [])
  {
    TruthParts(c);
    hide WellFormed, WellFormedExpr, Kql, Eval, Reads;
    var t := if truth then "true" else "false";
    ReadsThere(q, pos, t);
    EitherMatches(c, q, "true", "false", t, pos);
  }

  /** What starts neither with `t` nor with `f`, or with another word, is no truth. */
  lemma NoTruth(c: Conversions, q: string, pos: nat)
    requires WellFormed(Kql(c)) && pos <= |q| && !Reads(q, pos, "true") && !Reads(q, pos, "false")
    ensures WellFormedExpr(Kql(c), TruthExpr()) && Eval(Kql(c), q, NodeRule, TruthExpr(), pos, map[], []) == Failure([])
  {
    TruthParts(c);
    hide WellFormed, WellFormedExpr, Kql, Eval, EvalChoice, Reads;
    var es := [Lit("true"), Lit("false")];
    EvalIsChoice(Kql(c), q, NodeRule, es, pos, map[], []);
    LitFails(Kql(c), q, NodeRule, "true", pos, map[]);
    LitFails(Kql(c), q, NodeRule, "false", pos, map[]);
    NoneMatches(c, q, es, pos);
  }

  // ----- whole values -----

  lemma WholeIs(e: KqlExpr)
    ensures WholeValue(e) == Choice([Action(Seq(InQuotesExprs(e)), RETURN_V), Action(Seq(UnquotedExprs(e)), RETURN_V)])
    ensures InQuotesExprs(e) == [Lit("\"")] + ([Labeled("v", e)] + ([Lit("\"")] + ([Not(Lit("\""))] + [])))
    ensures UnquotedExprs(e) == [Labeled("v", e)] + ([ValueEnd()] + [])
  {
    hide ValueEnd;
  }

  lemma WholeParts(c: Conversions, e: KqlExpr)
    requires WellFormedExpr(Kql(c), WholeValue(e))
    ensures var a, b := Action(Seq(InQuotesExprs(e)), RETURN_V), Action(Seq(UnquotedExprs(e)), RETURN_V);
      && WellFormedExpr(Kql(c), Choice([a, b])) && WellFormedExpr(Kql(c), a) && WellFormedExpr(Kql(c), b)
      && WellFormedExpr(Kql(c), Seq(InQuotesExprs(e))) && WellFormedExpr(Kql(c), Seq(UnquotedExprs(e)))
    ensures forall k :: 0 <= k < |InQuotesExprs(e)| ==> WellFormedExpr(Kql(c), InQuotesExprs(e)[k])
    ensures forall k :: 0 <= k < |UnquotedExprs(e)| ==> WellFormedExpr(Kql(c), UnquotedExprs(e)[k])
    ensures WellFormedExpr(Kql(c), Lit("\"")) && WellFormedExpr(Kql(c), Not(Lit("\""))) && WellFormedExpr(Kql(c), Labeled("v", e))
    ensures WellFormedExpr(Kql(c), ValueEnd()) && WellFormedExpr(Kql(c), e)
  {
    hide WellFormedExpr, Kql, ValueEnd, WholeValue;
    WholeIs(e);
    ChoiceMembers(Kql(c), [Action(Seq(InQuotesExprs(e)), RETURN_V), Action(Seq(UnquotedExprs(e)), RETURN_V)]);
    assert [Action(Seq(InQuotesExprs(e)), RETURN_V), Action(Seq(UnquotedExprs(e)), RETURN_V)][0] == Action(Seq(InQuotesExprs(e)), RETURN_V);
    assert [Action(Seq(InQuotesExprs(e)), RETURN_V), Action(Seq(UnquotedExprs(e)), RETURN_V)][1] == Action(Seq(UnquotedExprs(e)), RETURN_V);
    ActionMembers(Kql(c), InQuotesExprs(e), RETURN_V);
    ActionMembers(Kql(c), UnquotedExprs(e), RETURN_V);
    assert InQuotesExprs(e)[0] == Lit("\"") && InQuotesExprs(e)[1] == Labeled("v", e) && InQuotesExprs(e)[3] == Not(Lit("\""));
    assert UnquotedExprs(e)[1] == ValueEnd();
    LabeledMember(Kql(c), "v", e);
  }

  lemma NotMatchesThere(c: Conversions, q: string, pos: nat, env: Env<Built>)
    requires WellFormed(Kql(c)) && pos <= |q| && At(q, pos) != Some('"') && WellFormedExpr(Kql(c), Not(Lit("\""))) && WellFormedExpr(Kql(c), Lit("\""))
    ensures Eval(Kql(c), q, NodeRule, Not(Lit("\"")), pos, env, []) == Success(Nil, pos, env, [])
  {
    assert CannotStart(Lit("\""), At(q, pos));
    hide WellFormed, Kql, CannotStart;
    CannotStartFails(c, q, NodeRule, Lit("\""), pos, map[], []);
  }

  lemma EndParts(c: Conversions, q: string, pos: nat)
    requires WellFormed(Kql(c)) && pos <= |q| && ValueStop(At(q, pos))
    ensures var a, b := And(OneOf(" \t()\"")), AtEOF();
      && ValueEnd() == Choice([a, b]) && WellFormedExpr(Kql(c), a) && WellFormedExpr(Kql(c), b)
      && Eval(Kql(c), q, NodeRule, a, pos, map[], []) == (if pos < |q| then Success(Nil, pos, map[], []) else Failure([]))
      && (pos == |q| ==> Eval(Kql(c), q, NodeRule, b, pos, map[], []) == Success(Nil, pos, map[], []))
  {
    hide WellFormed, Kql;
  }

  lemma EndMatches(c: Conversions, q: string, pos: nat, env: Env<Built>)
    requires WellFormed(Kql(c)) && pos <= |q| && ValueStop(At(q, pos)) && WellFormedExpr(Kql(c), ValueEnd())
    ensures var o := Eval(Kql(c), q, NodeRule, ValueEnd(), pos, env, []); o.Success? && o.pos == pos && o.env == env && o.errs == []
  {
    hide *;
    EndParts(c, q, pos);
    var es := [And(OneOf(" \t()\"")), AtEOF()];
    EvalIsChoice(Kql(c), q, NodeRule, es, pos, env, []);
    ChoicePicks(c, q, NodeRule, es, if pos < |q| then 0 else 1, pos, env);
  }

  lemma QuotedParts(q: string, pos: nat, t: string)
    requires Reads(q, pos, "\"" + t + "\"")
    ensures Reads(q, pos, "\"") && Reads(q, pos + 1, t) && Reads(q, pos + 1 + |t|, "\"") && pos + 2 + |t| <= |q|
    ensures pos + |"\""| == pos + 1 && pos + 1 + |t| + |"\""| == pos + 2 + |t| && At(q, pos) == Some('"')
    ensures At(q, pos + 1 + |t|) == Some('"')
  {
    assert "\"" + t + "\"" == "\"" + (t + "\"");
    ReadsParts(q, pos, "\"", t + "\"");
    ReadsParts(q, pos + 1, t, "\"");
    ReadsAt(q, pos + 1 + |t|, "\"");
  }

  lemma QuotedSeq(c: Conversions, q: string, e: KqlExpr, pos: nat, t: string)
    requires WellFormed(Kql(c)) && WellFormedExpr(Kql(c), WholeValue(e)) && WellFormedExpr(Kql(c), e)
    requires Reads(q, pos, "\"" + t + "\"") && At(q, pos + 2 + |t|) != Some('"') && pos + 1 <= |q|
    requires var o := Eval(Kql(c), q, NodeRule, e, pos + 1, map[], []); o.Success? && o.pos == pos + 1 + |t| && o.errs == []
    ensures WellFormedExpr(Kql(c), Seq(InQuotesExprs(e))) && pos + 2 + |t| <= |q|
    ensures var o := Eval(Kql(c), q, NodeRule, Seq(InQuotesExprs(e)), pos, map[], []);
      o.Success? && o.pos == pos + 2 + |t| && o.env == map["v" := Eval(Kql(c), q, NodeRule, e, pos + 1, map[], []).val] && o.errs == []
  {
    hide *;
    var g, r := Kql(c), NodeRule;
    QuotedParts(q, pos, t);
    WholeParts(c, e);
    var o := Eval(g, q, r, e, pos + 1, map[], []);
    OnlyLabel("v", o.val);
    LitMatches(g, q, r, "\"", pos, map[]);
    LabeledMatches(g, q, r, "v", e, pos + 1, map[]);
    LitMatches(g, q, r, "\"", pos + 1 + |t|, map["v" := o.val]);
    NotMatchesThere(c, q, pos + 2 + |t|, map["v" := o.val]);
    InQuotesAre(e);
    FourMatch(c, q, InQuotesExprs(e), pos);
  }

  lemma InQuotesAre(e: KqlExpr)
    ensures var es := InQuotesExprs(e);
      |es| == 4 && es[0] == es[2] == Lit("\"") && es[1] == Labeled("v", e) && es[3] == Not(Lit("\""))
  {}

  lemma QuotedTaken(c: Conversions, q: string, e: KqlExpr, pos: nat, t: string)
    requires WellFormed(Kql(c)) && WellFormedExpr(Kql(c), WholeValue(e)) && WellFormedExpr(Kql(c), e)
    requires Reads(q, pos, "\"" + t + "\"") && At(q, pos + 2 + |t|) != Some('"') && pos + 1 <= |q|
    requires var o := Eval(Kql(c), q, NodeRule, e, pos + 1, map[], []); o.Success? && o.pos == pos + 1 + |t| && o.errs == []
    ensures pos + 2 + |t| <= |q|
    ensures var o := Eval(Kql(c), q, NodeRule, e, pos + 1, map[], []);
      Eval(Kql(c), q, NodeRule, WholeValue(e), pos, map[], []) == Success(o.val, pos + 2 + |t|, map[], [])
  {
    hide *;
    var g, r, es := Kql(c), NodeRule, InQuotesExprs(e);
    WholeParts(c, e);
    WholeIs(e);
    QuotedSeq(c, q, e, pos, t);
    var o := Eval(g, q, r, e, pos + 1, map[], []);
    ReturnsV(c, map["v" := o.val], q[pos..pos + 2 + |t|]);
    ActionRuns(c, q, r, Seq(es), RETURN_V, pos, map[], o.val);
    var choices := [Action(Seq(InQuotesExprs(e)), RETURN_V), Action(Seq(UnquotedExprs(e)), RETURN_V)];
    EvalIsChoice(g, q, r, choices, pos, map[], []);
    assert choices[0] == Action(Seq(es), RETURN_V);
    ChoicePicks(c, q, r, choices, 0, pos, map[]);
  }

  lemma QuoteCannotBe(c: Conversions, q: string, e: KqlExpr, pos: nat)
    requires WellFormed(Kql(c)) && pos <= |q| && At(q, pos) != Some('"') && WellFormedExpr(Kql(c), Action(Seq(InQuotesExprs(e)), RETURN_V))
    ensures Eval(Kql(c), q, NodeRule, Action(Seq(InQuotesExprs(e)), RETURN_V), pos, map[], []) == Failure([])
  {
    assert CannotStart(InQuotesExprs(e)[0], At(q, pos));
    hide WellFormed, WellFormedExpr, Kql, CannotStart, Eval;
    ActionCannotStart(InQuotesExprs(e), RETURN_V, At(q, pos));
    CannotStartFails(c, q, NodeRule, Action(Seq(InQuotesExprs(e)), RETURN_V), pos, map[], []);
  }

  lemma BareTaken(c: Conversions, q: string, e: KqlExpr, pos: nat, n: nat)
    requires WellFormed(Kql(c)) && WellFormedExpr(Kql(c), WholeValue(e)) && WellFormedExpr(Kql(c), e)
    requires pos <= n <= |q| && At(q, pos) != Some('"') && ValueStop(At(q, n))
    requires var o := Eval(Kql(c), q, NodeRule, e, pos, map[], []); o.Success? && o.pos == n && o.errs == []
    ensures var o := Eval(Kql(c), q, NodeRule, e, pos, map[], []);
      Eval(Kql(c), q, NodeRule, WholeValue(e), pos, map[], []) == Success(o.val, n, map[], [])
  {
    hide *;
    var g, r, value, end := Kql(c), NodeRule, Labeled("v", e), ValueEnd();
    var es := UnquotedExprs(e);
    WholeParts(c, e);
    WholeIs(e);
    var o := Eval(g, q, r, e, pos, map[], []);
    var env: Env<Built> := map["v" := o.val];
    OnlyLabel("v", o.val);
    LabeledMatches(g, q, r, "v", e, pos, map[]);
    EndMatches(c, q, n, env);
    var o2 := Eval(g, q, r, end, n, env, []);
    EvalIsSeq(g, q, r, es, pos, map[], []);
    EvalNoSeq(g, q, r, n, env, [], [] + [o.val] + [o2.val]);
    KqlStrings.SeqStep(g, q, r, end, [], n, env, [], [] + [o.val]);
    KqlStrings.SeqStep(g, q, r, value, [end] + [], pos, map[], [], []);
    ReturnsV(c, env, q[pos..n]);
    ActionRuns(c, q, r, Seq(es), RETURN_V, pos, map[], o.val);
    QuoteCannotBe(c, q, e, pos);
    var choices := [Action(Seq(InQuotesExprs(e)), RETURN_V), Action(Seq(UnquotedExprs(e)), RETURN_V)];
    EvalIsChoice(g, q, r, choices, pos, map[], []);
    assert choices[0] == Action(Seq(InQuotesExprs(e)), RETURN_V) && choices[1] == Action(Seq(es), RETURN_V);
    ChoicePicks(c, q, r, choices, 1, pos, map[]);
  }

  lemma FirstFails(c: Conversions, q: string, a: KqlExpr, rest: seq<KqlExpr>, run: nat, pos: nat)
    requires WellFormed(Kql(c)) && pos <= |q| && WellFormedExpr(Kql(c), Seq([a] + rest)) && WellFormedExpr(Kql(c), Action(Seq([a] + rest), run))
    requires WellFormedExpr(Kql(c), a) && forall k :: 0 <= k < |rest| ==> WellFormedExpr(Kql(c), rest[k])
    requires Eval(Kql(c), q, NodeRule, a, pos, map[], []) == Failure([])
    ensures Eval(Kql(c), q, NodeRule, Action(Seq([a] + rest), run), pos, map[], []) == Failure([])
  {
    hide *;
    EvalIsSeq(Kql(c), q, NodeRule, [a] + rest, pos, map[], []);
    KqlStrings.SeqStep(Kql(c), q, NodeRule, a, rest, pos, map[], [], []);
    ActionFails(c, q, NodeRule, Seq([a] + rest), run, pos);
  }

  lemma SecondFails(c: Conversions, q: string, a: KqlExpr, b: KqlExpr, rest: seq<KqlExpr>, run: nat, pos: nat)
    requires WellFormed(Kql(c)) && pos <= |q| && WellFormedExpr(Kql(c), Seq([a] + ([b] + rest)))
    requires WellFormedExpr(Kql(c), Action(Seq([a] + ([b] + rest)), run))
    requires WellFormedExpr(Kql(c), a) && WellFormedExpr(Kql(c), b) && forall k :: 0 <= k < |rest| ==> WellFormedExpr(Kql(c), rest[k])
    requires forall k :: 0 <= k < |[b] + rest| ==> WellFormedExpr(Kql(c), ([b] + rest)[k])
    requires var o := Eval(Kql(c), q, NodeRule, a, pos, map[], []);
      o.Success? && o.errs == [] && Eval(Kql(c), q, NodeRule, b, o.pos, o.env, []) == Failure([])
    ensures Eval(Kql(c), q, NodeRule, Action(Seq([a] + ([b] + rest)), run), pos, map[], []) == Failure([])
  {
    hide *;
    var o := Eval(Kql(c), q, NodeRule, a, pos, map[], []);
    EvalIsSeq(Kql(c), q, NodeRule, [a] + ([b] + rest), pos, map[], []);
    KqlStrings.SeqStep(Kql(c), q, NodeRule, a, [b] + rest, pos, map[], [], []);
    KqlStrings.SeqStep(Kql(c), q, NodeRule, b, rest, o.pos, o.env, [], [] + [o.val]);
    ActionFails(c, q, NodeRule, Seq([a] + ([b] + rest)), run, pos);
  }

  lemma BareFails(c: Conversions, q: string, e: KqlExpr, pos: nat)
    requires WellFormed(Kql(c)) && WellFormedExpr(Kql(c), WholeValue(e)) && WellFormedExpr(Kql(c), e) && pos <= |q|
    requires Eval(Kql(c), q, NodeRule, e, pos, map[], []) == Failure([])
    ensures WellFormedExpr(Kql(c), Action(Seq(UnquotedExprs(e)), RETURN_V))
    ensures Eval(Kql(c), q, NodeRule, Action(Seq(UnquotedExprs(e)), RETURN_V), pos, map[], []) == Failure([])
  {
    hide *;
    WholeParts(c, e);
    WholeIs(e);
    LabeledFails(Kql(c), q, NodeRule, "v", e, pos, map[]);
    FirstFails(c, q, Labeled("v", e), [ValueEnd()] + [], RETURN_V, pos);
  }

  lemma InQuotesFails(c: Conversions, q: string, e: KqlExpr, pos: nat)
    requires WellFormed(Kql(c)) && WellFormedExpr(Kql(c), WholeValue(e)) && WellFormedExpr(Kql(c), e) && pos + 1 <= |q|
    requires At(q, pos) == Some('"') && Eval(Kql(c), q, NodeRule, e, pos + 1, map[], []) == Failure([])
    ensures WellFormedExpr(Kql(c), Action(Seq(InQuotesExprs(e)), RETURN_V))
    ensures Eval(Kql(c), q, NodeRule, Action(Seq(InQuotesExprs(e)), RETURN_V), pos, map[], []) == Failure([])
  {
    hide *;
    WholeParts(c, e);
    WholeIs(e);
    QuoteIsThere(q, pos);
    LitMatches(Kql(c), q, NodeRule, "\"", pos, map[]);
    LabeledFails(Kql(c), q, NodeRule, "v", e, pos + 1, map[]);
    var rest := [Lit("\"")] + ([Not(Lit("\""))] + []);
    SecondFails(c, q, Lit("\""), Labeled("v", e), rest, RETURN_V, pos);
  }

  /** A value that `e` matches neither behind a quote, if there is one, nor here. */
  lemma WholeFails(c: Conversions, q: string, e: KqlExpr, pos: nat)
    requires WellFormed(Kql(c)) && WellFormedExpr(Kql(c), WholeValue(e)) && WellFormedExpr(Kql(c), e) && pos <= |q|
    requires Eval(Kql(c), q, NodeRule, e, pos, map[], []) == Failure([])
    requires At(q, pos) == Some('"') ==> pos + 1 <= |q| && Eval(Kql(c), q, NodeRule, e, pos + 1, map[], []) == Failure([])
    ensures Eval(Kql(c), q, NodeRule, WholeValue(e), pos, map[], []) == Failure([])
  {
    hide *;
    WholeParts(c, e);
    WholeIs(e);
    BareFails(c, q, e, pos);
    if At(q, pos) == Some('"') {
      InQuotesFails(c, q, e, pos);
    } else {
      QuoteCannotBe(c, q, e, pos);
    }
    var choices := [Action(Seq(InQuotesExprs(e)), RETURN_V), Action(Seq(UnquotedExprs(e)), RETURN_V)];
    EvalIsChoice(Kql(c), q, NodeRule, choices, pos, map[], []);
    NoneMatches(c, q, choices, pos);
  }

  lemma QuoteIsThere(q: string, pos: nat)
    requires At(q, pos) == Some('"')
    ensures Reads(q, pos, "\"") && pos + |"\""| == pos + 1
  {}
}
