/** Laws of parsing expressions, for every grammar and every input (the runtime is
    pkg/kql/dictionary_gen.go:5670-6263): what a match says about the text it covers, and how the
    kinds of expressions express each other. */
module PegLaws {
  import opened Peg

  // ----- the text of a match -----

  /** What a text must look like for `e` to match it, without the order of alternatives, without
      what lookahead sees, and without what a rule stands for. */
  ghost predicate Covers<R(!new)>(e: Expr<R>, t: string)
    decreases e, |t|, 0
  {
    match e
    case Action(e1, _) => Covers(e1, t)
    case And(_) => t == ""
    case Not(_) => t == ""
    case Any => |t| == 1
    case CharClass(chars, ranges, inverted) => |t| == 1 && InClass(t[0], chars, ranges) != inverted
    case Choice(es) => exists k :: 0 <= k < |es| && Covers(es[k], t)
    case Labeled(_, e1) => Covers(e1, t)
    case Lit(val) => t == val
    case OneOrMore(e1) => t != "" && LoopCovers(e1, t)
    case ZeroOrMore(e1) => LoopCovers(e1, t)
    case ZeroOrOne(e1) => t == "" || Covers(e1, t)
    case RuleRef(_) => true
    case Seq(es) => SeqCovers(es, t)
  }

  /** One part after the other. */
  ghost predicate SeqCovers<R(!new)>(es: seq<Expr<R>>, t: string)
    decreases es, |t|, 0
  {
    if es == [] then t == "" else exists n :: 0 <= n <= |t| && Covers(es[0], t[..n]) && SeqCovers(es[1..], t[n..])
  }

  /** Any number of parts. */
  ghost predicate LoopCovers<R(!new)>(e: Expr<R>, t: string)
    decreases e, |t|, 1
  {
    t == "" || exists n :: 0 < n <= |t| && Covers(e, t[..n]) && LoopCovers(e, t[n..])
  }

  lemma SeqCoversMore<R(!new)>(es: seq<Expr<R>>, a: string, b: string)
    requires es != [] && Covers(es[0], a) && SeqCovers(es[1..], b)
    ensures SeqCovers(es, a + b)
  {
    hide Covers;
    assert (a + b)[..|a|] == a && (a + b)[|a|..] == b;
  }

  lemma LoopCoversMore<R(!new)>(e: Expr<R>, a: string, b: string)
    requires Covers(e, a) && a != "" && LoopCovers(e, b)
    ensures LoopCovers(e, a + b)
  {
    hide Covers;
    assert (a + b)[..|a|] == a && (a + b)[|a|..] == b;
  }

  lemma Joins(input: string, a: nat, b: nat, c: nat)
    requires a <= b <= c <= |input|
    ensures input[a..c] == input[a..b] + input[b..c]
  {}

  /** Whatever an expression consumes is covered by it. */
  lemma {:induction false} MatchIsCovered<R(!new), N>(g: Grammar<R, N>, input: string, rule: R, e: Expr<R>, pos: nat, env: Env<N>,
                                                      errs: seq<Error<R>>)
    requires WellFormed(g) && WellFormedExpr(g, e) && pos <= |input|
    ensures var o := Eval(g, input, rule, e, pos, env, errs); o.Success? ==> Covers(e, input[pos..o.pos])
    decreases e, 0, 0
  {
    hide WellFormed;
    match e
    case Action(e1, _) => MatchIsCovered(g, input, rule, e1, pos, env, errs);
    case Choice(es) => ChoiceIsCovered(g, input, rule, es, pos, env, errs);
    case Labeled(_, e1) => MatchIsCovered(g, input, rule, e1, pos, map[], errs);
    case OneOrMore(e1) =>
      MatchIsCovered(g, input, rule, e1, pos, map[], errs);
      var o := Eval(g, input, rule, e1, pos, map[], errs);
      if o.Success? {
        LoopIsCovered(g, input, rule, e1, o.pos, env, o.errs, [o.val]);
        var end := EvalLoop(g, input, rule, e1, o.pos, env, o.errs, [o.val]).pos;
        Joins(input, pos, o.pos, end);
        LoopCoversMore(e1, input[pos..o.pos], input[o.pos..end]);
      }
    case ZeroOrMore(e1) => LoopIsCovered(g, input, rule, e1, pos, env, errs, []);
    case ZeroOrOne(e1) => MatchIsCovered(g, input, rule, e1, pos, map[], errs);
    case Seq(es) => SeqIsCovered(g, input, rule, es, pos, env, errs, []);
    case _ =>
  }

  lemma {:induction false} ChoiceIsCovered<R(!new), N>(g: Grammar<R, N>, input: string, rule: R, es: seq<Expr<R>>, pos: nat,
                                                       env: Env<N>, errs: seq<Error<R>>)
    requires WellFormed(g) && (forall k :: 0 <= k < |es| ==> WellFormedExpr(g, es[k])) && pos <= |input|
    ensures var o := EvalChoice(g, input, rule, es, pos, env, errs);
      o.Success? ==> exists k :: 0 <= k < |es| && Covers(es[k], input[pos..o.pos])
    decreases es, 0, 0
  {
    hide WellFormed, WellFormedExpr, Eval, Covers;
    if es != [] {
      MatchIsCovered(g, input, rule, es[0], pos, map[], errs);
      var o := Eval(g, input, rule, es[0], pos, map[], errs);
      if o.Failure? {
        ChoiceIsCovered(g, input, rule, es[1..], pos, env, o.errs);
        var o' := EvalChoice(g, input, rule, es[1..], pos, env, o.errs);
        if o'.Success? {
          var k :| 0 <= k < |es[1..]| && Covers(es[1..][k], input[pos..o'.pos]);
          assert es[k + 1] == es[1..][k];
        }
      }
    }
  }

  lemma {:induction false} SeqIsCovered<R(!new), N>(g: Grammar<R, N>, input: string, rule: R, es: seq<Expr<R>>, pos: nat,
                                                    env: Env<N>, errs: seq<Error<R>>, vals: seq<Value<N>>)
    requires WellFormed(g) && (forall k :: 0 <= k < |es| ==> WellFormedExpr(g, es[k])) && pos <= |input|
    ensures var o := EvalSeq(g, input, rule, es, pos, env, errs, vals); o.Success? ==> SeqCovers(es, input[pos..o.pos])
    decreases es, 0, 0
  {
    hide WellFormed, WellFormedExpr, Eval, Covers;
    if es != [] {
      MatchIsCovered(g, input, rule, es[0], pos, env, errs);
      var o := Eval(g, input, rule, es[0], pos, env, errs);
      if o.Success? {
        SeqIsCovered(g, input, rule, es[1..], o.pos, o.env, o.errs, vals + [o.val]);
        var o' := EvalSeq(g, input, rule, es[1..], o.pos, o.env, o.errs, vals + [o.val]);
        if o'.Success? {
          Joins(input, pos, o.pos, o'.pos);
          SeqCoversMore(es, input[pos..o.pos], input[o.pos..o'.pos]);
        }
      }
    }
  }

  lemma {:induction false} LoopIsCovered<R(!new), N>(g: Grammar<R, N>, input: string, rule: R, e: Expr<R>, pos: nat, env: Env<N>,
                                                     errs: seq<Error<R>>, vals: seq<Value<N>>)
    requires WellFormed(g) && WellFormedExpr(g, e) && !MayBeEmpty(g, e) && pos <= |input|
    ensures LoopCovers(e, input[pos..EvalLoop(g, input, rule, e, pos, env, errs, vals).pos])
    decreases e, 1, |input| - pos
  {
    hide WellFormed, WellFormedExpr, MayBeEmpty, Eval, Covers;
    MatchIsCovered(g, input, rule, e, pos, map[], errs);
    var o := Eval(g, input, rule, e, pos, map[], errs);
    if o.Success? {
      LoopIsCovered(g, input, rule, e, o.pos, env, o.errs, vals + [o.val]);
      var end := EvalLoop(g, input, rule, e, o.pos, env, o.errs, vals + [o.val]).pos;
      Joins(input, pos, o.pos, end);
      LoopCoversMore(e, input[pos..o.pos], input[o.pos..end]);
    }
  }

  // ----- errors have no influence -----

  function Prepend<R, N>(a: seq<Error<R>>, o: Outcome<R, N>): Outcome<R, N> {
    match o
    case Failure(errs) => Failure(a + errs)
    case Success(v, p, env, errs) => Success(v, p, env, a + errs)
  }

  /** What an expression matches does not depend on the errors reported so far, which it only adds to. */
  lemma {:induction false} ErrorsAreApart<R(!new), N>(g: Grammar<R, N>, input: string, rule: R, e: Expr<R>, pos: nat, env: Env<N>,
                                                      a: seq<Error<R>>, b: seq<Error<R>>)
    requires WellFormed(g) && WellFormedExpr(g, e) && pos <= |input|
    ensures Eval(g, input, rule, e, pos, env, a + b) == Prepend(a, Eval(g, input, rule, e, pos, env, b))
    decreases |input| - pos, LeftRank(g, e), e, 1
  {
    hide WellFormed;
    match e
    case Action(e1, run) =>
      ErrorsAreApart(g, input, rule, e1, pos, env, a, b);
      ReportsAreApart(g, input, rule, e1, run, pos, env, a, b);
    case And(e1) => ErrorsAreApart(g, input, rule, e1, pos, map[], a, b);
    case Not(e1) => ErrorsAreApart(g, input, rule, e1, pos, map[], a, b);
    case Choice(es) => ChoiceErrorsAreApart(g, input, rule, es, pos, env, a, b);
    case Labeled(name, e1) => ErrorsAreApart(g, input, rule, e1, pos, map[], a, b);
    case OneOrMore(e1) =>
      ErrorsAreApart(g, input, rule, e1, pos, map[], a, b);
      var o := Eval(g, input, rule, e1, pos, map[], b);
      if o.Success? {
        LoopErrorsAreApart(g, input, rule, e1, o.pos, env, a, o.errs, [o.val]);
      }
    case ZeroOrMore(e1) => LoopErrorsAreApart(g, input, rule, e1, pos, env, a, b, []);
    case ZeroOrOne(e1) => ErrorsAreApart(g, input, rule, e1, pos, map[], a, b);
    case RuleRef(r) => RefErrorsAreApart(g, input, rule, r, pos, env, a, b);
    case Seq(es) => SeqErrorsAreApart(g, input, rule, es, pos, env, a, b, []);
    case _ =>
  }

  lemma ReportsAreApart<R(!new), N>(g: Grammar<R, N>, input: string, rule: R, e: Expr<R>, run: nat, pos: nat, env: Env<N>,
                                    a: seq<Error<R>>, b: seq<Error<R>>)
    requires WellFormed(g) && WellFormedExpr(g, e) && WellFormedExpr(g, Action(e, run)) && pos <= |input|
    requires Eval(g, input, rule, e, pos, env, a + b) == Prepend(a, Eval(g, input, rule, e, pos, env, b))
    ensures Eval(g, input, rule, Action(e, run), pos, env, a + b) == Prepend(a, Eval(g, input, rule, Action(e, run), pos, env, b))
  {
    hide WellFormed, WellFormedExpr, Point;
    var o := Eval(g, input, rule, e, pos, env, b);
    if o.Success? {
      var r := g.run(run, o.env, input[pos..o.pos], Point(input, pos));
      assert (a + o.errs) + Reported(r, Point(input, pos), rule) == a + (o.errs + Reported(r, Point(input, pos), rule));
    }
  }

  lemma {:induction false} RefErrorsAreApart<R(!new), N>(g: Grammar<R, N>, input: string, rule: R, r: R, pos: nat, env: Env<N>,
                                                         a: seq<Error<R>>, b: seq<Error<R>>)
    requires WellFormed(g) && WellFormedExpr(g, RuleRef(r)) && pos <= |input|
    ensures Eval(g, input, rule, RuleRef(r), pos, env, a + b) == Prepend(a, Eval(g, input, rule, RuleRef(r), pos, env, b))
    decreases |input| - pos, g.rank(r) + 1, RuleRef(r), 0
  {
    assert WellFormedExpr(g, g.body(r)) && LeftRank(g, g.body(r)) <= g.rank(r);
    hide WellFormed, WellFormedExpr, LeftRank;
    ErrorsAreApart(g, input, r, g.body(r), pos, map[], a, b);
  }

  lemma {:induction false} ChoiceErrorsAreApart<R(!new), N>(g: Grammar<R, N>, input: string, rule: R, es: seq<Expr<R>>, pos: nat,
                                                            env: Env<N>, a: seq<Error<R>>, b: seq<Error<R>>)
    requires WellFormed(g) && (forall k :: 0 <= k < |es| ==> WellFormedExpr(g, es[k])) && pos <= |input|
    ensures EvalChoice(g, input, rule, es, pos, env, a + b) == Prepend(a, EvalChoice(g, input, rule, es, pos, env, b))
    decreases |input| - pos, ChoiceRank(g, es), es, 0
  {
    hide WellFormed, WellFormedExpr, Eval;
    if es != [] {
      ErrorsAreApart(g, input, rule, es[0], pos, map[], a, b);
      var o := Eval(g, input, rule, es[0], pos, map[], b);
      if o.Failure? {
        ChoiceErrorsAreApart(g, input, rule, es[1..], pos, env, a, o.errs);
      }
    }
  }

  lemma {:induction false} SeqErrorsAreApart<R(!new), N>(g: Grammar<R, N>, input: string, rule: R, es: seq<Expr<R>>, pos: nat,
                                                         env: Env<N>, a: seq<Error<R>>, b: seq<Error<R>>, vals: seq<Value<N>>)
    requires WellFormed(g) && (forall k :: 0 <= k < |es| ==> WellFormedExpr(g, es[k])) && pos <= |input|
    ensures EvalSeq(g, input, rule, es, pos, env, a + b, vals) == Prepend(a, EvalSeq(g, input, rule, es, pos, env, b, vals))
    decreases |input| - pos, SeqRank(g, es), es, 0
  {
    hide WellFormed, WellFormedExpr, Eval;
    if es != [] {
      ErrorsAreApart(g, input, rule, es[0], pos, env, a, b);
      var o := Eval(g, input, rule, es[0], pos, env, b);
      if o.Success? {
        SeqErrorsAreApart(g, input, rule, es[1..], o.pos, o.env, a, o.errs, vals + [o.val]);
      }
    }
  }

  lemma {:induction false} LoopErrorsAreApart<R(!new), N>(g: Grammar<R, N>, input: string, rule: R, e: Expr<R>, pos: nat, env: Env<N>,
                                                          a: seq<Error<R>>, b: seq<Error<R>>, vals: seq<Value<N>>)
    requires WellFormed(g) && WellFormedExpr(g, e) && !MayBeEmpty(g, e) && pos <= |input|
    ensures EvalLoop(g, input, rule, e, pos, env, a + b, vals) == Prepend(a, EvalLoop(g, input, rule, e, pos, env, b, vals))
    decreases |input| - pos, LeftRank(g, e), e, 2
  {
    hide WellFormed, WellFormedExpr, MayBeEmpty, Eval;
    ErrorsAreApart(g, input, rule, e, pos, map[], a, b);
    var o := Eval(g, input, rule, e, pos, map[], b);
    if o.Success? {
      LoopErrorsAreApart(g, input, rule, e, o.pos, env, a, o.errs, vals + [o.val]);
    }
  }

  // ----- scopes -----

  /** Labels come from labeled expressions, and reach others only through the actions and sequences
      around them: every other kind of expression leaves the labels as they are. */
  lemma KeepsScope<R(!new), N>(g: Grammar<R, N>, input: string, rule: R, e: Expr<R>, pos: nat, env: Env<N>, errs: seq<Error<R>>)
    requires WellFormed(g) && WellFormedExpr(g, e) && pos <= |input|
    requires !e.Action? && !e.Labeled? && !e.Seq?
    ensures var o := Eval(g, input, rule, e, pos, env, errs); o.Success? ==> o.env == env
  {
    hide WellFormed;
    match e
    case Choice(es) => ChoiceKeepsScope(g, input, rule, es, pos, env, errs);
    case OneOrMore(e1) =>
      var o := Eval(g, input, rule, e1, pos, map[], errs);
      if o.Success? {
        LoopKeepsScope(g, input, rule, e1, o.pos, env, o.errs, [o.val]);
      }
    case ZeroOrMore(e1) => LoopKeepsScope(g, input, rule, e1, pos, env, errs, []);
    case _ =>
  }

  lemma {:induction false} ChoiceKeepsScope<R(!new), N>(g: Grammar<R, N>, input: string, rule: R, es: seq<Expr<R>>, pos: nat,
                                                        env: Env<N>, errs: seq<Error<R>>)
    requires WellFormed(g) && (forall k :: 0 <= k < |es| ==> WellFormedExpr(g, es[k])) && pos <= |input|
    ensures var o := EvalChoice(g, input, rule, es, pos, env, errs); o.Success? ==> o.env == env
    decreases |es|
  {
    hide WellFormed, WellFormedExpr, Eval;
    if es != [] {
      var o := Eval(g, input, rule, es[0], pos, map[], errs);
      if o.Failure? {
        ChoiceKeepsScope(g, input, rule, es[1..], pos, env, o.errs);
      }
    }
  }

  lemma {:induction false} LoopKeepsScope<R(!new), N>(g: Grammar<R, N>, input: string, rule: R, e: Expr<R>, pos: nat, env: Env<N>,
                                                      errs: seq<Error<R>>, vals: seq<Value<N>>)
    requires WellFormed(g) && WellFormedExpr(g, e) && !MayBeEmpty(g, e) && pos <= |input|
    ensures EvalLoop(g, input, rule, e, pos, env, errs, vals).env == env
    decreases |input| - pos
  {
    hide WellFormed, WellFormedExpr, MayBeEmpty, Eval;
    var o := Eval(g, input, rule, e, pos, map[], errs);
    if o.Success? {
      LoopKeepsScope(g, input, rule, e, o.pos, env, o.errs, vals + [o.val]);
    }
  }

  // ----- lookahead -----

  /** Negative lookahead succeeds exactly where its expression fails, and neither kind of lookahead
      consumes or binds anything. */
  lemma NotIsNegation<R(!new), N>(g: Grammar<R, N>, input: string, rule: R, e: Expr<R>, pos: nat, env: Env<N>, errs: seq<Error<R>>)
    requires WellFormed(g) && WellFormedExpr(g, e) && WellFormedExpr(g, Not(e)) && WellFormedExpr(g, And(e)) && pos <= |input|
    ensures var there, no, yes := Eval(g, input, rule, e, pos, map[], errs),
              Eval(g, input, rule, Not(e), pos, env, errs), Eval(g, input, rule, And(e), pos, env, errs);
      && (no.Success? <==> there.Failure?) && (yes.Success? <==> there.Success?)
      && (no.Success? ==> no.pos == pos && no.env == env && no.val == Nil)
      && (yes.Success? ==> yes.pos == pos && yes.env == env && yes.val == Nil)
  {
    hide WellFormed;
  }

  /** Not not is positive lookahead. */
  lemma NotNotIsAnd<R(!new), N>(g: Grammar<R, N>, input: string, rule: R, e: Expr<R>, pos: nat, env: Env<N>, errs: seq<Error<R>>)
    requires WellFormed(g) && WellFormedExpr(g, e) && pos <= |input|
    ensures WellFormedExpr(g, Not(Not(e))) && WellFormedExpr(g, And(e))
    ensures Eval(g, input, rule, Not(Not(e)), pos, env, errs) == Eval(g, input, rule, And(e), pos, env, errs)
  {
    hide WellFormed;
    assert WellFormedExpr(g, Not(e));
  }

  /** `!.` succeeds at the end of the input and nowhere else. */
  lemma EndOfInput<R(!new), N>(g: Grammar<R, N>, input: string, rule: R, pos: nat, env: Env<N>, errs: seq<Error<R>>)
    requires WellFormed(g) && pos <= |input|
    ensures WellFormedExpr(g, Not(Any))
    ensures Eval(g, input, rule, Not(Any), pos, env, errs).Success? <==> pos == |input|
  {
    hide WellFormed;
  }

  // ----- repetition -----

  /** A loop takes all it can get: where it ends, its body fails. */
  lemma {:induction false} LoopIsGreedy<R(!new), N>(g: Grammar<R, N>, input: string, rule: R, e: Expr<R>, pos: nat, env: Env<N>,
                                                    errs: seq<Error<R>>, vals: seq<Value<N>>)
    requires WellFormed(g) && WellFormedExpr(g, e) && !MayBeEmpty(g, e) && pos <= |input|
    ensures Eval(g, input, rule, e, EvalLoop(g, input, rule, e, pos, env, errs, vals).pos, map[], []).Failure?
    decreases |input| - pos
  {
    hide WellFormed, WellFormedExpr, MayBeEmpty, Eval;
    var o := Eval(g, input, rule, e, pos, map[], errs);
    ErrorsAreApart(g, input, rule, e, pos, map[], errs, []);
    assert errs + [] == errs;
    if o.Success? {
      LoopIsGreedy(g, input, rule, e, o.pos, env, o.errs, vals + [o.val]);
    }
  }

  /** `e+` is `e e*`, and `e*` is `e+` or nothing. */
  lemma Repetitions<R(!new), N>(g: Grammar<R, N>, input: string, rule: R, e: Expr<R>, pos: nat, env: Env<N>, errs: seq<Error<R>>)
    requires WellFormed(g) && WellFormedExpr(g, e) && !MayBeEmpty(g, e) && pos <= |input|
    ensures WellFormedExpr(g, OneOrMore(e)) && WellFormedExpr(g, ZeroOrMore(e))
    ensures var many, some := Eval(g, input, rule, ZeroOrMore(e), pos, env, errs), Eval(g, input, rule, OneOrMore(e), pos, env, errs);
      && many.Success? && many.errs == some.errs
      && (some.Success? <==> many.pos > pos)
      && (if some.Success? then many == some else many.val == List([]) && many.env == env)
  {
    hide WellFormed, WellFormedExpr, MayBeEmpty, EvalLoop;
    RepetitionsUnfold(g, input, rule, e, pos, env, errs);
    LoopUnfolds(g, input, rule, e, pos, env, errs, []);
    var o := Eval(g, input, rule, e, pos, map[], errs);
    assert o.Success? ==> [] + [o.val] == [o.val];
  }

  lemma RepetitionsUnfold<R(!new), N>(g: Grammar<R, N>, input: string, rule: R, e: Expr<R>, pos: nat, env: Env<N>, errs: seq<Error<R>>)
    requires WellFormed(g) && WellFormedExpr(g, e) && !MayBeEmpty(g, e) && pos <= |input|
    ensures WellFormedExpr(g, OneOrMore(e)) && WellFormedExpr(g, ZeroOrMore(e))
    ensures Eval(g, input, rule, ZeroOrMore(e), pos, env, errs) == EvalLoop(g, input, rule, e, pos, env, errs, [])
    ensures var o := Eval(g, input, rule, e, pos, map[], errs);
      Eval(g, input, rule, OneOrMore(e), pos, env, errs) ==
      if o.Failure? then o else EvalLoop(g, input, rule, e, o.pos, env, o.errs, [o.val])
  {
    hide WellFormed, MayBeEmpty, EvalLoop;
  }

  lemma LoopUnfolds<R(!new), N>(g: Grammar<R, N>, input: string, rule: R, e: Expr<R>, pos: nat, env: Env<N>, errs: seq<Error<R>>,
                                vals: seq<Value<N>>)
    requires WellFormed(g) && WellFormedExpr(g, e) && !MayBeEmpty(g, e) && pos <= |input|
    ensures var o := Eval(g, input, rule, e, pos, map[], errs);
      && (o.Success? ==> o.pos > pos)
      && EvalLoop(g, input, rule, e, pos, env, errs, vals) ==
         if o.Failure? then Success(List(vals), pos, env, o.errs)
         else EvalLoop(g, input, rule, e, o.pos, env, o.errs, vals + [o.val])
  {
    hide WellFormed, WellFormedExpr, MayBeEmpty, Eval;
  }

  /** `e?` is `e` or the empty sequence. */
  lemma OptionIsChoice<R(!new), N>(g: Grammar<R, N>, input: string, rule: R, e: Expr<R>, pos: nat, env: Env<N>, errs: seq<Error<R>>)
    requires WellFormed(g) && WellFormedExpr(g, e) && pos <= |input|
    ensures WellFormedExpr(g, ZeroOrOne(e)) && WellFormedExpr(g, Choice([e, Seq([])]))
    ensures var may, or := Eval(g, input, rule, ZeroOrOne(e), pos, env, errs), Eval(g, input, rule, Choice([e, Seq([])]), pos, env, errs);
      && may.Success? && or.Success? && may.pos == or.pos && may.env == or.env && may.errs == or.errs
      && may.val == if Eval(g, input, rule, e, pos, map[], errs).Success? then or.val else Nil
  {
    hide WellFormed;
    var es := [e, Seq([])];
    assert es[1..] == [Seq([])] && es[1..][1..] == [];
    assert WellFormedExpr(g, es[0]) && WellFormedExpr(g, es[1]);
    var o := Eval(g, input, rule, e, pos, map[], errs);
    if o.Failure? {
      assert Eval(g, input, rule, Seq([]), pos, map[], o.errs) == EvalSeq(g, input, rule, [], pos, map[], o.errs, []);
      assert EvalChoice(g, input, rule, es[1..], pos, env, o.errs) == Success(List([]), pos, env, o.errs);
    }
  }

  // ----- ordered choice -----

  /** A choice matches exactly what its first matching alternative does; the ones before it fail. */
  lemma {:induction false} ChoiceIsFirst<R(!new), N>(g: Grammar<R, N>, input: string, rule: R, es: seq<Expr<R>>, pos: nat, env: Env<N>,
                                                     errs: seq<Error<R>>)
    returns (k: nat)
    requires WellFormed(g) && (forall j :: 0 <= j < |es| ==> WellFormedExpr(g, es[j])) && pos <= |input|
    requires EvalChoice(g, input, rule, es, pos, env, errs).Success?
    ensures k < |es| && forall j :: 0 <= j < k ==> Eval(g, input, rule, es[j], pos, map[], []).Failure?
    ensures var o, first := EvalChoice(g, input, rule, es, pos, env, errs), Eval(g, input, rule, es[k], pos, map[], []);
      first.Success? && o.val == first.val && o.pos == first.pos && o.env == env
    decreases |es|
  {
    hide WellFormed, WellFormedExpr, Eval;
    var o := Eval(g, input, rule, es[0], pos, map[], errs);
    ErrorsAreApart(g, input, rule, es[0], pos, map[], errs, []);
    assert errs + [] == errs;
    if o.Success? {
      k := 0;
    } else {
      k := ChoiceIsFirst(g, input, rule, es[1..], pos, env, o.errs);
      k := k + 1;
      assert forall j :: 1 <= j <= k ==> es[j] == es[1..][j - 1];
    }
  }

  // ----- matchers -----

  /** An inverted class is the class under negative lookahead, and then any rune. */
  lemma InvertedIsNot<R(!new), N>(g: Grammar<R, N>, input: string, rule: R, chars: seq<char>, ranges: seq<(char, char)>, pos: nat,
                                  env: Env<N>, errs: seq<Error<R>>)
    requires WellFormed(g) && pos <= |input|
    ensures WellFormedExpr(g, Not(CharClass(chars, ranges, false))) && WellFormedExpr(g, CharClass(chars, ranges, true))
    ensures WellFormedExpr(g, CharClass(chars, ranges, false))
    ensures var inverted, not, any := Eval(g, input, rule, CharClass(chars, ranges, true), pos, env, errs),
              Eval(g, input, rule, Not(CharClass(chars, ranges, false)), pos, env, errs), Eval(g, input, rule, Any, pos, env, errs);
      && inverted == (if not.Success? then any else Failure(errs))
      && (Eval(g, input, rule, CharClass(chars, ranges, false), pos, env, errs).Success? || inverted.Success? <==> any.Success?)
  {
    hide WellFormed;
  }

  /** A literal is its two parts, one after the other. */
  lemma LiteralSplits<R(!new), N>(g: Grammar<R, N>, input: string, rule: R, a: string, b: string, pos: nat, env: Env<N>,
                                  errs: seq<Error<R>>)
    requires WellFormed(g) && pos <= |input| && EOF_RUNE !in a + b
    ensures WellFormedExpr(g, Lit(a)) && WellFormedExpr(g, Lit(b)) && WellFormedExpr(g, Lit(a + b))
    ensures var whole, first := Eval(g, input, rule, Lit(a + b), pos, env, errs), Eval(g, input, rule, Lit(a), pos, env, errs);
      if first.Failure? then whole == first
      else
        var second := Eval(g, input, rule, Lit(b), first.pos, env, errs);
        if second.Failure? then whole == second
        else whole == Success(Text(a + b), second.pos, env, errs) && first.val == Text(a) && second.val == Text(b)
  {
    hide WellFormed, Eval;
    assert EOF_RUNE !in a && EOF_RUNE !in b;
    LiteralIs(g, input, rule, a, pos, env, errs);
    LiteralIs(g, input, rule, a + b, pos, env, errs);
    if pos + |a| <= |input| {
      LiteralIs(g, input, rule, b, pos + |a|, env, errs);
    }
    if pos + |a + b| <= |input| {
      SliceSplits(input, pos, a, b);
    }
  }

  lemma LiteralIs<R(!new), N>(g: Grammar<R, N>, input: string, rule: R, t: string, pos: nat, env: Env<N>, errs: seq<Error<R>>)
    requires WellFormed(g) && pos <= |input| && EOF_RUNE !in t
    ensures WellFormedExpr(g, Lit(t))
    ensures Eval(g, input, rule, Lit(t), pos, env, errs) ==
      if pos + |t| <= |input| && input[pos..pos + |t|] == t then Success(Text(t), pos + |t|, env, errs) else Failure(errs)
  {
    hide WellFormed;
  }

  lemma SliceSplits(input: string, pos: nat, a: string, b: string)
    requires pos + |a| + |b| <= |input|
    ensures input[pos..pos + |a + b|] == a + b <==> input[pos..pos + |a|] == a && input[pos + |a|..pos + |a| + |b|] == b
  {
    var whole := input[pos..pos + |a + b|];
    assert whole == input[pos..pos + |a|] + input[pos + |a|..pos + |a| + |b|];
    assert whole[..|a|] == input[pos..pos + |a|] && whole[|a|..] == input[pos + |a|..pos + |a| + |b|];
    assert (a + b)[..|a|] == a && (a + b)[|a|..] == b;
  }

  // ----- labels and actions -----

  /** The place of a match in the input, by counting newlines and runes. */
  function Place(input: string, pos: nat): Savepoint
    requires pos <= |input|
  {
    var read := input[..if pos < |input| then pos + 1 else pos];
    if pos < |input| then Savepoint(1 + Newlines(read), SinceNewline(read), pos, input[pos], 1)
    else Savepoint(1 + Newlines(read), SinceNewline(read) + 1, pos, EOF_RUNE, 0)
  }

  lemma PointIsPlace(input: string, pos: nat)
    requires pos <= |input|
    ensures Point(input, pos) == Place(input, pos)
  {
    PointIsLineAndColumn(input, pos);
  }

  /** An action sees the labels of its scope, the text that its expression has matched and where that
      begins; its value replaces the expression's, and an error that it reports is recorded with
      that place and the rule it stands in, behind those of its parts. */
  lemma ActionIsRun<R(!new), N>(g: Grammar<R, N>, input: string, rule: R, e: Expr<R>, run: nat, pos: nat, env: Env<N>, errs: seq<Error<R>>)
    requires WellFormed(g) && WellFormedExpr(g, e) && pos <= |input|
    ensures WellFormedExpr(g, Action(e, run))
    ensures var inner, o := Eval(g, input, rule, e, pos, env, errs), Eval(g, input, rule, Action(e, run), pos, env, errs);
      if inner.Failure? then o == inner
      else
        var place := Place(input, pos);
        var r := g.run(run, inner.env, input[pos..inner.pos], place);
        o == Success(r.val, inner.pos, inner.env,
                     inner.errs + if r.err.None? then [] else [Error(r.err.value, place.line, place.col, pos, rule)])
  {
    hide WellFormed, Point, Place;
    PointIsPlace(input, pos);
  }

  /** A label is bound, in the scope around it, to the value of its expression, which sees none of the
      other labels there. */
  lemma LabelBinds<R(!new), N>(g: Grammar<R, N>, input: string, rule: R, name: string, e: Expr<R>, pos: nat, env: Env<N>,
                               errs: seq<Error<R>>)
    requires WellFormed(g) && WellFormedExpr(g, e) && pos <= |input| && name != ""
    ensures WellFormedExpr(g, Labeled(name, e))
    ensures var inner, o := Eval(g, input, rule, e, pos, map[], errs), Eval(g, input, rule, Labeled(name, e), pos, env, errs);
      (o.Success? <==> inner.Success?) && (o.Success? ==> o.pos == inner.pos && o.env == env[name := o.val] && o.val == inner.val)
  {
    hide WellFormed;
  }
}
