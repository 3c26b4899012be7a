/** Parsing expression grammars as the generated KQL parser knows them, and their meaning as a
    pure function (the runtime is pkg/kql/dictionary_gen.go:5670-6263). */
module Peg {

  datatype Option<+T> = None | Some(value: T)

  /** The expression kinds that the KQL grammar uses; `R` is the type of rule names. */
  datatype Expr<R> =
    | Action(expr: Expr<R>, run: nat)
    | And(expr: Expr<R>)
    | Not(expr: Expr<R>)
    | Any
    | CharClass(chars: seq<char>, ranges: seq<(char, char)>, inverted: bool)
    | Choice(alternatives: seq<Expr<R>>)
    | Labeled(name: string, expr: Expr<R>)
    | Lit(val: string)
    | OneOrMore(expr: Expr<R>)
    | ZeroOrMore(expr: Expr<R>)
    | ZeroOrOne(expr: Expr<R>)
    | RuleRef(rule: R)
    | Seq(exprs: seq<Expr<R>>)

  /** The `any` values that parsing produces; `N` is what the actions build. */
  datatype Value<N> = Nil | Text(text: string) | List(vals: seq<Value<N>>) | Built(node: N)

  type Env<N> = map<string, Value<N>>

  /** Line and column of the current rune, its offset, the rune itself and its width; the width
      is 0, and the rune U+FFFD, at the end of the input. */
  datatype Savepoint = Savepoint(line: nat, col: nat, offset: nat, rn: char, w: nat)

  datatype Error<R> = Error(msg: string, line: nat, col: nat, offset: nat, rule: R)

  datatype Returned<N> = Returned(val: Value<N>, err: Option<string>)

  /** `body` is the rules table and `run` the action code. `nullable` and `rank` justify
      termination: see WellFormed. */
  datatype Grammar<!R, !N> = Grammar(
    body: R -> Expr<R>,
    run: (nat, Env<N>, string, Savepoint) -> Returned<N>,
    nullable: R -> bool,
    rank: R -> nat)

  const EOF_RUNE := '\U{FFFD}'

  // ----- positions -----

  function Next(input: string, pt: Savepoint): Savepoint {
    var offset := pt.offset + pt.w;
    var rn := if offset < |input| then input[offset] else EOF_RUNE;
    var w := if offset < |input| then 1 else 0;
    if rn == '\n' then Savepoint(pt.line + 1, 0, offset, rn, w) else Savepoint(pt.line, pt.col + 1, offset, rn, w)
  }

  /** The savepoint is a function of the offset alone. */
  function Point(input: string, offset: nat): (pt: Savepoint)
    requires offset <= |input|
    ensures pt.offset == offset
    ensures pt.w == if offset < |input| then 1 else 0
    ensures pt.rn == if offset < |input| then input[offset] else EOF_RUNE
  {
    if offset == 0 then Next(input, Savepoint(1, 0, 0, '\0', 0)) else Next(input, Point(input, offset - 1))
  }

  function Newlines(s: string): nat {
    if s == "" then 0 else Newlines(s[..|s| - 1]) + if s[|s| - 1] == '\n' then 1 else 0
  }

  /** How many runes follow the last newline. */
  function SinceNewline(s: string): nat {
    if s == "" || s[|s| - 1] == '\n' then 0 else 1 + SinceNewline(s[..|s| - 1])
  }

  /** The line counts the newlines up to and with the current rune, from 1, and the column the runes
      since the last of them; the end of the input counts as one more rune. */
  lemma {:induction false} PointIsLineAndColumn(input: string, offset: nat)
    requires offset <= |input|
    ensures var pt, read := Point(input, offset), input[..if offset < |input| then offset + 1 else offset];
      && pt.line == 1 + Newlines(read)
      && pt.col == SinceNewline(read) + if offset < |input| then 0 else 1
    decreases offset
  {
    if offset > 0 {
      PointIsLineAndColumn(input, offset - 1);
      assert input[..offset - 1 + 1] == input[..offset];
    }
    if offset < |input| {
      assert input[..offset + 1][..offset] == input[..offset];
    }
  }

  // ----- well-formed grammars -----

  /** Whether an expression may succeed without consuming anything. */
  function MayBeEmpty<R, N>(g: Grammar<R, N>, e: Expr<R>): bool {
    match e
    case Action(e1, _) => MayBeEmpty(g, e1)
    case And(_) => true
    case Not(_) => true
    case Any => false
    case CharClass(_, _, _) => false
    case Choice(es) => exists k :: 0 <= k < |es| && MayBeEmpty(g, es[k])
    case Labeled(_, e1) => MayBeEmpty(g, e1)
    case Lit(val) => val == ""
    case OneOrMore(e1) => MayBeEmpty(g, e1)
    case ZeroOrMore(_) => true
    case ZeroOrOne(_) => true
    case RuleRef(r) => g.nullable(r)
    case Seq(es) => forall k :: 0 <= k < |es| ==> MayBeEmpty(g, es[k])
  }

  function Max(a: nat, b: nat): nat {
    if a < b then b else a
  }

  /** A bound on the rank of the rules that may be entered before anything is consumed. */
  function LeftRank<R, N>(g: Grammar<R, N>, e: Expr<R>): nat
    decreases e, 0
  {
    match e
    case Action(e1, _) => LeftRank(g, e1)
    case And(e1) => LeftRank(g, e1)
    case Not(e1) => LeftRank(g, e1)
    case Any => 0
    case CharClass(_, _, _) => 0
    case Choice(es) => ChoiceRank(g, es)
    case Labeled(_, e1) => LeftRank(g, e1)
    case Lit(_) => 0
    case OneOrMore(e1) => LeftRank(g, e1)
    case ZeroOrMore(e1) => LeftRank(g, e1)
    case ZeroOrOne(e1) => LeftRank(g, e1)
    case RuleRef(r) => g.rank(r) + 1
    case Seq(es) => SeqRank(g, es)
  }

  function ChoiceRank<R, N>(g: Grammar<R, N>, es: seq<Expr<R>>): nat
    decreases es, 0
  {
    if es == [] then 0 else Max(LeftRank(g, es[0]), ChoiceRank(g, es[1..]))
  }

  function SeqRank<R, N>(g: Grammar<R, N>, es: seq<Expr<R>>): nat
    decreases es, 0
  {
    if es == [] then 0
    else Max(LeftRank(g, es[0]), if MayBeEmpty(g, es[0]) then SeqRank(g, es[1..]) else 0)
  }

  /** No loop body may be empty, and no literal contains the rune that stands for the end. */
  predicate WellFormedExpr<R, N>(g: Grammar<R, N>, e: Expr<R>) {
    match e
    case Action(e1, _) => WellFormedExpr(g, e1)
    case And(e1) => WellFormedExpr(g, e1)
    case Not(e1) => WellFormedExpr(g, e1)
    case Any => true
    case CharClass(_, _, _) => true
    case Choice(es) => forall k :: 0 <= k < |es| ==> WellFormedExpr(g, es[k])
    case Labeled(_, e1) => WellFormedExpr(g, e1)
    case Lit(val) => EOF_RUNE !in val
    case OneOrMore(e1) => WellFormedExpr(g, e1) && !MayBeEmpty(g, e1)
    case ZeroOrMore(e1) => WellFormedExpr(g, e1) && !MayBeEmpty(g, e1)
    case ZeroOrOne(e1) => WellFormedExpr(g, e1)
    case RuleRef(_) => true
    case Seq(es) => forall k :: 0 <= k < |es| ==> WellFormedExpr(g, es[k])
  }

  /** No left recursion: entering a rule without consuming always lowers the rank. */
  ghost predicate WellFormed<R(!new), N>(g: Grammar<R, N>) {
    forall r: R {:trigger g.body(r)} ::
      && WellFormedExpr(g, g.body(r))
      && (MayBeEmpty(g, g.body(r)) ==> g.nullable(r))
      && LeftRank(g, g.body(r)) <= g.rank(r)
  }

  // ----- the meaning of an expression -----

  datatype Outcome<R, N> =
    | Failure(errs: seq<Error<R>>)
    | Success(val: Value<N>, pos: nat, env: Env<N>, errs: seq<Error<R>>)

  predicate InClass(c: char, chars: seq<char>, ranges: seq<(char, char)>) {
    c in chars || exists k :: 0 <= k < |ranges| && ranges[k].0 <= c <= ranges[k].1
  }

  /** Parses `e` at `pos`, inside `rule`, with the labels `env` bound so far in the enclosing
      scope and the errors `errs` reported so far by actions. */
  ghost function Eval<R(!new), N>(g: Grammar<R, N>, input: string, rule: R, e: Expr<R>, pos: nat, env: Env<N>,
                                  errs: seq<Error<R>>): (o: Outcome<R, N>)
    requires WellFormed(g) && WellFormedExpr(g, e) && pos <= |input|
    ensures o.Success? ==> pos <= o.pos <= |input| && (o.pos == pos ==> MayBeEmpty(g, e))
    decreases |input| - pos, LeftRank(g, e), e, 0
  {
    match e
    case Action(e1, run) =>
      (match Eval(g, input, rule, e1, pos, env, errs)
       case Failure(errs1) => Failure(errs1)
       case Success(_, p, env1, errs1) =>
         var r := g.run(run, env1, input[pos..p], Point(input, pos));
         Success(r.val, p, env1, errs1 + Reported(r, Point(input, pos), rule)))
    case And(e1) =>
      (match Eval(g, input, rule, e1, pos, map[], errs)
       case Failure(errs1) => Failure(errs1)
       case Success(_, _, _, errs1) => Success(Nil, pos, env, errs1))
    case Not(e1) =>
      (match Eval(g, input, rule, e1, pos, map[], errs)
       case Failure(errs1) => Success(Nil, pos, env, errs1)
       case Success(_, _, _, errs1) => Failure(errs1))
    case Any =>
      if pos < |input| then Success(Text([input[pos]]), pos + 1, env, errs) else Failure(errs)
    case CharClass(chars, ranges, inverted) =>
      if pos < |input| && InClass(input[pos], chars, ranges) != inverted
      then Success(Text([input[pos]]), pos + 1, env, errs) else Failure(errs)
    case Choice(es) => EvalChoice(g, input, rule, es, pos, env, errs)
    case Labeled(name, e1) =>
      (match Eval(g, input, rule, e1, pos, map[], errs)
       case Failure(errs1) => Failure(errs1)
       case Success(v, p, _, errs1) => Success(v, p, if name != "" then env[name := v] else env, errs1))
    case Lit(val) =>
      if pos + |val| <= |input| && input[pos..pos + |val|] == val
      then Success(Text(val), pos + |val|, env, errs) else Failure(errs)
    case OneOrMore(e1) =>
      (match Eval(g, input, rule, e1, pos, map[], errs)
       case Failure(errs1) => Failure(errs1)
       case Success(v, p, _, errs1) => EvalLoop(g, input, rule, e1, p, env, errs1, [v]))
    case ZeroOrMore(e1) => EvalLoop(g, input, rule, e1, pos, env, errs, [])
    case ZeroOrOne(e1) =>
      (match Eval(g, input, rule, e1, pos, map[], errs)
       case Failure(errs1) => Success(Nil, pos, env, errs1)
       case Success(v, p, _, errs1) => Success(v, p, env, errs1))
    case RuleRef(r) =>
      (match Eval(g, input, r, g.body(r), pos, map[], errs)
       case Failure(errs1) => Failure(errs1)
       case Success(v, p, _, errs1) => Success(v, p, env, errs1))
    case Seq(es) => EvalSeq(g, input, rule, es, pos, env, errs, [])
  }

  function Reported<R, N>(r: Returned<N>, pt: Savepoint, rule: R): seq<Error<R>> {
    if r.err.Some? then [Error(r.err.value, pt.line, pt.col, pt.offset, rule)] else []
  }

  /** Ordered choice: the first alternative that matches, each in a scope of its own. */
  ghost function EvalChoice<R(!new), N>(g: Grammar<R, N>, input: string, rule: R, es: seq<Expr<R>>, pos: nat, env: Env<N>,
                                        errs: seq<Error<R>>): (o: Outcome<R, N>)
    requires WellFormed(g) && (forall k :: 0 <= k < |es| ==> WellFormedExpr(g, es[k])) && pos <= |input|
    ensures o.Success? ==> pos <= o.pos <= |input|
    ensures o.Success? && o.pos == pos ==> exists k :: 0 <= k < |es| && MayBeEmpty(g, es[k])
    decreases |input| - pos, ChoiceRank(g, es), es, 0
  {
    if es == [] then Failure(errs)
    else
      match Eval(g, input, rule, es[0], pos, map[], errs)
      case Failure(errs1) => EvalChoice(g, input, rule, es[1..], pos, env, errs1)
      case Success(v, p, _, errs1) => Success(v, p, env, errs1)
  }

  /** A sequence shares the enclosing scope, so later elements see the labels of earlier ones. */
  ghost function EvalSeq<R(!new), N>(g: Grammar<R, N>, input: string, rule: R, es: seq<Expr<R>>, pos: nat, env: Env<N>,
                                     errs: seq<Error<R>>, vals: seq<Value<N>>): (o: Outcome<R, N>)
    requires WellFormed(g) && (forall k :: 0 <= k < |es| ==> WellFormedExpr(g, es[k])) && pos <= |input|
    ensures o.Success? ==> pos <= o.pos <= |input|
    ensures o.Success? && o.pos == pos ==> forall k :: 0 <= k < |es| ==> MayBeEmpty(g, es[k])
    decreases |input| - pos, SeqRank(g, es), es, 0
  {
    if es == [] then Success(List(vals), pos, env, errs)
    else
      match Eval(g, input, rule, es[0], pos, env, errs)
      case Failure(errs1) => Failure(errs1)
      case Success(v, p, env1, errs1) => EvalSeq(g, input, rule, es[1..], p, env1, errs1, vals + [v])
  }

  /** Repeats as long as the body matches, each time in a scope of its own. */
  ghost function EvalLoop<R(!new), N>(g: Grammar<R, N>, input: string, rule: R, e: Expr<R>, pos: nat, env: Env<N>,
                                      errs: seq<Error<R>>, vals: seq<Value<N>>): (o: Outcome<R, N>)
    requires WellFormed(g) && WellFormedExpr(g, e) && !MayBeEmpty(g, e) && pos <= |input|
    ensures o.Success? && pos <= o.pos <= |input|
    decreases |input| - pos, LeftRank(g, e), e, 1
  {
    match Eval(g, input, rule, e, pos, map[], errs)
    case Failure(errs1) => Success(List(vals), pos, env, errs1)
    case Success(v, p, _, errs1) => EvalLoop(g, input, rule, e, p, env, errs1, vals + [v])
  }

  // ----- unfolding a choice or a sequence -----

  lemma EvalIsChoice<R(!new), N>(g: Grammar<R, N>, input: string, rule: R, es: seq<Expr<R>>, pos: nat, env: Env<N>,
                                 errs: seq<Error<R>>)
    requires WellFormed(g) && WellFormedExpr(g, Choice(es)) && pos <= |input|
    ensures LeftRank(g, Choice(es)) == ChoiceRank(g, es) && forall k :: 0 <= k < |es| ==> WellFormedExpr(g, es[k])
    ensures Eval(g, input, rule, Choice(es), pos, env, errs) == EvalChoice(g, input, rule, es, pos, env, errs)
  {
    hide WellFormed;
  }

  lemma EvalChoiceStep<R(!new), N>(g: Grammar<R, N>, input: string, rule: R, es: seq<Expr<R>>, i: nat, pos: nat, env: Env<N>,
                                   errs: seq<Error<R>>)
    requires WellFormed(g) && (forall k :: 0 <= k < |es| ==> WellFormedExpr(g, es[k])) && pos <= |input| && i < |es|
    ensures LeftRank(g, es[i]) <= ChoiceRank(g, es[i..]) && ChoiceRank(g, es[i + 1..]) <= ChoiceRank(g, es[i..])
    ensures var o := Eval(g, input, rule, es[i], pos, map[], errs);
      EvalChoice(g, input, rule, es[i..], pos, env, errs) ==
      if o.Failure? then EvalChoice(g, input, rule, es[i + 1..], pos, env, o.errs) else Success(o.val, o.pos, env, o.errs)
  {
    hide WellFormed, WellFormedExpr, Eval;
    assert es[i..][0] == es[i] && es[i..][1..] == es[i + 1..];
  }

  lemma EvalNoChoice<R(!new), N>(g: Grammar<R, N>, input: string, rule: R, pos: nat, env: Env<N>, errs: seq<Error<R>>)
    requires WellFormed(g) && pos <= |input|
    ensures EvalChoice(g, input, rule, [], pos, env, errs) == Failure(errs)
  {
    hide WellFormed;
  }

  lemma EvalIsSeq<R(!new), N>(g: Grammar<R, N>, input: string, rule: R, es: seq<Expr<R>>, pos: nat, env: Env<N>,
                              errs: seq<Error<R>>)
    requires WellFormed(g) && WellFormedExpr(g, Seq(es)) && pos <= |input|
    ensures LeftRank(g, Seq(es)) == SeqRank(g, es) && forall k :: 0 <= k < |es| ==> WellFormedExpr(g, es[k])
    ensures Eval(g, input, rule, Seq(es), pos, env, errs) == EvalSeq(g, input, rule, es, pos, env, errs, [])
  {
    hide WellFormed;
  }

  lemma EvalSeqStep<R(!new), N>(g: Grammar<R, N>, input: string, rule: R, es: seq<Expr<R>>, i: nat, pos: nat, env: Env<N>,
                                errs: seq<Error<R>>, vals: seq<Value<N>>)
    requires WellFormed(g) && (forall k :: 0 <= k < |es| ==> WellFormedExpr(g, es[k])) && pos <= |input| && i < |es|
    ensures LeftRank(g, es[i]) <= SeqRank(g, es[i..])
    ensures MayBeEmpty(g, es[i]) ==> SeqRank(g, es[i + 1..]) <= SeqRank(g, es[i..])
    ensures var o := Eval(g, input, rule, es[i], pos, env, errs);
      EvalSeq(g, input, rule, es[i..], pos, env, errs, vals) ==
      if o.Failure? then o else EvalSeq(g, input, rule, es[i + 1..], o.pos, o.env, o.errs, vals + [o.val])
  {
    hide WellFormed, WellFormedExpr, Eval;
    assert es[i..][0] == es[i] && es[i..][1..] == es[i + 1..];
  }

  lemma EvalNoSeq<R(!new), N>(g: Grammar<R, N>, input: string, rule: R, pos: nat, env: Env<N>, errs: seq<Error<R>>, vals: seq<Value<N>>)
    requires WellFormed(g) && pos <= |input|
    ensures EvalSeq(g, input, rule, [], pos, env, errs, vals) == Success(List(vals), pos, env, errs)
  {
    hide WellFormed;
  }

  // ----- errors are only ever added -----

  lemma {:induction false} ErrorsGrow<R(!new), N>(g: Grammar<R, N>, input: string, rule: R, e: Expr<R>, pos: nat, env: Env<N>,
                                                  errs: seq<Error<R>>)
    requires WellFormed(g) && WellFormedExpr(g, e) && pos <= |input|
    ensures errs <= Eval(g, input, rule, e, pos, env, errs).errs
    decreases |input| - pos, LeftRank(g, e), e, 0
  {
    match e
    case Action(e1, run) => ErrorsGrow(g, input, rule, e1, pos, env, errs);
    case And(e1) => ErrorsGrow(g, input, rule, e1, pos, map[], errs);
    case Not(e1) => ErrorsGrow(g, input, rule, e1, pos, map[], errs);
    case Choice(es) => ChoiceErrorsGrow(g, input, rule, es, pos, env, errs);
    case Labeled(name, e1) => ErrorsGrow(g, input, rule, e1, pos, map[], errs);
    case OneOrMore(e1) =>
      ErrorsGrow(g, input, rule, e1, pos, map[], errs);
      var o := Eval(g, input, rule, e1, pos, map[], errs);
      if o.Success? {
        LoopErrorsGrow(g, input, rule, e1, o.pos, env, o.errs, [o.val]);
      }
    case ZeroOrMore(e1) => LoopErrorsGrow(g, input, rule, e1, pos, env, errs, []);
    case ZeroOrOne(e1) => ErrorsGrow(g, input, rule, e1, pos, map[], errs);
    case RuleRef(r) => ErrorsGrow(g, input, r, g.body(r), pos, map[], errs);
    case Seq(es) => SeqErrorsGrow(g, input, rule, es, pos, env, errs, []);
    case _ =>
  }

  lemma {:induction false} ChoiceErrorsGrow<R(!new), N>(g: Grammar<R, N>, input: string, rule: R, es: seq<Expr<R>>, pos: nat,
                                                        env: Env<N>, errs: seq<Error<R>>)
    requires WellFormed(g) && (forall k :: 0 <= k < |es| ==> WellFormedExpr(g, es[k])) && pos <= |input|
    ensures errs <= EvalChoice(g, input, rule, es, pos, env, errs).errs
    decreases |input| - pos, ChoiceRank(g, es), es, 0
  {
    if es != [] {
      ErrorsGrow(g, input, rule, es[0], pos, map[], errs);
      var o := Eval(g, input, rule, es[0], pos, map[], errs);
      if o.Failure? {
        ChoiceErrorsGrow(g, input, rule, es[1..], pos, env, o.errs);
      }
    }
  }

  lemma {:induction false} SeqErrorsGrow<R(!new), N>(g: Grammar<R, N>, input: string, rule: R, es: seq<Expr<R>>, pos: nat,
                                                     env: Env<N>, errs: seq<Error<R>>, vals: seq<Value<N>>)
    requires WellFormed(g) && (forall k :: 0 <= k < |es| ==> WellFormedExpr(g, es[k])) && pos <= |input|
    ensures errs <= EvalSeq(g, input, rule, es, pos, env, errs, vals).errs
    decreases |input| - pos, SeqRank(g, es), es, 0
  {
    if es != [] {
      ErrorsGrow(g, input, rule, es[0], pos, env, errs);
      var o := Eval(g, input, rule, es[0], pos, env, errs);
      if o.Success? {
        SeqErrorsGrow(g, input, rule, es[1..], o.pos, o.env, o.errs, vals + [o.val]);
      }
    }
  }

  lemma {:induction false} LoopErrorsGrow<R(!new), N>(g: Grammar<R, N>, input: string, rule: R, e: Expr<R>, pos: nat, env: Env<N>,
                                                      errs: seq<Error<R>>, vals: seq<Value<N>>)
    requires WellFormed(g) && WellFormedExpr(g, e) && !MayBeEmpty(g, e) && pos <= |input|
    ensures errs <= EvalLoop(g, input, rule, e, pos, env, errs, vals).errs
    decreases |input| - pos, LeftRank(g, e), e, 1
  {
    ErrorsGrow(g, input, rule, e, pos, map[], errs);
    var o := Eval(g, input, rule, e, pos, map[], errs);
    if o.Success? {
      LoopErrorsGrow(g, input, rule, e, o.pos, env, o.errs, vals + [o.val]);
    }
  }
}
