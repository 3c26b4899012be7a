/** Quoted values: section 2.3.1 of MS-KQL as pkg/kql/doc.go:23-25 reads it, the String rule and
    `unquote` (pkg/kql/cast.go:74-78), and a whole query that is one quoted phrase. */
module KqlStrings {
  import opened Ast
  import opened Peg
  import opened KqlGrammar

  function Doubled(v: string): string {
    if v == "" then ""
    else (if v[0] == '"' then "\"\"" else [v[0]]) + Doubled(v[1..])
  }

  /** How a value is written in a query. */
  function Quote(v: string): string {
    "\"" + Doubled(v) + "\""
  }

  lemma {:induction false} UndoubleDoubled(v: string)
    ensures ReplaceDoubled(Doubled(v)) == v
  {
    if v != "" {
      UndoubleDoubled(v[1..]);
      if v[0] == '"' {
        assert Doubled(v)[2..] == Doubled(v[1..]);
      } else {
        assert Doubled(v)[1..] == Doubled(v[1..]);
      }
    }
  }

  lemma UnquoteQuote(v: string)
    ensures Unquote(Quote(v)) == v
  {
    assert Quote(v)[1..|Quote(v)| - 1] == Doubled(v);
    UndoubleDoubled(v);
  }

  /** Whether a token that would end before `p` really ends there: a further quote would extend it. */
  predicate EndsAt(input: string, p: nat) {
    p <= |input| && (p < |input| ==> input[p] != '"')
  }

  // ----- one character between the quotes -----

  lemma CharStep(g: Grammar<Rule, Built>, input: string, rule: Rule, pos: nat, errs: seq<Error<Rule>>)
    requires WellFormed(g) && pos <= |input| && WellFormedExpr(g, QuotedChar())
    ensures Eval(g, input, rule, QuotedChar(), pos, map[], errs) ==
            if pos + 2 <= |input| && input[pos] == '"' && input[pos + 1] == '"' then Success(Text("\"\""), pos + 2, map[], errs)
            else if pos < |input| && input[pos] != '"' then Success(Text([input[pos]]), pos + 1, map[], errs)
            else Failure(errs)
  {
    hide WellFormed;
    var es := [Lit("\"\""), NoneOf("\"")];
    assert es[1..] == [NoneOf("\"")];
    assert pos + 2 <= |input| ==> input[pos..pos + 2] == [input[pos], input[pos + 1]];
    assert Eval(g, input, rule, es[0], pos, map[], errs) ==
      if pos + 2 <= |input| && input[pos] == '"' && input[pos + 1] == '"' then Success(Text("\"\""), pos + 2, map[], errs)
      else Failure(errs);
    assert Eval(g, input, rule, es[1], pos, map[], errs) ==
      if pos < |input| && input[pos] != '"' then Success(Text([input[pos]]), pos + 1, map[], errs) else Failure(errs);
    assert EvalChoice(g, input, rule, es[1..], pos, map[], errs) == Eval(g, input, rule, es[1], pos, map[], errs);
  }

  lemma LoopStep(g: Grammar<Rule, Built>, input: string, rule: Rule, e: KqlExpr, pos: nat, env: Env<Built>, errs: seq<Error<Rule>>,
                 vals: seq<KqlValue>)
    requires WellFormed(g) && WellFormedExpr(g, e) && !MayBeEmpty(g, e) && pos <= |input|
    ensures var o := Eval(g, input, rule, e, pos, map[], errs);
            EvalLoop(g, input, rule, e, pos, env, errs, vals) ==
            if o.Failure? then Success(List(vals), pos, env, o.errs)
            else EvalLoop(g, input, rule, e, o.pos, env, o.errs, vals + [o.val])
  {
    hide WellFormed, WellFormedExpr, MayBeEmpty, Eval;
  }

  /** The first character of a doubled value, as it stands in the input. */
  lemma DoubledStart(input: string, pos: nat, v: string)
    requires v != "" && pos + |Doubled(v)| <= |input| && input[pos..pos + |Doubled(v)|] == Doubled(v)
    ensures var n := if v[0] == '"' then 2 else 1;
            && |Doubled(v)| == n + |Doubled(v[1..])| && input[pos] == v[0]
            && (v[0] == '"' ==> input[pos + 1] == '"')
            && input[pos + n..pos + n + |Doubled(v[1..])|] == Doubled(v[1..])
  {
    hide Doubled;
    DoubledCons(v);
    if v[0] == '"' {
      var two := "\"\"";
      SliceParts(input, pos, two, Doubled(v[1..]));
      assert two[0] == '"' && two[1] == '"';
      assert input[pos + 0] == two[0] && input[pos + 1] == two[1];
    } else {
      SliceParts(input, pos, [v[0]], Doubled(v[1..]));
      assert input[pos + 0] == [v[0]][0];
    }
  }

  lemma DoubledCons(v: string)
    requires v != ""
    ensures Doubled(v) == (if v[0] == '"' then "\"\"" else [v[0]]) + Doubled(v[1..])
  {
  }

  lemma SliceParts(input: string, pos: nat, a: string, b: string)
    requires pos + |a| + |b| <= |input| && input[pos..pos + |a| + |b|] == a + b
    ensures input[pos..pos + |a|] == a && input[pos + |a|..pos + |a| + |b|] == b
    ensures forall k :: 0 <= k < |a| ==> input[pos + k] == a[k]
  {
    var whole := input[pos..pos + |a| + |b|];
    assert whole[..|a|] == a && whole[|a|..] == b;
    assert input[pos..pos + |a|] == whole[..|a|] && input[pos + |a|..pos + |a| + |b|] == whole[|a|..];
    forall k | 0 <= k < |a|
      ensures input[pos + k] == a[k]
    {
      assert input[pos + k] == whole[k];
    }
  }

  /** The loop consumes exactly the doubled value. */
  lemma {:induction false} LoopForward(g: Grammar<Rule, Built>, input: string, rule: Rule, pos: nat, env: Env<Built>,
                                       errs: seq<Error<Rule>>, vals: seq<KqlValue>, v: string)
    requires WellFormed(g) && WellFormedExpr(g, QuotedChar()) && !MayBeEmpty(g, QuotedChar())
    requires pos + |Doubled(v)| < |input| && input[pos..pos + |Doubled(v)|] == Doubled(v)
    requires input[pos + |Doubled(v)|] == '"' && EndsAt(input, pos + |Doubled(v)| + 1)
    ensures var o := EvalLoop(g, input, rule, QuotedChar(), pos, env, errs, vals);
            o.pos == pos + |Doubled(v)| && o.env == env && o.errs == errs
    decreases |v|
  {
    hide WellFormed, QuotedChar, WellFormedExpr, MayBeEmpty, Eval, EvalLoop, Doubled;
    CharStep(g, input, rule, pos, errs);
    LoopStep(g, input, rule, QuotedChar(), pos, env, errs, vals);
    if v == "" {
      NothingDoubled();
    } else {
      DoubledStart(input, pos, v);
      var o := Eval(g, input, rule, QuotedChar(), pos, map[], errs);
      LoopForward(g, input, rule, o.pos, env, errs, vals + [o.val], v[1..]);
    }
  }

  lemma NothingDoubled()
    ensures Doubled("") == ""
  {
  }

  lemma DoubledAppend(c: char, w: string)
    ensures Doubled([c] + w) == (if c == '"' then "\"\"" else [c]) + Doubled(w)
  {
    assert ([c] + w)[1..] == w;
  }

  /** Whatever the loop consumes is a doubled value, and it stops only at a lone quote or the end. */
  lemma {:induction false} LoopBackward(g: Grammar<Rule, Built>, input: string, rule: Rule, pos: nat, env: Env<Built>,
                                        errs: seq<Error<Rule>>, vals: seq<KqlValue>) returns (w: string)
    requires WellFormed(g) && WellFormedExpr(g, QuotedChar()) && !MayBeEmpty(g, QuotedChar()) && pos <= |input|
    ensures var o := EvalLoop(g, input, rule, QuotedChar(), pos, env, errs, vals);
            && input[pos..o.pos] == Doubled(w) && o.env == env && o.errs == errs
            && (o.pos < |input| ==> input[o.pos] == '"' && EndsAt(input, o.pos + 1))
    decreases |input| - pos
  {
    hide WellFormed, QuotedChar, WellFormedExpr, MayBeEmpty, Eval, EvalLoop, Doubled;
    CharStep(g, input, rule, pos, errs);
    LoopStep(g, input, rule, QuotedChar(), pos, env, errs, vals);
    var o := Eval(g, input, rule, QuotedChar(), pos, map[], errs);
    if o.Failure? {
      w := "";
      NothingDoubled();
    } else {
      var rest := LoopBackward(g, input, rule, o.pos, env, errs, vals + [o.val]);
      w := [input[pos]] + rest;
      DoubledAppend(input[pos], rest);
      var end := EvalLoop(g, input, rule, QuotedChar(), o.pos, env, errs, vals + [o.val]).pos;
      CharAndRest(input, pos, o.pos, end);
    }
  }

  lemma CharAndRest(input: string, pos: nat, next: nat, end: nat)
    requires pos < next <= end <= |input|
    requires if input[pos] == '"' then next == pos + 2 && input[pos + 1] == '"' else next == pos + 1
    ensures input[pos..end] == (if input[pos] == '"' then "\"\"" else [input[pos]]) + input[next..end]
  {
  }

  // ----- the String token -----

  function StringParts(): seq<KqlExpr> {
    [Lit("\""), ZeroOrMore(QuotedChar()), Lit("\"")]
  }

  lemma QuoteStep(g: Grammar<Rule, Built>, input: string, rule: Rule, pos: nat, env: Env<Built>, errs: seq<Error<Rule>>)
    requires WellFormed(g) && pos <= |input| && WellFormedExpr(g, Lit("\""))
    ensures Eval(g, input, rule, Lit("\""), pos, env, errs) ==
            if pos < |input| && input[pos] == '"' then Success(Text("\""), pos + 1, env, errs) else Failure(errs)
  {
    assert pos < |input| ==> input[pos..pos + 1] == [input[pos]];
  }

  // ----- unfolding a sequence -----

  lemma SeqStep(g: Grammar<Rule, Built>, input: string, rule: Rule, e: KqlExpr, rest: seq<KqlExpr>, pos: nat, env: Env<Built>,
                errs: seq<Error<Rule>>, vals: seq<KqlValue>)
    requires WellFormed(g) && pos <= |input| && WellFormedExpr(g, e) && forall k :: 0 <= k < |rest| ==> WellFormedExpr(g, rest[k])
    ensures forall k :: 0 <= k < |[e] + rest| ==> WellFormedExpr(g, ([e] + rest)[k])
    ensures var o := Eval(g, input, rule, e, pos, env, errs);
            EvalSeq(g, input, rule, [e] + rest, pos, env, errs, vals) ==
            if o.Failure? then o else EvalSeq(g, input, rule, rest, o.pos, o.env, o.errs, vals + [o.val])
  {
    hide WellFormed, WellFormedExpr, Eval;
    assert ([e] + rest)[1..] == rest;
  }

  /** Unfolds a sequence of three expressions. */
  lemma SeqOfThree(g: Grammar<Rule, Built>, input: string, rule: Rule, es: seq<KqlExpr>, pos: nat, env: Env<Built>,
                   errs: seq<Error<Rule>>)
    requires WellFormed(g) && pos <= |input| && |es| == 3 && WellFormedExpr(g, Seq(es))
    requires forall k :: 0 <= k < |es| ==> WellFormedExpr(g, es[k])
    ensures Eval(g, input, rule, Seq(es), pos, env, errs) ==
            match Eval(g, input, rule, es[0], pos, env, errs)
            case Failure(e1) => Failure(e1)
            case Success(v1, p1, n1, e1) =>
              match Eval(g, input, rule, es[1], p1, n1, e1)
              case Failure(e2) => Failure(e2)
              case Success(v2, p2, n2, e2) =>
                match Eval(g, input, rule, es[2], p2, n2, e2)
                case Failure(e3) => Failure(e3)
                case Success(v3, p3, n3, e3) => Success(List([v1, v2, v3]), p3, n3, e3)
  {
    EvalIsSeq(g, input, rule, es, pos, env, errs);
    assert es == [es[0]] + ([es[1]] + ([es[2]] + []));
    hide WellFormed, WellFormedExpr, Eval, EvalSeq;
    SeqStep(g, input, rule, es[0], [es[1]] + ([es[2]] + []), pos, env, errs, []);
    var o1 := Eval(g, input, rule, es[0], pos, env, errs);
    if o1.Success? {
      SeqStep(g, input, rule, es[1], [es[2]] + [], o1.pos, o1.env, o1.errs, [] + [o1.val]);
      var o2 := Eval(g, input, rule, es[1], o1.pos, o1.env, o1.errs);
      if o2.Success? {
        var vals := [] + [o1.val] + [o2.val];
        SeqStep(g, input, rule, es[2], [], o2.pos, o2.env, o2.errs, vals);
        var o3 := Eval(g, input, rule, es[2], o2.pos, o2.env, o2.errs);
        if o3.Success? {
          EvalNoSeq(g, input, rule, o3.pos, o3.env, o3.errs, vals + [o3.val]);
          assert vals + [o3.val] == [o1.val, o2.val, o3.val];
        }
      }
    }
  }

  /** The three parts of the token one after the other. */
  lemma StringSteps(c: Conversions, input: string, rule: Rule, pos: nat, env: Env<Built>, errs: seq<Error<Rule>>)
    requires WellFormed(Kql(c)) && pos <= |input|
    requires WellFormedExpr(Kql(c), String()) && WellFormedExpr(Kql(c), QuotedChar()) && !MayBeEmpty(Kql(c), QuotedChar())
    ensures var o := Eval(Kql(c), input, rule, String(), pos, env, errs);
            if pos < |input| && input[pos] == '"' then
              var loop := EvalLoop(Kql(c), input, rule, QuotedChar(), pos + 1, env, errs, []);
              if loop.pos < |input| && input[loop.pos] == '"' then
                o == Success(Text(Unquote(input[pos..loop.pos + 1])), loop.pos + 1, loop.env, loop.errs)
              else o == Failure(loop.errs)
            else o == Failure(errs)
  {
    hide *;
    StringPartsAreWellFormed(Kql(c));
    StringSeq(Kql(c), input, rule, pos, env, errs);
    StringIsAction(c, input, rule, pos, env, errs);
  }

  /** The three parts without the action. */
  lemma StringSeq(g: Grammar<Rule, Built>, input: string, rule: Rule, pos: nat, env: Env<Built>, errs: seq<Error<Rule>>)
    requires WellFormed(g) && pos <= |input|
    requires WellFormedExpr(g, QuotedChar()) && !MayBeEmpty(g, QuotedChar()) && WellFormedExpr(g, Seq(StringParts()))
    ensures var o := Eval(g, input, rule, Seq(StringParts()), pos, env, errs);
            if pos < |input| && input[pos] == '"' then
              var loop := EvalLoop(g, input, rule, QuotedChar(), pos + 1, env, errs, []);
              if loop.pos < |input| && input[loop.pos] == '"' then
                o.Success? && o.pos == loop.pos + 1 && o.env == loop.env && o.errs == loop.errs
              else o == Failure(loop.errs)
            else o == Failure(errs)
  {
    hide *;
    StringPartsAreWellFormed(g);
    SeqOfThree(g, input, rule, StringParts(), pos, env, errs);
    QuoteStep(g, input, rule, pos, env, errs);
    if pos < |input| && input[pos] == '"' {
      var loop := EvalLoop(g, input, rule, QuotedChar(), pos + 1, env, errs, []);
      LoopIsZeroOrMore(g, input, rule, pos + 1, env, errs);
      QuoteStep(g, input, rule, loop.pos, loop.env, loop.errs);
    }
  }

  lemma StringPartsAreWellFormed(g: Grammar<Rule, Built>)
    requires WellFormedExpr(g, QuotedChar()) && !MayBeEmpty(g, QuotedChar())
    ensures WellFormedExpr(g, Lit("\"")) && WellFormedExpr(g, ZeroOrMore(QuotedChar())) && WellFormedExpr(g, Seq(StringParts()))
    ensures forall k :: 0 <= k < |StringParts()| ==> WellFormedExpr(g, StringParts()[k])
    ensures |StringParts()| == 3 && StringParts()[0] == StringParts()[2] == Lit("\"")
    ensures StringParts()[1] == ZeroOrMore(QuotedChar())
  {
    hide QuotedChar;
  }

  lemma LoopIsZeroOrMore(g: Grammar<Rule, Built>, input: string, rule: Rule, pos: nat, env: Env<Built>, errs: seq<Error<Rule>>)
    requires WellFormed(g) && pos <= |input| && WellFormedExpr(g, QuotedChar()) && !MayBeEmpty(g, QuotedChar())
    requires WellFormedExpr(g, ZeroOrMore(QuotedChar()))
    ensures Eval(g, input, rule, ZeroOrMore(QuotedChar()), pos, env, errs)
         == EvalLoop(g, input, rule, QuotedChar(), pos, env, errs, [])
  {
    hide WellFormed, QuotedChar, WellFormedExpr, MayBeEmpty, EvalLoop;
  }

  lemma StringIsAction(c: Conversions, input: string, rule: Rule, pos: nat, env: Env<Built>, errs: seq<Error<Rule>>)
    requires WellFormed(Kql(c)) && pos <= |input| && WellFormedExpr(Kql(c), String()) && WellFormedExpr(Kql(c), Seq(StringParts()))
    ensures Eval(Kql(c), input, rule, String(), pos, env, errs) ==
            match Eval(Kql(c), input, rule, Seq(StringParts()), pos, env, errs)
            case Failure(e1) => Failure(e1)
            case Success(_, p, n, e1) =>
              Success(Text(if p - pos >= 2 then Unquote(input[pos..p]) else input[pos..p]), p, n, e1)
  {
    hide WellFormed, WellFormedExpr, EvalSeq, EvalChoice, EvalLoop, Unquote, QuotedChar;
    assert String() == Action(Seq(StringParts()), UNQUOTE);
    hide String, StringParts;
    var o := Eval(Kql(c), input, rule, Seq(StringParts()), pos, env, errs);
    if o.Success? {
      var r := Run(c, UNQUOTE, o.env, input[pos..o.pos]);
      assert o.errs + Reported(r, Point(input, pos), rule) == o.errs;
    }
  }

  /** Round trip: at a quoted value that no further quote extends, the String rule consumes
      exactly that text and yields the value. */
  lemma StringForward(c: Conversions, input: string, rule: Rule, pos: nat, env: Env<Built>, errs: seq<Error<Rule>>, v: string)
    requires WellFormed(Kql(c)) && WellFormedExpr(Kql(c), String())
    requires pos + |Quote(v)| <= |input| && input[pos..pos + |Quote(v)|] == Quote(v) && EndsAt(input, pos + |Quote(v)|)
    ensures Eval(Kql(c), input, rule, String(), pos, env, errs) == Success(Text(v), pos + |Quote(v)|, env, errs)
  {
    hide *;
    QuotedCharIsToken(Kql(c));
    QuoteSlices(input, pos, v);
    LoopForward(Kql(c), input, rule, pos + 1, env, errs, [], v);
    StringSteps(c, input, rule, pos, env, errs);
    UnquoteQuote(v);
  }

  lemma QuoteSlices(input: string, pos: nat, v: string)
    requires pos + |Quote(v)| <= |input| && input[pos..pos + |Quote(v)|] == Quote(v)
    ensures var n := |Doubled(v)|;
            && |Quote(v)| == n + 2 && pos + 1 + n < |input| && input[pos] == '"' && input[pos + 1 + n] == '"'
            && input[pos + 1..pos + 1 + n] == Doubled(v)
  {
    hide Doubled;
    var rest := Doubled(v) + "\"";
    assert Quote(v) == "\"" + rest;
    SliceParts(input, pos, "\"", rest);
    SliceParts(input, pos + 1, Doubled(v), "\"");
    var end := pos + 1 + |Doubled(v)|;
    assert input[end] == input[end..end + 1][0];
  }

  lemma QuotedCharIsToken(g: Grammar<Rule, Built>)
    ensures WellFormedExpr(g, QuotedChar()) && !MayBeEmpty(g, QuotedChar()) && WellFormedExpr(g, String())
  {
    hide Token, Fine, WellFormedExpr, MayBeEmpty, String;
    SmallTokens(g);
    Leaves(g);
    Token2(g, Lit("\"\""), NoneOf("\""));
    TokenParts(g, QuotedChar());
    TokenParts(g, String());
  }

  lemma TokenParts(g: Grammar<Rule, Built>, e: KqlExpr)
    requires Token(g, e)
    ensures WellFormedExpr(g, e) && !MayBeEmpty(g, e)
  {
  }

  lemma Bracketed(input: string, pos: nat, end: nat)
    requires pos < end < |input|
    ensures input[pos..end + 1] == [input[pos]] + input[pos + 1..end] + [input[end]]
  {}

  /** Conversely, whatever the String rule matches is the quoted form of the value it yields, and
      is not followed by another quote. */
  lemma StringBackward(c: Conversions, input: string, rule: Rule, pos: nat, env: Env<Built>, errs: seq<Error<Rule>>)
    requires WellFormed(Kql(c)) && WellFormedExpr(Kql(c), String()) && pos <= |input|
    ensures var o := Eval(Kql(c), input, rule, String(), pos, env, errs);
            o.Success? ==>
              && o.val.Text? && input[pos..o.pos] == Quote(o.val.text) && EndsAt(input, o.pos)
              && o.env == env && o.errs == errs
  {
    QuotedCharIsToken(Kql(c));
    hide WellFormed, WellFormedExpr, MayBeEmpty, Eval, EvalLoop, QuotedChar, String, Kql, Unquote;
    StringSteps(c, input, rule, pos, env, errs);
    if pos < |input| && input[pos] == '"' {
      var w := LoopBackward(Kql(c), input, rule, pos + 1, env, errs, []);
      var end := EvalLoop(Kql(c), input, rule, QuotedChar(), pos + 1, env, errs, []).pos;
      if end < |input| && input[end] == '"' {
        Bracketed(input, pos, end);
        UnquoteQuote(w);
      }
    }
  }
}
