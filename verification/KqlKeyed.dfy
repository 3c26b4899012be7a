/** Restrictions: a key, an operator and a value. Each of the six alternatives of the grammar fails,
    without any error, where another operator stands or its value does not match, and else takes
    them whole. */
module KqlKeyed {
  import opened Ast
  import opened Peg
  import opened PegLaws
  import opened KqlGrammar
  import opened KqlClean
  import opened KqlSyntax
  import opened KqlRestrictions
  import opened KqlQuery
  import opened KqlAccepted
  import opened KqlMatch
  import opened KqlValues
  import KqlStrings

  // ----- the parts of a restriction -----

  /** A key and an operator that no longer one extends. */
  ghost predicate HeadAt(q: string, pos: nat, key: string, op: string) {
    && IsKey(key) && PlainOp(op) && Reads(q, pos, key + op)
    && (op == "<" || op == ">" ==> At(q, pos + |key| + |op|) != Some('='))
  }

  function OpsBehind(k: nat): seq<string>
    requires k < 6
  {
    [[":", "="], COMPARISONS_AND_EQUALS, ["=", ":"], COMPARISONS, ["="], [":"]][k]
  }

  function TextValue(): KqlExpr {
    Choice([String(), OneOrMore(NoneOf(" ()\""))])
  }

  function OpExpr(k: nat): KqlExpr
    requires k < 6
  {
    if k == 0 then ColonOrEqual()
    else if k == 1 then Labeled("o", Choice(OpsOf(COMPARISONS_AND_EQUALS)))
    else if k == 2 then EqualOrColon()
    else if k == 3 then Labeled("o", Choice(OpsOf(COMPARISONS)))
    else if k == 4 then Op("=")
    else Op(":")
  }

  function ValueExpr(k: nat): KqlExpr
    requires k < 6
  {
    if k == 0 then TruthExpr()
    else if k == 1 then WholeValue(AnyDateTime())
    else if k == 2 then WholeValue(NaturalLanguage())
    else if k == 3 then WholeValue(Number())
    else TextValue()
  }

  function RestOf(k: nat): seq<KqlExpr> {
    if k == 0 then [ValueEnd()] else []
  }

  function RunBehind(k: nat): nat
    requires k < 6
  {
    if k == 0 then BUILD_BOOLEAN else if k == 1 then BUILD_DATE_TIME else if k == 2 then BUILD_NATURAL_DATE_TIME
    else if k == 3 then BUILD_NUMBER else if k == 4 then BUILD_EXACT_STRING else BUILD_STRING
  }

  function Exprs(k: nat): seq<KqlExpr>
    requires k < 6
  {
    [Labeled("k", Key())] + ([OpExpr(k)] + ([Labeled("v", ValueExpr(k))] + RestOf(k)))
  }

  lemma RestrictionIs(k: nat)
    requires k < 6
    ensures |NodeChoices()| == 11 && NodeChoices()[k] == Action(Seq(Exprs(k)), RunBehind(k))
  {
    FirstChoices();
    OpsAre();
    hide Key, OpExpr, Op, OpsOf, WholeValue, AnyDateTime, NaturalLanguage, Number, ValueEnd, String, NoneOf, ColonOrEqual, EqualOrColon, NodeChoices;
    OpExprs();
    assert YesNo().expr.exprs == Exprs(0);
    assert DateTimeRestriction().expr.exprs == Exprs(1);
    assert NaturalRestriction().expr.exprs == Exprs(2);
    assert NumberRestriction().expr.exprs == Exprs(3);
    assert TextRestriction("=", BUILD_EXACT_STRING).expr.exprs == Exprs(4);
    assert TextRestriction(":", BUILD_STRING).expr.exprs == Exprs(5);
  }

  lemma OpExprs()
    ensures OpExpr(0) == ColonOrEqual() && OpExpr(2) == EqualOrColon() && OpExpr(4) == Op("=") && OpExpr(5) == Op(":")
    ensures OpExpr(1) == Labeled("o", Choice(OpsOf(COMPARISONS_AND_EQUALS))) && OpExpr(3) == Labeled("o", Choice(OpsOf(COMPARISONS)))
  {}

  lemma FirstChoices()
    ensures var es := NodeChoices();
      && |es| == 11 && es[0] == YesNo() && es[1] == DateTimeRestriction() && es[2] == NaturalRestriction() && es[3] == NumberRestriction()
      && es[4] == TextRestriction("=", BUILD_EXACT_STRING) && es[5] == TextRestriction(":", BUILD_STRING)
  {
    hide YesNo, DateTimeRestriction, NaturalRestriction, NumberRestriction, TextRestriction, AndOperator, NotOperator, Op, Phrase, Word;
  }

  lemma RestrictionParts(c: Conversions, k: nat)
    requires k < 6
    ensures var es := Exprs(k);
      && |es| == (if k == 0 then 4 else 3) && es[0] == Labeled("k", Key()) && es[1] == OpExpr(k) && es[2] == Labeled("v", ValueExpr(k))
      && es == [Labeled("k", Key())] + ([OpExpr(k)] + ([Labeled("v", ValueExpr(k))] + RestOf(k)))
      && WellFormedExpr(Kql(c), Seq(es)) && WellFormedExpr(Kql(c), Action(Seq(es), RunBehind(k)))
      && forall j :: 0 <= j < |es| ==> WellFormedExpr(Kql(c), es[j])
    ensures WellFormedExpr(Kql(c), Labeled("k", Key())) && WellFormedExpr(Kql(c), OpExpr(k)) && WellFormedExpr(Kql(c), ValueExpr(k))
    ensures WellFormedExpr(Kql(c), Labeled("v", ValueExpr(k))) && forall j :: 0 <= j < |RestOf(k)| ==> WellFormedExpr(Kql(c), RestOf(k)[j])
    ensures forall j :: 0 <= j < |Exprs(k)[1..]| ==> WellFormedExpr(Kql(c), Exprs(k)[1..][j])
  {
    hide WellFormedExpr, Kql, Key, OpExpr, ValueExpr, RunBehind, NodeChoices, ValueEnd;
    RestrictionIs(k);
    ChoicesAreWellFormed(c);
    var es := Exprs(k);
    ActionMembers(Kql(c), es, RunBehind(k));
    assert es[0] == Labeled("k", Key()) && es[1] == OpExpr(k) && es[2] == Labeled("v", ValueExpr(k));
    LabeledMember(Kql(c), "v", ValueExpr(k));
    assert forall j :: 0 <= j < |RestOf(k)| ==> RestOf(k)[j] == es[j + 3];
    assert forall j :: 0 <= j < |es[1..]| ==> es[1..][j] == es[j + 1];
  }

  // ----- the key and the operator -----

  lemma OpStarts(op: string)
    requires PlainOp(op)
    ensures op != "" && KeyEnd(Some(op[0]))
    ensures op[0] == '<' || op[0] == '>' || op[0] == '=' || op[0] == ':'
  {}

  lemma HeadReads(q: string, pos: nat, key: string, op: string)
    requires HeadAt(q, pos, key, op)
    ensures Reads(q, pos, key) && Reads(q, pos + |key|, op) && op != "" && At(q, pos + |key|) == Some(op[0])
    ensures KeyEnd(At(q, pos + |key|)) && pos + |key| + |op| <= |q| && IsKey(key) && PlainOp(op)
    ensures op[0] == '<' || op[0] == '>' || op[0] == '=' || op[0] == ':'
  {
    hide IsKey, PlainOp, Reads, KeyEnd;
    OpStarts(op);
    ReadsParts(q, pos, key, op);
    ReadsAt(q, pos + |key|, op);
    ReadsThere(q, pos + |key|, op);
  }

  lemma KeyHere(c: Conversions, q: string, pos: nat, key: string, op: string)
    requires WellFormed(Kql(c)) && HeadAt(q, pos, key, op)
    ensures WellFormedExpr(Kql(c), Labeled("k", Key())) && pos + |key| + |op| <= |q|
    ensures Eval(Kql(c), q, NodeRule, Labeled("k", Key()), pos, map[], []) == Success(Text(key), pos + |key|, KeyEnv(key), [])
  {
    hide *;
    HeadReads(q, pos, key, op);
    KeyMatches(c, q, NodeRule, pos, key);
    LabeledMatches(Kql(c), q, NodeRule, "k", Key(), pos, map[]);
    OnlyLabel("k", Text(key));
    KeyEnvIs(key);
  }

  lemma KeyEnvIs(key: string)
    ensures KeyEnv(key) == map["k" := Text(key)]
  {}

  /** What is bound behind the operator. */
  function OpEnv(k: nat, key: string, op: string): Env<Built> {
    if k == 1 || k == 3 then KeyEnv(key)["o" := Built(One(SignNode(op)))] else KeyEnv(key)
  }

  /** The place of an operator in a list, behind others that do not stand there. */
  lemma OpIndex(q: string, pos: nat, key: string, op: string, ts: seq<string>) returns (n: nat)
    requires HeadAt(q, pos, key, op) && op in ts
    requires ts == [":", "="] || ts == ["=", ":"] || ts == COMPARISONS || ts == COMPARISONS_AND_EQUALS
    ensures n < |ts| && ts[n] == op && forall j :: 0 <= j < n ==> !Reads(q, pos + |key|, ts[j])
  {
    HeadReads(q, pos, key, op);
    n :| 0 <= n < |ts| && ts[n] == op;
    var p := pos + |key|;
    forall j | 0 <= j < n ensures !Reads(q, p, ts[j]) {
      NotAnother(q, p, op, ts[j]);
    }
  }

  lemma NotAnother(q: string, p: nat, op: string, other: string)
    requires PlainOp(op) && PlainOp(other) && op != other && Reads(q, p, op)
    requires op == "<" || op == ">" ==> At(q, p + |op|) != Some('=')
    requires op == ">=" || op == "<=" ==> other[0] != op[0]
    ensures !Reads(q, p, other)
  {
    ReadsAt(q, p, op);
    if Reads(q, p, other) {
      ReadsAt(q, p, other);
    }
  }

  // ----- where another operator stands -----

  lemma OpCannotStart(t: string, ch: Option<char>)
    requires t != "" && ch != Some(t[0])
    ensures CannotStart(Op(t), ch)
  {}

  lemma OpsCannotStart(ts: seq<string>, ch: Option<char>)
    requires forall j :: 0 <= j < |ts| ==> ts[j] != "" && ch != Some(ts[j][0])
    ensures CannotStart(Choice(OpsOf(ts)), ch) && CannotStart(Labeled("o", Choice(OpsOf(ts))), ch)
  {
    var es := OpsOf(ts);
    forall j | 0 <= j < |es| ensures CannotStart(es[j], ch) {
      OpCannotStart(ts[j], ch);
    }
    hide Op, CannotStart;
    ChoiceStops("o", es, ch);
  }

  /** The operators that a restriction does not have, start with other runes than those it has. */
  lemma OtherOperator(k: nat, op: string)
    requires k < 6 && PlainOp(op) && op !in OpsBehind(k)
    ensures forall j :: 0 <= j < |OpsBehind(k)| ==> OpsBehind(k)[j] != "" && op != "" && OpsBehind(k)[j][0] != op[0]
  {}

  lemma OtherCannotStart(k: nat, ch: Option<char>)
    requires k < 6 && forall j :: 0 <= j < |OpsBehind(k)| ==> OpsBehind(k)[j] != "" && ch != Some(OpsBehind(k)[j][0])
    ensures CannotStart(OpExpr(k), ch)
  {
    SepsAre();
    hide Op, CannotStart, ColonOrEqual, EqualOrColon, OpsOf;
    if k < 4 {
      OpsCannotStart(OpsBehind(k), ch);
    } else {
      OpCannotStart(OpsBehind(k)[0], ch);
    }
  }

  lemma StopsFirst(e: KqlExpr, rest: seq<KqlExpr>, ch: Option<char>)
    requires CannotStart(e, ch)
    ensures SeqCannotStart([e] + rest, ch)
  {
    hide CannotStart;
  }

  lemma OtherOperatorFails(c: Conversions, q: string, k: nat, pos: nat, key: string, op: string)
    requires WellFormed(Kql(c)) && k < 6 && HeadAt(q, pos, key, op) && op !in OpsBehind(k)
    ensures |NodeChoices()| == 11 && WellFormedExpr(Kql(c), NodeChoices()[k]) && pos <= |q|
    ensures Eval(Kql(c), q, NodeRule, NodeChoices()[k], pos, map[], []) == Failure([])
  {
    hide *;
    HeadReads(q, pos, key, op);
    OtherOperator(k, op);
    OtherCannotStart(k, At(q, pos + |key|));
    RestrictionIs(k);
    RestrictionParts(c, k);
    KeyHere(c, q, pos, key, op);
    var rest := [Labeled("v", ValueExpr(k))] + RestOf(k);
    StopsFirst(OpExpr(k), rest, At(q, pos + |key|));
    assert Exprs(k)[1..] == [OpExpr(k)] + rest;
    SeqFailsBehind(c, q, NodeRule, Labeled("k", Key()), [OpExpr(k)] + rest, RunBehind(k), pos);
  }

  // ----- where it stands -----

  lemma OpShape(k: nat, op: string)
    requires k < 6 && op in OpsBehind(k)
    ensures var ts := OpsBehind(k);
      if k >= 4 then OpExpr(k) == Op(op)
      else && OpExpr(k) == (if k == 1 || k == 3 then Labeled("o", Choice(OpsOf(ts))) else Choice(OpsOf(ts)))
           && (ts == [":", "="] || ts == ["=", ":"] || ts == COMPARISONS || ts == COMPARISONS_AND_EQUALS)
  {
    SepsAre();
    hide OpsOf, Op, ColonOrEqual, EqualOrColon;
  }

  lemma OpHere(c: Conversions, q: string, k: nat, pos: nat, key: string, op: string)
    requires WellFormed(Kql(c)) && k < 6 && HeadAt(q, pos, key, op) && op in OpsBehind(k) && WellFormedExpr(Kql(c), OpExpr(k))
    ensures pos + |key| + |op| <= |q|
    ensures Eval(Kql(c), q, NodeRule, OpExpr(k), pos + |key|, KeyEnv(key), [])
         == Success(Built(One(SignNode(op))), pos + |key| + |op|, OpEnv(k, key, op), [])
  {
    hide WellFormed, WellFormedExpr, Kql, Eval, OpExpr, OpsBehind, OpsOf, Op, Reads, HeadAt, KeyEnv, SignNode, KeyEnd, PlainOp, IsKey;
    HeadReads(q, pos, key, op);
    OpShape(k, op);
    var p := pos + |key|;
    if k >= 4 {
      OpMatches(c, q, NodeRule, op, p, KeyEnv(key));
    } else {
      var ts := OpsBehind(k);
      var n := OpIndex(q, pos, key, op, ts);
      if k == 1 || k == 3 {
        LabeledMember(Kql(c), "o", Choice(OpsOf(ts)));
        OneOfMatches(c, q, NodeRule, ts, n, p, map[]);
        LabeledMatches(Kql(c), q, NodeRule, "o", Choice(OpsOf(ts)), p, KeyEnv(key));
      } else {
        OneOfMatches(c, q, NodeRule, ts, n, p, KeyEnv(key));
      }
    }
  }

  /** The value does not match. */
  lemma ValueFailsAt(c: Conversions, q: string, k: nat, pos: nat, key: string, op: string)
    requires WellFormed(Kql(c)) && k < 6 && HeadAt(q, pos, key, op) && op in OpsBehind(k) && WellFormedExpr(Kql(c), ValueExpr(k))
    requires pos + |key| + |op| <= |q| && Eval(Kql(c), q, NodeRule, ValueExpr(k), pos + |key| + |op|, map[], []) == Failure([])
    ensures |NodeChoices()| == 11 && WellFormedExpr(Kql(c), NodeChoices()[k])
    ensures Eval(Kql(c), q, NodeRule, NodeChoices()[k], pos, map[], []) == Failure([])
  {
    hide *;
    RestrictionIs(k);
    RestrictionParts(c, k);
    KeyHere(c, q, pos, key, op);
    OpHere(c, q, k, pos, key, op);
    LabeledFails(Kql(c), q, NodeRule, "v", ValueExpr(k), pos + |key| + |op|, OpEnv(k, key, op));
    ThirdFails(c, q, NodeRule, Labeled("k", Key()), OpExpr(k), Labeled("v", ValueExpr(k)), RestOf(k), RunBehind(k), pos);
  }

  /** The value matches up to `end`, where it may end. */
  lemma ValueMatchesAt(c: Conversions, q: string, k: nat, pos: nat, key: string, op: string, end: nat, v: KqlValue, b: KqlValue)
    requires WellFormed(Kql(c)) && k < 6 && HeadAt(q, pos, key, op) && op in OpsBehind(k) && WellFormedExpr(Kql(c), ValueExpr(k))
    requires pos + |key| + |op| <= end <= |q| && (k == 0 ==> ValueStop(At(q, end)))
    requires var o := Eval(Kql(c), q, NodeRule, ValueExpr(k), pos + |key| + |op|, map[], []);
      o.Success? && o.val == v && o.pos == end && o.errs == []
    requires Run(c, RunBehind(k), OpEnv(k, key, op)["v" := v], q[pos..end]) == Returned(b, None)
    ensures |NodeChoices()| == 11 && WellFormedExpr(Kql(c), NodeChoices()[k])
    ensures var o := Eval(Kql(c), q, NodeRule, NodeChoices()[k], pos, map[], []); o.Success? && o.val == b && o.pos == end && o.errs == []
  {
    hide *;
    RestrictionIs(k);
    RestrictionParts(c, k);
    KeyHere(c, q, pos, key, op);
    OpHere(c, q, k, pos, key, op);
    LabeledMatches(Kql(c), q, NodeRule, "v", ValueExpr(k), pos + |key| + |op|, OpEnv(k, key, op));
    if k == 0 {
      RestIs();
      EndMatches(c, q, end, OpEnv(k, key, op)["v" := v]);
      FourMatch(c, q, Exprs(k), pos);
    } else {
      ThreeMatch(c, q, Exprs(k), pos);
    }
    ActionRuns(c, q, NodeRule, Seq(Exprs(k)), RunBehind(k), pos, map[], b);
  }

  lemma RestIs()
    ensures RestOf(0) == [ValueEnd()] && RestOf(0)[0] == ValueEnd() && Exprs(0)[3] == ValueEnd()
  {
    hide ValueEnd, Key, OpExpr, ValueExpr;
  }

  // ----- no group has such a head -----

  lemma GroupExprsAre(c: Conversions)
    ensures var a, b, d, rest := Labeled("k", ZeroOrOne(Key())), ZeroOrOne(ColonOrEqual()), Lit("("), GroupExprs()[3..];
      && |GroupExprs()| == 5 && Body(GroupNodeRule) == Action(Seq([a] + ([b] + ([d] + rest))), BUILD_GROUP)
      && WellFormedExpr(Kql(c), Body(GroupNodeRule)) && WellFormedExpr(Kql(c), a) && WellFormedExpr(Kql(c), b)
      && WellFormedExpr(Kql(c), d) && WellFormedExpr(Kql(c), Key()) && WellFormedExpr(Kql(c), ColonOrEqual())
      && forall k :: 0 <= k < |rest| ==> WellFormedExpr(Kql(c), rest[k])
  {
    hide WellFormedExpr, Kql, Key, ColonOrEqual, Body;
    GroupBody(c);
    var es, rest := GroupExprs(), GroupExprs()[3..];
    assert es == [es[0]] + ([es[1]] + ([es[2]] + rest));
    assert es[0] == Labeled("k", ZeroOrOne(Key())) && es[1] == ZeroOrOne(ColonOrEqual()) && es[2] == Lit("(");
    assert forall k :: 0 <= k < |rest| ==> rest[k] == es[k + 3];
    OptionMember(Kql(c), Key());
    OptionMember(Kql(c), ColonOrEqual());
  }

  lemma OptionSkips(c: Conversions, q: string, e: KqlExpr, pos: nat, env: Env<Built>)
    requires WellFormed(Kql(c)) && pos <= |q| && WellFormedExpr(Kql(c), ZeroOrOne(e))
    ensures WellFormedExpr(Kql(c), e)
    ensures var o, inner := Eval(Kql(c), q, GroupNodeRule, ZeroOrOne(e), pos, env, []), Eval(Kql(c), q, GroupNodeRule, e, pos, map[], []);
      o == if inner.Success? then Success(inner.val, inner.pos, env, inner.errs) else Success(Nil, pos, env, inner.errs)
  {
    hide WellFormed;
  }

  /** The separator of a group, if there is one. */
  lemma OptionalSepRead(c: Conversions, q: string, pos: nat, sep: string, env: Env<Built>)
    requires WellFormed(Kql(c)) && WellFormedExpr(Kql(c), ZeroOrOne(ColonOrEqual())) && Reads(q, pos, sep)
    requires if sep == "" then At(q, pos) != Some(':') && At(q, pos) != Some('=') else Sep(sep)
    ensures pos + |sep| <= |q|
    ensures var o := Eval(Kql(c), q, GroupNodeRule, ZeroOrOne(ColonOrEqual()), pos, env, []);
      o.Success? && o.pos == pos + |sep| && o.env == env && o.errs == []
  {
    hide WellFormed, WellFormedExpr, Kql, Eval, ColonOrEqual, CannotStart, OpsOf, Reads;
    ReadsThere(q, pos, sep);
    OptionSkips(c, q, ColonOrEqual(), pos, env);
    SepsAre();
    if sep == "" {
      OpsCannotStart([":", "="], At(q, pos));
      CannotStartFails(c, q, GroupNodeRule, ColonOrEqual(), pos, map[], []);
    } else if sep == ":" {
      OneOfMatches(c, q, GroupNodeRule, [":", "="], 0, pos, map[]);
    } else {
      NotColon(q, pos);
      OneOfMatches(c, q, GroupNodeRule, [":", "="], 1, pos, map[]);
    }
  }

  lemma NotColon(q: string, pos: nat)
    requires Reads(q, pos, "=")
    ensures !Reads(q, pos, ":")
  {
    ReadsAt(q, pos, "=");
    if Reads(q, pos, ":") {
      ReadsAt(q, pos, ":");
    }
  }

  lemma NoParen(c: Conversions, q: string, pos: nat, env: Env<Built>)
    requires WellFormed(Kql(c)) && pos <= |q| && At(q, pos) != Some('(')
    ensures WellFormedExpr(Kql(c), Lit("(")) && Eval(Kql(c), q, GroupNodeRule, Lit("("), pos, env, []) == Failure([])
  {
    var e: KqlExpr := Lit("(");
    assert CannotStart(e, At(q, pos));
    hide WellFormed, Kql;
    CannotStartFails(c, q, GroupNodeRule, e, pos, env, []);
  }

  lemma KeyOfGroup(c: Conversions, q: string, pos: nat, key: string)
    requires WellFormed(Kql(c)) && WellFormedExpr(Kql(c), Labeled("k", ZeroOrOne(Key()))) && WellFormedExpr(Kql(c), Key())
    requires Reads(q, pos, key) && IsKey(key) && KeyEnd(At(q, pos + |key|))
    ensures pos + |key| <= |q|
    ensures Eval(Kql(c), q, GroupNodeRule, Labeled("k", ZeroOrOne(Key())), pos, map[], []) == Success(Text(key), pos + |key|, KeyEnv(key), [])
  {
    hide *;
    ReadsThere(q, pos, key);
    KeyMatches(c, q, GroupNodeRule, pos, key);
    OptionMatches(Kql(c), q, GroupNodeRule, Key(), pos);
    LabeledMatches(Kql(c), q, GroupNodeRule, "k", ZeroOrOne(Key()), pos, map[]);
    OnlyLabel("k", Text(key));
    KeyEnvIs(key);
  }

  lemma GroupFailsAt(c: Conversions, q: string, pos: nat, key: string, op: string)
    requires WellFormed(Kql(c)) && HeadAt(q, pos, key, op) && At(q, pos + |key| + |op|) != Some('(')
    ensures pos <= |q| && WellFormedExpr(Kql(c), Body(GroupNodeRule))
    ensures Eval(Kql(c), q, GroupNodeRule, Body(GroupNodeRule), pos, map[], []) == Failure([])
  {
    hide *;
    HeadReads(q, pos, key, op);
    GroupExprsAre(c);
    KeyOfGroup(c, q, pos, key);
    var sep := SepPart(q, pos + |key|, op);
    OptionalSepRead(c, q, pos + |key|, sep, KeyEnv(key));
    NoParen(c, q, pos + |key| + |sep|, KeyEnv(key));
    ThirdFails(c, q, GroupNodeRule, Labeled("k", ZeroOrOne(Key())), ZeroOrOne(ColonOrEqual()), Lit("("), GroupExprs()[3..], BUILD_GROUP, pos);
  }

  /** As much of the operator as a group could have. */
  lemma SepPart(q: string, p: nat, op: string) returns (sep: string)
    requires PlainOp(op) && Reads(q, p, op) && op != "" && At(q, p) == Some(op[0]) && At(q, p + |op|) != Some('(')
    ensures Reads(q, p, sep) && At(q, p + |sep|) != Some('(')
    ensures if sep == "" then At(q, p) != Some(':') && At(q, p) != Some('=') else Sep(sep)
  {
    sep := if op == ":" || op == "=" then op else "";
  }

  // ----- the first alternative that matches -----

  lemma RestrictionPicks(c: Conversions, q: string, k: nat, pos: nat, key: string, op: string, end: nat, b: KqlValue)
    requires WellFormed(Kql(c)) && k < 6 && HeadAt(q, pos, key, op) && At(q, pos + |key| + |op|) != Some('(') && pos <= |q|
    requires |NodeChoices()| == 11 && forall j :: 0 <= j <= k ==> WellFormedExpr(Kql(c), NodeChoices()[j])
    requires forall j :: 0 <= j < k ==> Eval(Kql(c), q, NodeRule, NodeChoices()[j], pos, map[], []) == Failure([])
    requires var o := Eval(Kql(c), q, NodeRule, NodeChoices()[k], pos, map[], []); o.Success? && o.val == b && o.pos == end && o.errs == []
    ensures WellFormedExpr(Kql(c), RuleRef(NodeRule))
    ensures Eval(Kql(c), q, NodesRule, RuleRef(NodeRule), pos, map[], []) == Success(b, end, map[], [])
  {
    hide *;
    ChoicesAreWellFormed(c);
    GroupFailsAt(c, q, pos, key, op);
    NodePicks(c, q, k, pos);
  }
}
