/** What the grammar's Node rule makes of each kind of restriction, by its spelling alone. */
module KqlReads {
  import opened Ast
  import opened Peg
  import opened PegLaws
  import opened KqlGrammar
  import opened KqlClean
  import opened KqlSyntax
  import opened KqlRestrictions
  import opened KqlQuery
  import opened KqlAccepted
  import opened KqlMatch
  import opened KqlValues
  import opened KqlKeyed
  import KqlStrings

  // ----- values that do not match -----

  predicate NoDigit(ch: Option<char>) {
    ch.None? || !IsDigit(ch.value)
  }

  predicate NoPeriodStart(ch: Option<char>) {
    ch.None? || (ch.value != 't' && ch.value != 'y' && ch.value != 'l')
  }

  lemma FirstStops(es: seq<KqlExpr>, run: nat, ch: Option<char>)
    requires es != [] && CannotStart(es[0], ch)
    ensures CannotStart(Action(Seq(es), run), ch)
  {
    ActionCannotStart(es, run, ch);
  }

  lemma MomentCannotStart(ch: Option<char>)
    requires NoDigit(ch)
    ensures CannotStart(AnyDateTime(), ch)
  {
    DigitStops(Digit(), ch);
    hide CannotStart, Digit, DigitClass;
    FirstStops(TimeYear().expr.exprs, RETURN_TEXT, ch);
    FirstStops(Digits2().expr.exprs, RETURN_TEXT, ch);
    hide TimeYear, Digits2;
    FirstStops(FullDate().expr.exprs, RETURN_TEXT, ch);
    FirstStops(FullTime().expr.exprs, RETURN_TEXT, ch);
    hide FullDate, FullTime;
    FirstStops(DateTime().expr.exprs, RETURN_TEXT, ch);
    ChoiceStops("v", AnyDateTime().alternatives, ch);
  }

  lemma PeriodCannotStart(ch: Option<char>)
    requires NoPeriodStart(ch)
    ensures CannotStart(NaturalLanguage(), ch)
  {}

  lemma ValueExprs()
    ensures ValueExpr(0) == TruthExpr() && ValueExpr(1) == WholeValue(AnyDateTime()) && ValueExpr(2) == WholeValue(NaturalLanguage())
    ensures ValueExpr(3) == WholeValue(Number()) && ValueExpr(4) == TextValue() && ValueExpr(5) == TextValue()
  {}

  lemma WholeMember(c: Conversions, e: KqlExpr)
    requires WellFormedExpr(Kql(c), WholeValue(e))
    ensures WellFormedExpr(Kql(c), e)
  {
    WholeParts(c, e);
  }

  /** What cannot start here, nor behind a quote. */
  lemma WholeCannotStart(c: Conversions, q: string, e: KqlExpr, p: nat)
    requires WellFormed(Kql(c)) && p <= |q| && WellFormedExpr(Kql(c), WholeValue(e))
    requires CannotStart(e, At(q, p)) && (At(q, p) == Some('"') ==> CannotStart(e, At(q, p + 1)))
    ensures Eval(Kql(c), q, NodeRule, WholeValue(e), p, map[], []) == Failure([])
  {
    hide *;
    WholeMember(c, e);
    CannotStartFails(c, q, NodeRule, e, p, map[], []);
    if At(q, p) == Some('"') {
      QuoteIsThere(q, p);
      ReadsThere(q, p, "\"");
      CannotStartFails(c, q, NodeRule, e, p + 1, map[], []);
    }
    WholeFails(c, q, e, p);
  }

  lemma NoMomentAt(c: Conversions, q: string, pos: nat, key: string, op: string)
    requires WellFormed(Kql(c)) && HeadAt(q, pos, key, op)
    requires var p := pos + |key| + |op|; NoDigit(At(q, p)) && (At(q, p) == Some('"') ==> NoDigit(At(q, p + 1)))
    ensures |NodeChoices()| == 11 && WellFormedExpr(Kql(c), NodeChoices()[1]) && pos <= |q|
    ensures Eval(Kql(c), q, NodeRule, NodeChoices()[1], pos, map[], []) == Failure([])
  {
    hide *;
    HeadReads(q, pos, key, op);
    var p := pos + |key| + |op|;
    RestrictionParts(c, 1);
    ValueExprs();
    MomentCannotStart(At(q, p));
    if At(q, p) == Some('"') {
      MomentCannotStart(At(q, p + 1));
    }
    WholeCannotStart(c, q, AnyDateTime(), p);
    AllOperators(op);
    ValueFailsAt(c, q, 1, pos, key, op);
  }

  lemma AllOperators(op: string)
    requires PlainOp(op)
    ensures op in OpsBehind(1)
    ensures op == ":" || op == "=" ==> op in OpsBehind(0) && op in OpsBehind(2) && op !in OpsBehind(3)
    ensures op != ":" && op != "=" ==> op in OpsBehind(3) && op !in OpsBehind(0) && op !in OpsBehind(2)
    ensures (op == "=" ==> op in OpsBehind(4)) && (op == ":" ==> op in OpsBehind(5) && op !in OpsBehind(4))
  {}

  lemma NoPeriodAt(c: Conversions, q: string, pos: nat, key: string, op: string)
    requires WellFormed(Kql(c)) && HeadAt(q, pos, key, op) && (op == ":" || op == "=")
    requires var p := pos + |key| + |op|; NoPeriodStart(At(q, p)) && (At(q, p) == Some('"') ==> NoPeriodStart(At(q, p + 1)))
    ensures |NodeChoices()| == 11 && WellFormedExpr(Kql(c), NodeChoices()[2]) && pos <= |q|
    ensures Eval(Kql(c), q, NodeRule, NodeChoices()[2], pos, map[], []) == Failure([])
  {
    hide *;
    HeadReads(q, pos, key, op);
    var p := pos + |key| + |op|;
    RestrictionParts(c, 2);
    ValueExprs();
    PeriodCannotStart(At(q, p));
    if At(q, p) == Some('"') {
      PeriodCannotStart(At(q, p + 1));
    }
    WholeCannotStart(c, q, NaturalLanguage(), p);
    AllOperators(op);
    ValueFailsAt(c, q, 2, pos, key, op);
  }

  lemma NoTruthAt(c: Conversions, q: string, pos: nat, key: string, op: string)
    requires WellFormed(Kql(c)) && HeadAt(q, pos, key, op)
    requires op == ":" || op == "=" ==> var p := pos + |key| + |op|; !Reads(q, p, "true") && !Reads(q, p, "false")
    ensures |NodeChoices()| == 11 && WellFormedExpr(Kql(c), NodeChoices()[0]) && pos <= |q|
    ensures Eval(Kql(c), q, NodeRule, NodeChoices()[0], pos, map[], []) == Failure([])
  {
    hide *;
    HeadReads(q, pos, key, op);
    AllOperators(op);
    if op == ":" || op == "=" {
      ValueExprs();
      NoTruth(c, q, pos + |key| + |op|);
      ValueFailsAt(c, q, 0, pos, key, op);
    } else {
      OtherOperatorFails(c, q, 0, pos, key, op);
    }
  }

  // ----- whole values -----

  /** A whole value in the query, quoted or not, and what may follow it. */
  predicate WholeAt(q: string, p: nat, quoted: bool, t: string) {
    && Reads(q, p, MaybeQuoted(quoted, t)) && t != ""
    && if quoted then At(q, p + |t| + 2) != Some('"') else ValueStop(At(q, p + |t|)) && t[0] != '"'
  }

  lemma WholeReads(q: string, p: nat, quoted: bool, t: string)
    requires WholeAt(q, p, quoted, t)
    ensures var s := if quoted then p + 1 else p;
      Reads(q, s, t) && ValueStop(At(q, s + |t|)) && s <= |q| && At(q, s) == Some(t[0]) && (quoted ==> At(q, p) == Some('"'))
    ensures p + |MaybeQuoted(quoted, t)| <= |q|
  {
    hide Reads, At, ValueStop, MaybeQuoted;
    MaybeQuotedIs(quoted, t);
    if quoted {
      QuotedParts(q, p, t);
      ReadsStarts(q, p + 1, t);
      QuoteStops(At(q, p + 1 + |t|));
    } else {
      ReadsStarts(q, p, t);
      ReadsThere(q, p, t);
    }
  }

  lemma ReadsStarts(q: string, pos: nat, t: string)
    requires Reads(q, pos, t) && t != ""
    ensures At(q, pos) == Some(t[0])
  {
    ReadsAt(q, pos, t);
  }

  lemma MaybeQuotedIs(quoted: bool, t: string)
    ensures MaybeQuoted(quoted, t) == if quoted then "\"" + t + "\"" else t
    ensures |MaybeQuoted(quoted, t)| == if quoted then |t| + 2 else |t|
  {}

  lemma QuoteStops(ch: Option<char>)
    requires ch == Some('"')
    ensures ValueStop(ch)
  {}

  /** If the inner expression takes the text, the whole value is taken. */
  lemma WholeTaken(c: Conversions, q: string, e: KqlExpr, p: nat, quoted: bool, t: string)
    requires WellFormed(Kql(c)) && WellFormedExpr(Kql(c), WholeValue(e)) && WellFormedExpr(Kql(c), e) && WholeAt(q, p, quoted, t)
    requires var s := if quoted then p + 1 else p;
      s <= |q| && var o := Eval(Kql(c), q, NodeRule, e, s, map[], []); o.Success? && o.pos == s + |t| && o.errs == []
    ensures p + |MaybeQuoted(quoted, t)| <= |q|
    ensures var s := if quoted then p + 1 else p;
      Eval(Kql(c), q, NodeRule, WholeValue(e), p, map[], [])
      == Success(Eval(Kql(c), q, NodeRule, e, s, map[], []).val, p + |MaybeQuoted(quoted, t)|, map[], [])
  {
    hide WellFormed, WellFormedExpr, Kql, Eval, WholeValue, ValueStop, Reads;
    WholeReads(q, p, quoted, t);
    if quoted {
      assert p + |MaybeQuoted(quoted, t)| == p + 2 + |t|;
      QuotedTaken(c, q, e, p, t);
    } else {
      BareTaken(c, q, e, p, p + |t|);
    }
  }

  lemma NotAWord(q: string, p: nat, quoted: bool, t: string)
    requires WholeAt(q, p, quoted, t) && (IsDigit(t[0]) || quoted)
    ensures !Reads(q, p, "true") && !Reads(q, p, "false") && At(q, p) != Some('(') && At(q, p) != Some('=')
  {
    WholeReads(q, p, quoted, t);
    if Reads(q, p, "true") {
      ReadsAt(q, p, "true");
    }
    if Reads(q, p, "false") {
      ReadsAt(q, p, "false");
    }
  }

  // ----- moments -----

  lemma MomentStarts(t: string)
    requires IsMoment(t)
    ensures t != "" && IsDigit(t[0])
  {
    MomentMarks(t);
  }

  lemma MomentActs(c: Conversions, key: string, op: string, v: KqlValue, t: string, time: string, text: string)
    requires PlainOp(op) && ToString(v) == Some(t) && c.toTime(t) == Some(time)
    ensures Run(c, RunBehind(1), OpEnv(1, key, op)["v" := v], text) == Returned(Built(One(DateTimeNode(key, op, time))), None)
  {
    hide ToString;
    KeyText(key);
  }

  lemma KeyText(key: string)
    ensures ToString(Text(key)) == Some(key)
  {}

  /** `key<time`, with any of the operators. */
  lemma MomentRead(c: Conversions, q: string, pos: nat, key: string, op: string, quoted: bool, t: string, time: string)
    requires WellFormed(Kql(c)) && HeadAt(q, pos, key, op) && WholeAt(q, pos + |key| + |op|, quoted, t)
    requires IsMoment(t) && c.toTime(t) == Some(time)
    ensures WellFormedExpr(Kql(c), RuleRef(NodeRule)) && pos <= |q|
    ensures Eval(Kql(c), q, NodesRule, RuleRef(NodeRule), pos, map[], [])
         == Success(Built(One(DateTimeNode(key, op, time))), pos + |key| + |op| + |MaybeQuoted(quoted, t)|, map[], [])
  {
    hide *;
    var p := pos + |key| + |op|;
    var s := if quoted then p + 1 else p;
    HeadReads(q, pos, key, op);
    MomentStarts(t);
    NotAWord(q, p, quoted, t);
    WholeReads(q, p, quoted, t);
    NoTruthAt(c, q, pos, key, op);
    MomentTaken(c, q, s, t);
    ValueExprs();
    RestrictionParts(c, 1);
    WholeTaken(c, q, AnyDateTime(), p, quoted, t);
    var v, end := Eval(Kql(c), q, NodeRule, AnyDateTime(), s, map[], []).val, p + |MaybeQuoted(quoted, t)|;
    AllOperators(op);
    MomentActs(c, key, op, v, t, time, q[pos..end]);
    ValueMatchesAt(c, q, 1, pos, key, op, end, v, Built(One(DateTimeNode(key, op, time))));
    RestrictionPicks(c, q, 1, pos, key, op, end, Built(One(DateTimeNode(key, op, time))));
  }

  // ----- periods -----

  lemma PeriodStarts(t: string)
    requires IsPeriod(t)
    ensures t != "" && (t[0] == 't' || t[0] == 'y' || t[0] == 'l') && (t[0] == 't' ==> |t| > 1 && t[1] != 'r')
    ensures t[0] != '"' && !IsDigit(t[0])
  {
    assert PERIODS[0] == "today" && PERIODS[1] == "yesterday" && PERIODS[2] == "this week" && PERIODS[3] == "last week";
    assert PERIODS[4] == "last 7 days" && PERIODS[5] == "this month" && PERIODS[6] == "last month" && PERIODS[7] == "last 30 days";
    assert PERIODS[8] == "this year" && PERIODS[9] == "last year";
  }

  lemma NotTrue(q: string, p: nat, t: string)
    requires Reads(q, p, t) && t != "" && (t[0] == 't' ==> |t| > 1 && t[1] != 'r') && t[0] != 'f'
    ensures !Reads(q, p, "true") && !Reads(q, p, "false")
  {
    ReadsAt(q, p, t);
    if Reads(q, p, "true") {
      ReadsAt(q, p, "true");
    }
    if Reads(q, p, "false") {
      ReadsAt(q, p, "false");
    }
  }

  lemma PeriodActs(c: Conversions, key: string, op: string, t: string, from: string, to: string, text: string)
    requires c.toTimeRange(t) == Some((from, to))
    ensures Run(c, RunBehind(2), OpEnv(2, key, op)["v" := Text(t)], text) ==
      Returned(Built(Many([DateTimeNode(key, ">=", from), OperatorNode(AND, false), DateTimeNode(key, "<=", to)])), None)
  {}

  lemma PeriodHead(q: string, p: nat, quoted: bool, t: string)
    requires WholeAt(q, p, quoted, t) && IsPeriod(t)
    ensures !Reads(q, p, "true") && !Reads(q, p, "false") && At(q, p) != Some('(')
    ensures NoDigit(At(q, p)) && (At(q, p) == Some('"') ==> NoDigit(At(q, p + 1)))
  {
    hide IsPeriod, Reads, ValueStop;
    PeriodStarts(t);
    WholeReads(q, p, quoted, t);
    if quoted {
      NotAWord(q, p, quoted, t);
    } else {
      NotTrue(q, p, t);
    }
  }

  /** `key:period` stands for both ends of the period. */
  lemma PeriodRead(c: Conversions, q: string, pos: nat, key: string, op: string, quoted: bool, t: string, from: string, to: string)
    requires WellFormed(Kql(c)) && HeadAt(q, pos, key, op) && (op == ":" || op == "=") && WholeAt(q, pos + |key| + |op|, quoted, t)
    requires IsPeriod(t) && c.toTimeRange(t) == Some((from, to))
    ensures WellFormedExpr(Kql(c), RuleRef(NodeRule)) && pos <= |q|
    ensures Eval(Kql(c), q, NodesRule, RuleRef(NodeRule), pos, map[], [])
         == Success(Built(Many([DateTimeNode(key, ">=", from), OperatorNode(AND, false), DateTimeNode(key, "<=", to)])),
                    pos + |key| + |op| + |MaybeQuoted(quoted, t)|, map[], [])
  {
    hide *;
    var p := pos + |key| + |op|;
    var s := if quoted then p + 1 else p;
    HeadReads(q, pos, key, op);
    PeriodStarts(t);
    PeriodHead(q, p, quoted, t);
    WholeReads(q, p, quoted, t);
    NoTruthAt(c, q, pos, key, op);
    NoMomentAt(c, q, pos, key, op);
    PeriodTaken(c, q, s, t);
    ValueExprs();
    RestrictionParts(c, 2);
    WholeTaken(c, q, NaturalLanguage(), p, quoted, t);
    var end := p + |MaybeQuoted(quoted, t)|;
    var b: KqlValue := Built(Many([DateTimeNode(key, ">=", from), OperatorNode(AND, false), DateTimeNode(key, "<=", to)]));
    AllOperators(op);
    PeriodActs(c, key, op, t, from, to, q[pos..end]);
    ValueMatchesAt(c, q, 2, pos, key, op, end, Text(t), b);
    FirstTwo(c, q, pos);
    RestrictionPicks(c, q, 2, pos, key, op, end, b);
  }

  lemma FirstTwo(c: Conversions, q: string, pos: nat)
    requires WellFormed(Kql(c)) && pos <= |q| && |NodeChoices()| == 11
    requires WellFormedExpr(Kql(c), NodeChoices()[0]) && WellFormedExpr(Kql(c), NodeChoices()[1])
    requires Eval(Kql(c), q, NodeRule, NodeChoices()[0], pos, map[], []) == Failure([])
    requires Eval(Kql(c), q, NodeRule, NodeChoices()[1], pos, map[], []) == Failure([])
    ensures forall j :: 0 <= j < 2 ==> WellFormedExpr(Kql(c), NodeChoices()[j])
    ensures forall j :: 0 <= j < 2 ==> Eval(Kql(c), q, NodeRule, NodeChoices()[j], pos, map[], []) == Failure([])
  {
    hide *;
  }

  // ----- quantities -----

  lemma NumberStarts(t: string)
    requires IsNumber(t)
    ensures t != "" && IsDigit(t[0])
  {
    if !Digits(t) {
      var k :| 0 < k < |t| && t[k] == '.' && Digits(t[..k]) && Digits(t[k + 1..]);
      assert t[..k][0] == t[0];
    }
  }

  lemma QuantityActs(c: Conversions, key: string, op: string, v: KqlValue, t: string, number: string, text: string)
    requires PlainOp(op) && ToString(v) == Some(t) && c.toFloat(t) == Some(number)
    ensures Run(c, RunBehind(3), OpEnv(3, key, op)["v" := v], text) == Returned(Built(One(NumberNode(key, op, number))), None)
  {
    hide ToString;
    KeyText(key);
  }

  /** A number is not read as a time. */
  lemma NoMomentInNumber(c: Conversions, q: string, pos: nat, key: string, op: string, quoted: bool, t: string)
    requires WellFormed(Kql(c)) && HeadAt(q, pos, key, op) && WholeAt(q, pos + |key| + |op|, quoted, t) && IsNumber(t)
    ensures |NodeChoices()| == 11 && WellFormedExpr(Kql(c), NodeChoices()[1]) && pos <= |q|
    ensures Eval(Kql(c), q, NodeRule, NodeChoices()[1], pos, map[], []) == Failure([])
  {
    hide *;
    var p := pos + |key| + |op|;
    HeadReads(q, pos, key, op);
    NumberStarts(t);
    WholeReads(q, p, quoted, t);
    RestrictionParts(c, 1);
    ValueExprs();
    WholeMember(c, AnyDateTime());
    if quoted {
      NumberIsNoMoment(c, q, p + 1, t);
      QuoteIsNoDigit();
      MomentCannotStart(At(q, p));
      CannotStartFails(c, q, NodeRule, AnyDateTime(), p, map[], []);
    } else {
      NumberIsNoMoment(c, q, p, t);
      DigitIsNoQuote(t[0]);
    }
    WholeFails(c, q, AnyDateTime(), p);
    AllOperators(op);
    ValueFailsAt(c, q, 1, pos, key, op);
  }

  lemma QuoteIsNoDigit()
    ensures NoDigit(Some('"'))
  {}

  lemma DigitIsNoQuote(ch: char)
    requires IsDigit(ch)
    ensures ch != '"'
  {}

  lemma QuantityRead(c: Conversions, q: string, pos: nat, key: string, op: string, quoted: bool, t: string, number: string)
    requires WellFormed(Kql(c)) && HeadAt(q, pos, key, op) && op != ":" && op != "=" && WholeAt(q, pos + |key| + |op|, quoted, t)
    requires IsNumber(t) && c.toFloat(t) == Some(number)
    ensures WellFormedExpr(Kql(c), RuleRef(NodeRule)) && pos <= |q|
    ensures Eval(Kql(c), q, NodesRule, RuleRef(NodeRule), pos, map[], [])
         == Success(Built(One(NumberNode(key, op, number))), pos + |key| + |op| + |MaybeQuoted(quoted, t)|, map[], [])
  {
    hide *;
    var p := pos + |key| + |op|;
    var s := if quoted then p + 1 else p;
    HeadReads(q, pos, key, op);
    NumberStarts(t);
    NotAWord(q, p, quoted, t);
    WholeReads(q, p, quoted, t);
    AllOperators(op);
    OtherOperatorFails(c, q, 0, pos, key, op);
    NoMomentInNumber(c, q, pos, key, op, quoted, t);
    OtherOperatorFails(c, q, 2, pos, key, op);
    NumberTaken(c, q, s, t);
    ValueExprs();
    RestrictionParts(c, 3);
    WholeTaken(c, q, Number(), p, quoted, t);
    var v, end := Eval(Kql(c), q, NodeRule, Number(), s, map[], []).val, p + |MaybeQuoted(quoted, t)|;
    QuantityActs(c, key, op, v, t, number, q[pos..end]);
    ValueMatchesAt(c, q, 3, pos, key, op, end, v, Built(One(NumberNode(key, op, number))));
    FirstTwo(c, q, pos);
    FirstThree(c, q, pos);
    RestrictionPicks(c, q, 3, pos, key, op, end, Built(One(NumberNode(key, op, number))));
  }

  lemma FirstThree(c: Conversions, q: string, pos: nat)
    requires WellFormed(Kql(c)) && pos <= |q| && |NodeChoices()| == 11
    requires forall j :: 0 <= j < 2 ==> WellFormedExpr(Kql(c), NodeChoices()[j])
    requires forall j :: 0 <= j < 2 ==> Eval(Kql(c), q, NodeRule, NodeChoices()[j], pos, map[], []) == Failure([])
    requires WellFormedExpr(Kql(c), NodeChoices()[2]) && Eval(Kql(c), q, NodeRule, NodeChoices()[2], pos, map[], []) == Failure([])
    ensures forall j :: 0 <= j < 3 ==> WellFormedExpr(Kql(c), NodeChoices()[j])
    ensures forall j :: 0 <= j < 3 ==> Eval(Kql(c), q, NodeRule, NodeChoices()[j], pos, map[], []) == Failure([])
  {
    hide *;
  }

  // ----- truths -----

  lemma TruthActs(c: Conversions, key: string, op: string, truth: bool, text: string)
    ensures var t := if truth then "true" else "false";
      Run(c, RunBehind(0), OpEnv(0, key, op)["v" := Text(t)], text) == Returned(Built(One(BooleanNode(key, truth))), None)
  {
    LowerCase();
    hide ToLower;
  }

  lemma TruthRead(c: Conversions, q: string, pos: nat, key: string, op: string, truth: bool)
    requires WellFormed(Kql(c)) && HeadAt(q, pos, key, op) && (op == ":" || op == "=")
    requires var t, p := if truth then "true" else "false", pos + |key| + |op|; Reads(q, p, t) && ValueStop(At(q, p + |t|))
    ensures WellFormedExpr(Kql(c), RuleRef(NodeRule)) && pos <= |q|
    ensures Eval(Kql(c), q, NodesRule, RuleRef(NodeRule), pos, map[], [])
         == Success(Built(One(BooleanNode(key, truth))), pos + |key| + |op| + |if truth then "true" else "false"|, map[], [])
  {
    hide *;
    var p, t := pos + |key| + |op|, if truth then "true" else "false";
    HeadReads(q, pos, key, op);
    TruthTaken(c, q, p, truth);
    TruthLetter(q, p, truth);
    ReadsThere(q, p, t);
    ValueExprs();
    RestrictionParts(c, 0);
    RestrictionIs(0);
    AllOperators(op);
    TruthActs(c, key, op, truth, q[pos..p + |t|]);
    ValueMatchesAt(c, q, 0, pos, key, op, p + |t|, Text(t), Built(One(BooleanNode(key, truth))));
    RestrictionPicks(c, q, 0, pos, key, op, p + |t|, Built(One(BooleanNode(key, truth))));
  }

  lemma TruthLetter(q: string, p: nat, truth: bool)
    requires Reads(q, p, if truth then "true" else "false")
    ensures At(q, p) != Some('(')
  {
    ReadsAt(q, p, if truth then "true" else "false");
  }

  // ----- text -----

  /** So that the value is neither a time, nor a period, nor a truth. */
  predicate TextStart(v: string) {
    v == "" || (!IsDigit(v[0]) && v[0] != 't' && v[0] != 'y' && v[0] != 'l')
  }

  /** Text behind a key, quoted or a word, and what may follow it. */
  predicate TextAt(q: string, p: nat, w: Written) {
    && Reads(q, p, Spelled(w)) && TextStart(w.value)
    && if w.InQuotes? then KqlStrings.EndsAt(q, p + |Spelled(w)|)
       else Free(w.value, " ()\"") && w.value[0] != 'f' && (At(q, p + |w.value|).None? || At(q, p + |w.value|).value in " ()\"")
  }

  lemma TextHead(q: string, p: nat, w: Written)
    requires TextAt(q, p, w)
    ensures p <= |q| && !Reads(q, p, "true") && !Reads(q, p, "false") && At(q, p) != Some('(')
    ensures NoDigit(At(q, p)) && (At(q, p) == Some('"') ==> NoDigit(At(q, p + 1)))
    ensures NoPeriodStart(At(q, p)) && (At(q, p) == Some('"') ==> NoPeriodStart(At(q, p + 1)))
  {
    ReadsAt(q, p, Spelled(w));
    if w.InQuotes? {
      var rest := KqlStrings.Doubled(w.value) + "\"";
      assert KqlStrings.Quote(w.value) == "\"" + rest;
      ReadsParts(q, p, "\"", rest);
      ReadsAt(q, p + 1, rest);
      assert rest[0] == '"' || (w.value != "" && rest[0] == w.value[0]);
      NotTrue(q, p, "\"");
    } else {
      NotTrue(q, p, w.value);
    }
  }

  lemma TextValueParts(c: Conversions)
    ensures WellFormedExpr(Kql(c), String()) && WellFormedExpr(Kql(c), TextValue())
    ensures WellFormedExpr(Kql(c), NoneOf(" ()\"")) && !MayBeEmpty(Kql(c), NoneOf(" ()\"")) && WellFormedExpr(Kql(c), OneOrMore(NoneOf(" ()\"")))
  {
    var g := Kql(c);
    hide Token, Fine, String;
    SmallTokens(g);
    Leaves(g);
    Wrappers(g);
    Token2(g, String(), OneOrMore(NoneOf(" ()\"")));
    TokenIs(g, String());
    TokenIs(g, TextValue());
    TokenIs(g, NoneOf(" ()\""));
    TokenIs(g, OneOrMore(NoneOf(" ()\"")));
  }

  lemma BareRun(c: Conversions, q: string, p: nat, t: string)
    requires WellFormed(Kql(c)) && Reads(q, p, t) && Free(t, " ()\"")
    requires At(q, p + |t|).None? || At(q, p + |t|).value in " ()\""
    ensures p <= |q| && WellFormedExpr(Kql(c), OneOrMore(NoneOf(" ()\"")))
    ensures var o := Eval(Kql(c), q, NodeRule, OneOrMore(NoneOf(" ()\"")), p, map[], []);
      o.Success? && o.pos == p + |t| && ToString(o.val) == Some(t) && o.errs == []
  {
    var e := NoneOf(" ()\"");
    hide WellFormed, Kql, WellFormedExpr, MayBeEmpty, ToString;
    TextValueParts(c);
    ReadsAt(q, p, t);
    forall k | p <= k < p + |t| ensures Takes(c, q, NodeRule, e, k) {
      assert q[k] == t[k - p];
      RuneTakes(c, q, k);
    }
    CannotStartFails(c, q, NodeRule, e, p + |t|, map[], []);
    SomeOf(c, q, NodeRule, e, p, |t|, map[]);
    TextOf(c, q, NodeRule, OneOrMore(e), p, map[], []);
  }

  lemma RuneTakes(c: Conversions, q: string, pos: nat)
    requires WellFormed(Kql(c)) && WellFormedExpr(Kql(c), NoneOf(" ()\"")) && pos < |q| && q[pos] !in " ()\""
    ensures Takes(c, q, NodeRule, NoneOf(" ()\""), pos)
  {
    hide WellFormed, Kql;
  }

  lemma NoString(c: Conversions, q: string, p: nat)
    requires WellFormed(Kql(c)) && p <= |q| && At(q, p) != Some('"') && WellFormedExpr(Kql(c), String())
    ensures Eval(Kql(c), q, NodeRule, String(), p, map[], []) == Failure([])
  {
    assert CannotStart(String(), At(q, p));
    hide WellFormed, Kql, CannotStart, String, WellFormedExpr;
    CannotStartFails(c, q, NodeRule, String(), p, map[], []);
  }

  lemma TextShape()
    ensures TextValue() == Choice([String(), OneOrMore(NoneOf(" ()\""))])
  {
    hide String, NoneOf;
  }

  lemma TextTaken(c: Conversions, q: string, p: nat, w: Written)
    requires WellFormed(Kql(c)) && TextAt(q, p, w)
    ensures p + |Spelled(w)| <= |q| && WellFormedExpr(Kql(c), TextValue())
    ensures var o := Eval(Kql(c), q, NodeRule, TextValue(), p, map[], []);
      o.Success? && o.pos == p + |Spelled(w)| && ToString(o.val) == Some(w.value) && o.errs == []
  {
    hide WellFormed, WellFormedExpr, Kql, Eval, EvalChoice, String, NoneOf, TextValue, ToString, TextStart, Reads, Free, KqlStrings.Quote,
      KqlStrings.EndsAt;
    TextValueParts(c);
    TextShape();
    ReadsThere(q, p, Spelled(w));
    var es := [String(), OneOrMore(NoneOf(" ()\""))];
    EvalIsChoice(Kql(c), q, NodeRule, es, p, map[], []);
    assert es[0] == String() && es[1] == OneOrMore(NoneOf(" ()\""));
    if w.InQuotes? {
      ReadsIs(q, p, Spelled(w));
      KqlStrings.StringForward(c, q, NodeRule, p, map[], [], w.value);
      TextIsString(w.value);
      ChoicePicks(c, q, NodeRule, es, 0, p, map[]);
    } else {
      BareStart(q, p, w.value);
      NoString(c, q, p);
      BareRun(c, q, p, w.value);
      ChoicePicks(c, q, NodeRule, es, 1, p, map[]);
    }
  }

  lemma BareStart(q: string, p: nat, t: string)
    requires Reads(q, p, t) && Free(t, " ()\"")
    ensures At(q, p) != Some('"')
  {
    ReadsAt(q, p, t);
  }

  lemma TextActs(c: Conversions, k: nat, key: string, op: string, v: KqlValue, t: string, text: string)
    requires (k == 4 || k == 5) && ToString(v) == Some(t)
    ensures Run(c, RunBehind(k), OpEnv(k, key, op)["v" := v], text) == Returned(Built(One(StringNode(key, t, k == 4))), None)
  {
    hide ToString;
    KeyText(key);
  }

  /** `key=text` and `key:text`. */
  lemma TextRead(c: Conversions, q: string, pos: nat, key: string, op: string, w: Written)
    requires WellFormed(Kql(c)) && HeadAt(q, pos, key, op) && (op == ":" || op == "=") && TextAt(q, pos + |key| + |op|, w)
    ensures WellFormedExpr(Kql(c), RuleRef(NodeRule)) && pos <= |q|
    ensures Eval(Kql(c), q, NodesRule, RuleRef(NodeRule), pos, map[], [])
         == Success(Built(One(StringNode(key, w.value, op == "="))), pos + |key| + |op| + |Spelled(w)|, map[], [])
  {
    hide *;
    var p, k := pos + |key| + |op|, if op == "=" then 4 else 5;
    HeadReads(q, pos, key, op);
    TextHead(q, p, w);
    AllOperators(op);
    NoTruthAt(c, q, pos, key, op);
    NoMomentAt(c, q, pos, key, op);
    NoPeriodAt(c, q, pos, key, op);
    OtherOperatorFails(c, q, 3, pos, key, op);
    if op == ":" {
      OtherOperatorFails(c, q, 4, pos, key, op);
    }
    TextTaken(c, q, p, w);
    ValueExprs();
    var v, end := Eval(Kql(c), q, NodeRule, TextValue(), p, map[], []).val, p + |Spelled(w)|;
    var b: KqlValue := Built(One(StringNode(key, w.value, op == "=")));
    TextActs(c, k, key, op, v, w.value, q[pos..end]);
    ValueMatchesAt(c, q, k, pos, key, op, end, v, b);
    FirstTwo(c, q, pos);
    FirstThree(c, q, pos);
    RestrictionPicks(c, q, k, pos, key, op, end, b);
  }
}
