/** The KQL grammar with its actions (pkg/kql/dictionary.peg, pkg/kql/dictionary_gen.go,
    pkg/kql/factory.go, pkg/kql/cast.go). The generator has inlined every rule but four. */
module KqlGrammar {
  import opened Ast
  import Connect
  import Validate
  import opened Peg

  datatype Rule = ASTRule | NodesRule | NodeRule | GroupNodeRule

  /** What actions build: one node, several nodes, or the finished query. */
  datatype Built = One(node: Node) | Many(nodes: seq<Node>) | Query(nodes: seq<Node>)

  type KqlExpr = Expr<Rule>
  type KqlValue = Value<Built>

  /** Parsing of times and numbers belongs to libraries outside this model. */
  datatype Conversions = Conversions(
    toTime: string -> Option<string>,
    toTimeRange: string -> Option<(string, string)>,
    toFloat: string -> Option<string>)

  // ----- actions (cast.go, factory.go) -----

  const RETURN_TEXT: nat := 0
  const RETURN_NIL: nat := 1
  const RETURN_V: nat := 2
  const UNQUOTE: nat := 3
  const BUILD_AST: nat := 4
  const BUILD_GROUP: nat := 5
  const BUILD_BOOLEAN: nat := 6
  const BUILD_DATE_TIME: nat := 7
  const BUILD_NATURAL_DATE_TIME: nat := 8
  const BUILD_NUMBER: nat := 9
  const BUILD_EXACT_STRING: nat := 10
  const BUILD_STRING: nat := 11
  const BUILD_FREE_STRING: nat := 12
  const BUILD_OPERATOR: nat := 13

  function Stack(env: Env<Built>, name: string): KqlValue {
    if name in env then env[name] else Nil
  }

  /** Every `""` becomes `"`, from left to right. */
  function ReplaceDoubled(s: string): string {
    if |s| >= 2 && s[0] == '"' && s[1] == '"' then "\"" + ReplaceDoubled(s[2..])
    else if s == "" then ""
    else [s[0]] + ReplaceDoubled(s[1..])
  }

  function Unquote(text: string): string
    requires |text| >= 2
  {
    ReplaceDoubled(text[1..|text| - 1])
  }

  function ToString(v: KqlValue): Option<string>
    decreases v, 0
  {
    match v
    case Text(s) => Some(s)
    case List(vs) => Joined(vs)
    case _ => None
  }

  function Joined(vs: seq<KqlValue>): Option<string>
    decreases vs, 0
  {
    if vs == [] then Some("")
    else
      var first, rest := ToString(vs[0]), Joined(vs[1..]);
      if first.Some? && rest.Some? then Some(first.value + rest.value) else None
  }

  /** Flattens what the parser nested; text where a node belongs is an error. */
  function ToNodes(v: KqlValue): Option<seq<Node>>
    decreases v, 0
  {
    match v
    case Built(One(n)) => Some([n])
    case Built(Many(ns)) => Some(ns)
    case Built(Query(_)) => None
    case List(vs) => AllToNodes(vs)
    case Nil => Some([])
    case Text(_) => None
  }

  function AllToNodes(vs: seq<KqlValue>): Option<seq<Node>>
    decreases vs, 0
  {
    if vs == [] then Some([])
    else
      var first, rest := ToNodes(vs[0]), AllToNodes(vs[1..]);
      if first.Some? && rest.Some? then Some(first.value + rest.value) else None
  }

  function Ok(b: Built): Returned<Built> {
    Returned(Built(b), None)
  }

  function Fail(msg: string): Returned<Built> {
    Returned(Nil, Some(msg))
  }

  function BuildAST(n: KqlValue): Returned<Built> {
    match ToNodes(n)
    case None => Fail("conversion")
    case Some(nodes) =>
      var connected := Connect.Connected(OR, nodes);
      if Validate.ValidateOperators(connected).Some? then Fail("validation") else Ok(Query(connected))
  }

  function BuildGroupNode(k: KqlValue, n: KqlValue): Returned<Built> {
    var key := match ToString(k) case Some(s) => s case None => "";
    match ToNodes(n)
    case None => Fail("conversion")
    case Some(nodes) =>
      var connected := Connect.Connected(OR, nodes);
      if Validate.ValidateGroup(key, connected).Some? then Fail("validation") else Ok(One(GroupNode(key, connected)))
  }

  function BuildStringNode(k: KqlValue, v: KqlValue, exact: bool): Returned<Built> {
    match (ToString(k), ToString(v))
    case (Some(key), Some(value)) => Ok(One(StringNode(key, value, exact)))
    case _ => Fail("conversion")
  }

  function BuildBooleanNode(k: KqlValue, v: KqlValue): Returned<Built> {
    match (ToString(k), ToString(v))
    case (Some(key), Some(value)) => Ok(One(BooleanNode(key, ToLower(value) == "true")))
    case _ => Fail("conversion")
  }

  function OperatorOf(v: KqlValue): Option<string> {
    match v
    case Built(One(OperatorNode(op, _))) => Some(op)
    case _ => None
  }

  function BuildDateTimeNode(c: Conversions, k: KqlValue, o: KqlValue, v: KqlValue): Returned<Built> {
    match (OperatorOf(o), ToString(k), ToString(v))
    case (Some(op), Some(key), Some(value)) =>
      (match c.toTime(value) case Some(time) => Ok(One(DateTimeNode(key, op, time))) case None => Fail("time"))
    case _ => Fail("conversion")
  }

  function BuildNumberNode(c: Conversions, k: KqlValue, o: KqlValue, v: KqlValue): Returned<Built> {
    match (OperatorOf(o), ToString(k), ToString(v))
    case (Some(op), Some(key), Some(value)) =>
      (match c.toFloat(value) case Some(number) => Ok(One(NumberNode(key, op, number))) case None => Fail("number"))
    case _ => Fail("conversion")
  }

  function BuildNaturalDateTime(c: Conversions, k: KqlValue, v: KqlValue): Returned<Built> {
    match (ToString(k), ToString(v))
    case (Some(key), Some(value)) =>
      (match c.toTimeRange(value)
       case Some((from, to)) =>
         Ok(Many([DateTimeNode(key, ">=", from), OperatorNode(AND, false), DateTimeNode(key, "<=", to)]))
       case None => Fail("time range"))
    case _ => Fail("conversion")
  }

  function BuildOperatorNode(text: string): Returned<Built> {
    Ok(One(OperatorNode(if text == "+" then AND else if text == "-" then NOT else text, false)))
  }

  function Run(c: Conversions, run: nat, env: Env<Built>, text: string): Returned<Built> {
    if run == RETURN_TEXT then Returned(Text(text), None)
    else if run == RETURN_NIL then Returned(Nil, None)
    else if run == RETURN_V then Returned(Stack(env, "v"), None)
    else if run == UNQUOTE then Returned(Text(if |text| >= 2 then Unquote(text) else text), None)
    else if run == BUILD_AST then BuildAST(Stack(env, "n"))
    else if run == BUILD_GROUP then BuildGroupNode(Stack(env, "k"), Stack(env, "v"))
    else if run == BUILD_BOOLEAN then BuildBooleanNode(Stack(env, "k"), Stack(env, "v"))
    else if run == BUILD_DATE_TIME then BuildDateTimeNode(c, Stack(env, "k"), Stack(env, "o"), Stack(env, "v"))
    else if run == BUILD_NATURAL_DATE_TIME then BuildNaturalDateTime(c, Stack(env, "k"), Stack(env, "v"))
    else if run == BUILD_NUMBER then BuildNumberNode(c, Stack(env, "k"), Stack(env, "o"), Stack(env, "v"))
    else if run == BUILD_EXACT_STRING then BuildStringNode(Stack(env, "k"), Stack(env, "v"), true)
    else if run == BUILD_STRING then BuildStringNode(Stack(env, "k"), Stack(env, "v"), false)
    else if run == BUILD_FREE_STRING then BuildStringNode(Text(""), Stack(env, "v"), false)
    else BuildOperatorNode(text)
  }

  // ----- expressions (dictionary.peg) -----

  function OneOf(chars: string): KqlExpr { CharClass(chars, [], false) }
  function NoneOf(chars: string): KqlExpr { CharClass(chars, [], true) }
  function Digit(): KqlExpr { Action(CharClass([], [('0', '9')], false), RETURN_TEXT) }
  function Char(): KqlExpr { Action(CharClass([], [('A', 'Z'), ('a', 'z')], false), RETURN_TEXT) }
  function Blank(): KqlExpr { Action(ZeroOrMore(OneOf(" \t")), RETURN_NIL) }
  function AtEOF(): KqlExpr { Not(Any) }
  function ValueEnd(): KqlExpr { Choice([And(OneOf(" \t()\"")), AtEOF()]) }
  function Op(text: string): KqlExpr { Action(Lit(text), BUILD_OPERATOR) }
  function ColonOrEqual(): KqlExpr { Choice([Op(":"), Op("=")]) }
  function EqualOrColon(): KqlExpr { Choice([Op("="), Op(":")]) }

  function Key(): KqlExpr {
    Action(Seq([OneOrMore(Char()), ZeroOrMore(Seq([Lit("."), OneOrMore(Char())]))]), RETURN_TEXT)
  }

  function QuotedChar(): KqlExpr { Choice([Lit("\"\""), NoneOf("\"")]) }

  function String(): KqlExpr {
    Action(Seq([Lit("\""), ZeroOrMore(QuotedChar()), Lit("\"")]), UNQUOTE)
  }

  function Digits2(): KqlExpr { Action(Seq([Digit(), Digit()]), RETURN_TEXT) }
  function TimeYear(): KqlExpr { Action(Seq([Digit(), Digit(), Digit(), Digit()]), RETURN_TEXT) }
  function FullDate(): KqlExpr { Action(Seq([TimeYear(), Lit("-"), Digits2(), Lit("-"), Digits2()]), RETURN_TEXT) }

  function FullTime(): KqlExpr {
    Action(Seq([Digits2(), Lit(":"), Digits2(), Lit(":"), Digits2(),
                ZeroOrOne(Seq([Lit("."), OneOrMore(Digit())])),
                Choice([Lit("Z"), Seq([Choice([Lit("+"), Lit("-")]), Digits2(), Lit(":"), Digits2()])])]), RETURN_TEXT)
  }

  function DateTime(): KqlExpr { Action(Seq([FullDate(), Lit("T"), FullTime()]), RETURN_TEXT) }
  function AnyDateTime(): KqlExpr { Choice([DateTime(), FullDate(), FullTime()]) }

  function NaturalLanguage(): KqlExpr {
    Choice([Lit("today"), Lit("yesterday"), Lit("this week"), Lit("last week"), Lit("last 7 days"), Lit("this month"),
            Lit("last month"), Lit("last 30 days"), Lit("this year"), Action(Lit("last year"), RETURN_TEXT)])
  }

  function Number(): KqlExpr {
    Action(Seq([OneOrMore(CharClass([], [('0', '9')], false)),
                ZeroOrOne(Seq([Lit("."), OneOrMore(CharClass([], [('0', '9')], false))]))]), RETURN_TEXT)
  }

  /** The whole value, quoted or not. */
  function WholeValue(e: KqlExpr): KqlExpr {
    Choice([
      Action(Seq([Lit("\""), Labeled("v", e), Lit("\""), Not(Lit("\""))]), RETURN_V),
      Action(Seq([Labeled("v", e), ValueEnd()]), RETURN_V)])
  }

  function YesNo(): KqlExpr {
    Action(Seq([Labeled("k", Key()), ColonOrEqual(), Labeled("v", Choice([Lit("true"), Lit("false")])), ValueEnd()]),
           BUILD_BOOLEAN)
  }

  function DateTimeRestriction(): KqlExpr {
    Action(Seq([Labeled("k", Key()), Labeled("o", Choice([Op(">="), Op("<="), Op(">"), Op("<"), Op("="), Op(":")])),
                Labeled("v", WholeValue(AnyDateTime()))]), BUILD_DATE_TIME)
  }

  function NaturalRestriction(): KqlExpr {
    Action(Seq([Labeled("k", Key()), EqualOrColon(), Labeled("v", WholeValue(NaturalLanguage()))]), BUILD_NATURAL_DATE_TIME)
  }

  function NumberRestriction(): KqlExpr {
    Action(Seq([Labeled("k", Key()), Labeled("o", Choice([Op(">="), Op("<="), Op(">"), Op("<")])),
                Labeled("v", WholeValue(Number()))]), BUILD_NUMBER)
  }

  function TextRestriction(op: string, run: nat): KqlExpr {
    Action(Seq([Labeled("k", Key()), Op(op), Labeled("v", Choice([String(), OneOrMore(NoneOf(" ()\""))]))]), run)
  }

  function FreeText(v: KqlExpr): KqlExpr {
    Action(Seq([ZeroOrOne(Op(":")), Blank(), Labeled("v", v), Blank(), ZeroOrOne(Op(":"))]), BUILD_FREE_STRING)
  }

  function Phrase(): KqlExpr { FreeText(String()) }
  function Word(): KqlExpr { FreeText(OneOrMore(NoneOf(" :()\""))) }
  function AndOperator(): KqlExpr { Action(Choice([Lit("AND"), Lit("+")]), BUILD_OPERATOR) }
  function NotOperator(): KqlExpr { Action(Choice([Lit("NOT"), Lit("-")]), BUILD_OPERATOR) }

  function NodeChoices(): seq<KqlExpr> {
    [YesNo(), DateTimeRestriction(), NaturalRestriction(), NumberRestriction(),
     TextRestriction("=", BUILD_EXACT_STRING), TextRestriction(":", BUILD_STRING),
     AndOperator(), NotOperator(), Op("OR"), Phrase(), Word()]
  }

  function Body(r: Rule): KqlExpr {
    match r
    case ASTRule => Action(Seq([Labeled("n", RuleRef(NodesRule)), Blank(), AtEOF()]), BUILD_AST)
    case NodesRule => OneOrMore(Seq([Blank(), RuleRef(NodeRule)]))
    case NodeRule =>
      Choice([RuleRef(GroupNodeRule)] + NodeChoices())
    case GroupNodeRule =>
      Action(Seq([Labeled("k", ZeroOrOne(Key())), ZeroOrOne(ColonOrEqual()), Lit("("),
                  Labeled("v", RuleRef(NodesRule)), Lit(")")]), BUILD_GROUP)
  }

  function Kql(c: Conversions): Grammar<Rule, Built> {
    Grammar(Body,
            (run, env, text, pt) => Run(c, run, env, text),
            (r: Rule) => false,
            RuleRank)
  }

  function RuleRank(r: Rule): nat {
    match r case ASTRule => 3 case NodesRule => 2 case NodeRule => 1 case GroupNodeRule => 0
  }

  // ----- the grammar is well formed -----

  /** Enters no rule before it has consumed something. */
  predicate Fine(g: Grammar<Rule, Built>, e: KqlExpr) {
    WellFormedExpr(g, e) && LeftRank(g, e) == 0
  }

  /** Moreover, consumes something whenever it matches. */
  predicate Token(g: Grammar<Rule, Built>, e: KqlExpr) {
    Fine(g, e) && !MayBeEmpty(g, e)
  }

  lemma Leaves(g: Grammar<Rule, Built>)
    ensures forall val :: val != "" && EOF_RUNE !in val ==> Token(g, Lit(val))
    ensures forall chars, ranges, inverted :: Token(g, CharClass(chars, ranges, inverted))
    ensures Fine(g, Any)
  {}

  lemma Wrappers(g: Grammar<Rule, Built>)
    ensures forall e :: Token(g, e) ==> Fine(g, e)
    ensures forall e, run :: Token(g, e) ==> Token(g, Action(e, run))
    ensures forall e, name :: Token(g, e) ==> Token(g, Labeled(name, e))
    ensures forall e :: Token(g, e) ==> Token(g, OneOrMore(e))
    ensures forall e :: Token(g, e) ==> Fine(g, ZeroOrMore(e))
    ensures forall e :: Fine(g, e) ==> Fine(g, ZeroOrOne(e)) && Fine(g, And(e)) && Fine(g, Not(e))
    ensures forall e, run :: Fine(g, e) ==> Fine(g, Action(e, run))
    ensures forall e, name :: Fine(g, e) ==> Fine(g, Labeled(name, e))
  {}

  lemma {:induction false} SeqIsFine(g: Grammar<Rule, Built>, es: seq<KqlExpr>)
    requires forall k :: 0 <= k < |es| ==> Fine(g, es[k])
    ensures Fine(g, Seq(es)) && SeqRank(g, es) == 0
    ensures (exists k :: 0 <= k < |es| && Token(g, es[k])) ==> Token(g, Seq(es))
  {
    if es != [] {
      SeqIsFine(g, es[1..]);
    }
  }

  lemma {:induction false} ChoiceIsFine(g: Grammar<Rule, Built>, es: seq<KqlExpr>)
    requires forall k :: 0 <= k < |es| ==> Fine(g, es[k])
    ensures Fine(g, Choice(es)) && ChoiceRank(g, es) == 0
    ensures (forall k :: 0 <= k < |es| ==> Token(g, es[k])) ==> Token(g, Choice(es))
  {
    if es != [] {
      ChoiceIsFine(g, es[1..]);
    }
  }

  lemma Token2(g: Grammar<Rule, Built>, a: KqlExpr, b: KqlExpr)
    ensures Token(g, a) && Fine(g, b) ==> Token(g, Seq([a, b]))
    ensures Token(g, a) && Token(g, b) ==> Token(g, Choice([a, b]))
    ensures Fine(g, a) && Fine(g, b) ==> Fine(g, Choice([a, b]))
  {
    if Fine(g, a) && Fine(g, b) {
      hide WellFormedExpr, MayBeEmpty, LeftRank;
      assert Token(g, a) ==> Token(g, [a, b][0]);
      SeqIsFine(g, [a, b]);
      ChoiceIsFine(g, [a, b]);
    }
  }

  lemma SeqToken(g: Grammar<Rule, Built>, es: seq<KqlExpr>, k: nat)
    requires forall j :: 0 <= j < |es| ==> Fine(g, es[j])
    requires k < |es| && Token(g, es[k])
    ensures Token(g, Seq(es))
  {
    hide WellFormedExpr, MayBeEmpty, LeftRank;
    SeqIsFine(g, es);
  }

  lemma ChoiceToken(g: Grammar<Rule, Built>, es: seq<KqlExpr>)
    requires forall j :: 0 <= j < |es| ==> Token(g, es[j])
    ensures Token(g, Choice(es))
  {
    hide WellFormedExpr, MayBeEmpty, LeftRank;
    ChoiceIsFine(g, es);
  }

  lemma SmallTokens(g: Grammar<Rule, Built>)
    ensures Token(g, Digit()) && Token(g, Char()) && Token(g, Digits2()) && Token(g, Key()) && Token(g, String())
    ensures Token(g, ColonOrEqual()) && Token(g, EqualOrColon())
    ensures Fine(g, Blank()) && Fine(g, ValueEnd()) && Fine(g, AtEOF())
  {
    hide Token, Fine;
    Leaves(g);
    Wrappers(g);
    Token2(g, Digit(), Digit());
    Token2(g, Lit("."), OneOrMore(Char()));
    Token2(g, OneOrMore(Char()), ZeroOrMore(Seq([Lit("."), OneOrMore(Char())])));
    Token2(g, Lit("\"\""), NoneOf("\""));
    SeqToken(g, [Lit("\""), ZeroOrMore(QuotedChar()), Lit("\"")], 0);
    Token2(g, Op(":"), Op("="));
    Token2(g, Op("="), Op(":"));
    Token2(g, And(OneOf(" \t()\"")), AtEOF());
  }

  lemma DateTokens(g: Grammar<Rule, Built>)
    ensures Token(g, AnyDateTime())
  {
    hide Token, Fine;
    Leaves(g);
    Wrappers(g);
    SmallTokens(g);
    SeqToken(g, [Digit(), Digit(), Digit(), Digit()], 0);
    SeqToken(g, [TimeYear(), Lit("-"), Digits2(), Lit("-"), Digits2()], 0);
    Token2(g, Lit("."), OneOrMore(Digit()));
    Token2(g, Lit("+"), Lit("-"));
    var offset := Seq([Choice([Lit("+"), Lit("-")]), Digits2(), Lit(":"), Digits2()]);
    SeqToken(g, offset.exprs, 0);
    Token2(g, Lit("Z"), offset);
    var fraction := ZeroOrOne(Seq([Lit("."), OneOrMore(Digit())]));
    SeqToken(g, [Digits2(), Lit(":"), Digits2(), Lit(":"), Digits2(), fraction, Choice([Lit("Z"), offset])], 0);
    SeqToken(g, [FullDate(), Lit("T"), FullTime()], 0);
    ChoiceToken(g, [DateTime(), FullDate(), FullTime()]);
  }

  lemma WholeValueToken(g: Grammar<Rule, Built>, e: KqlExpr)
    requires Token(g, e)
    ensures Token(g, WholeValue(e))
  {
    hide Token, Fine;
    Leaves(g);
    Wrappers(g);
    SmallTokens(g);
    var quoted := Seq([Lit("\""), Labeled("v", e), Lit("\""), Not(Lit("\""))]);
    SeqToken(g, quoted.exprs, 0);
    Token2(g, Labeled("v", e), ValueEnd());
    Token2(g, Action(quoted, RETURN_V), Action(Seq([Labeled("v", e), ValueEnd()]), RETURN_V));
  }

  lemma DayWords(g: Grammar<Rule, Built>)
    ensures Token(g, Lit("today")) && Token(g, Lit("yesterday")) && Token(g, Lit("this week")) && Token(g, Lit("last week"))
  {}

  lemma MonthWords(g: Grammar<Rule, Built>)
    ensures Token(g, Lit("last 7 days")) && Token(g, Lit("this month")) && Token(g, Lit("last month"))
  {}

  lemma YearWords(g: Grammar<Rule, Built>)
    ensures Token(g, Lit("last 30 days")) && Token(g, Lit("this year")) && Token(g, Action(Lit("last year"), RETURN_TEXT))
  {}

  lemma NaturalLanguageToken(g: Grammar<Rule, Built>)
    ensures Token(g, NaturalLanguage())
  {
    hide Token, Fine;
    DayWords(g);
    MonthWords(g);
    YearWords(g);
    ChoiceToken(g, NaturalLanguage().alternatives);
  }

  lemma ValueTokens(g: Grammar<Rule, Built>)
    ensures Token(g, WholeValue(AnyDateTime())) && Token(g, WholeValue(NaturalLanguage())) && Token(g, WholeValue(Number()))
  {
    hide Token, Fine, AnyDateTime, NaturalLanguage, WholeValue;
    Leaves(g);
    Wrappers(g);
    DateTokens(g);
    WholeValueToken(g, AnyDateTime());
    NaturalLanguageToken(g);
    WholeValueToken(g, NaturalLanguage());
    var digits := OneOrMore(CharClass([], [('0', '9')], false));
    Token2(g, Lit("."), digits);
    Token2(g, digits, ZeroOrOne(Seq([Lit("."), digits])));
    WholeValueToken(g, Number());
  }

  lemma YesNoToken(g: Grammar<Rule, Built>)
    ensures Token(g, YesNo())
  {
    hide Token, Fine, Key, ValueEnd, ColonOrEqual;
    Leaves(g);
    Wrappers(g);
    SmallTokens(g);
    Token2(g, Lit("true"), Lit("false"));
    SeqToken(g, YesNo().expr.exprs, 0);
  }

  lemma ComparisonTokens(g: Grammar<Rule, Built>)
    ensures Token(g, DateTimeRestriction()) && Token(g, NumberRestriction())
  {
    hide Token, Fine, AnyDateTime, NaturalLanguage, Number, WholeValue, Key;
    ValueTokens(g);
    Leaves(g);
    Wrappers(g);
    SmallTokens(g);
    ChoiceToken(g, [Op(">="), Op("<="), Op(">"), Op("<"), Op("="), Op(":")]);
    ChoiceToken(g, [Op(">="), Op("<="), Op(">"), Op("<")]);
    SeqToken(g, DateTimeRestriction().expr.exprs, 0);
    SeqToken(g, NumberRestriction().expr.exprs, 0);
  }

  lemma NaturalToken(g: Grammar<Rule, Built>)
    ensures Token(g, NaturalRestriction())
  {
    hide Token, Fine, AnyDateTime, NaturalLanguage, Number, WholeValue, Key, EqualOrColon;
    ValueTokens(g);
    Leaves(g);
    Wrappers(g);
    SmallTokens(g);
    SeqToken(g, NaturalRestriction().expr.exprs, 0);
  }

  lemma RestrictionTokens(g: Grammar<Rule, Built>)
    ensures Token(g, YesNo()) && Token(g, DateTimeRestriction()) && Token(g, NaturalRestriction()) && Token(g, NumberRestriction())
  {
    hide *;
    YesNoToken(g);
    ComparisonTokens(g);
    NaturalToken(g);
  }

  lemma TextTokens(g: Grammar<Rule, Built>, op: string, run: nat)
    requires op == "=" || op == ":"
    ensures Token(g, TextRestriction(op, run))
  {
    hide Token, Fine, Key, String;
    Leaves(g);
    Wrappers(g);
    SmallTokens(g);
    Token2(g, String(), OneOrMore(NoneOf(" ()\"")));
    SeqToken(g, TextRestriction(op, run).expr.exprs, 0);
  }

  /** Free text may start with optional parts, but its value is not optional. */
  lemma FreeTextToken(g: Grammar<Rule, Built>, v: KqlExpr)
    requires Token(g, v)
    ensures Token(g, FreeText(v))
  {
    hide Token, Fine, Blank;
    Leaves(g);
    Wrappers(g);
    SmallTokens(g);
    SeqToken(g, FreeText(v).expr.exprs, 2);
  }

  lemma NodeChoicesAreTokens(g: Grammar<Rule, Built>)
    ensures forall k :: 0 <= k < |NodeChoices()| ==> Token(g, NodeChoices()[k])
  {
    hide Token, Fine, YesNo, DateTimeRestriction, NaturalRestriction, NumberRestriction, TextRestriction, String, FreeText;
    Leaves(g);
    Wrappers(g);
    SmallTokens(g);
    RestrictionTokens(g);
    TextTokens(g, "=", BUILD_EXACT_STRING);
    TextTokens(g, ":", BUILD_STRING);
    Token2(g, Lit("AND"), Lit("+"));
    Token2(g, Lit("NOT"), Lit("-"));
    FreeTextToken(g, String());
    FreeTextToken(g, OneOrMore(NoneOf(" :()\"")));
  }

  /** What the four rules must satisfy for the ranks to justify termination. */
  predicate RuleOk(g: Grammar<Rule, Built>, r: Rule) {
    WellFormedExpr(g, Body(r)) && !MayBeEmpty(g, Body(r)) && LeftRank(g, Body(r)) <= RuleRank(r)
  }

  /** The first element that always consumes bounds what a sequence enters from the left. */
  lemma {:induction false} SeqBound(g: Grammar<Rule, Built>, es: seq<KqlExpr>, k: nat, n: nat)
    requires k < |es| && !MayBeEmpty(g, es[k])
    requires forall j :: 0 <= j < |es| ==> WellFormedExpr(g, es[j])
    requires forall j :: 0 <= j <= k ==> LeftRank(g, es[j]) <= n
    ensures WellFormedExpr(g, Seq(es)) && !MayBeEmpty(g, Seq(es)) && SeqRank(g, es) <= n
  {
    if k > 0 {
      SeqBound(g, es[1..], k - 1, n);
    }
  }

  lemma ActionParts(g: Grammar<Rule, Built>, e: KqlExpr, run: nat)
    ensures WellFormedExpr(g, Action(e, run)) == WellFormedExpr(g, e)
    ensures MayBeEmpty(g, Action(e, run)) == MayBeEmpty(g, e) && LeftRank(g, Action(e, run)) == LeftRank(g, e)
  {}

  lemma OneOrMoreParts(g: Grammar<Rule, Built>, e: KqlExpr)
    ensures WellFormedExpr(g, OneOrMore(e)) == (WellFormedExpr(g, e) && !MayBeEmpty(g, e))
    ensures MayBeEmpty(g, OneOrMore(e)) == MayBeEmpty(g, e) && LeftRank(g, OneOrMore(e)) == LeftRank(g, e)
  {}

  lemma RefParts(g: Grammar<Rule, Built>, r: Rule, name: string)
    ensures WellFormedExpr(g, RuleRef(r)) && WellFormedExpr(g, Labeled(name, RuleRef(r)))
    ensures MayBeEmpty(g, RuleRef(r)) == MayBeEmpty(g, Labeled(name, RuleRef(r))) == g.nullable(r)
    ensures LeftRank(g, RuleRef(r)) == LeftRank(g, Labeled(name, RuleRef(r))) == g.rank(r) + 1
  {}

  lemma SeqParts(g: Grammar<Rule, Built>, es: seq<KqlExpr>)
    ensures LeftRank(g, Seq(es)) == SeqRank(g, es)
  {}

  lemma FineParts(g: Grammar<Rule, Built>, e: KqlExpr)
    requires Fine(g, e)
    ensures WellFormedExpr(g, e) && LeftRank(g, e) == 0
  {}

  function ASTExprs(): seq<KqlExpr> {
    [Labeled("n", RuleRef(NodesRule)), Blank(), AtEOF()]
  }

  function NodesExprs(): seq<KqlExpr> {
    [Blank(), RuleRef(NodeRule)]
  }

  lemma ASTShape(g: Grammar<Rule, Built>)
    requires !g.nullable(NodesRule) && g.rank(NodesRule) == 2
    ensures (forall k :: 0 <= k < |ASTExprs()| ==> WellFormedExpr(g, ASTExprs()[k])) && WellFormedExpr(g, Seq(ASTExprs()))
    ensures !MayBeEmpty(g, Seq(ASTExprs())) && LeftRank(g, Seq(ASTExprs())) <= 3
    ensures Body(ASTRule) == Action(Seq(ASTExprs()), BUILD_AST)
  {
    SmallTokens(g);
    hide Fine, Token, WellFormedExpr, MayBeEmpty, LeftRank, SeqRank, Blank, AtEOF;
    FineParts(g, Blank());
    FineParts(g, AtEOF());
    RefParts(g, NodesRule, "n");
    SeqBound(g, ASTExprs(), 0, 3);
    SeqParts(g, ASTExprs());
  }

  lemma ASTIsOk(g: Grammar<Rule, Built>)
    requires !g.nullable(NodesRule) && g.rank(NodesRule) == 2
    ensures RuleOk(g, ASTRule)
  {
    hide WellFormedExpr, MayBeEmpty, LeftRank, ASTExprs, Body;
    ASTShape(g);
    ActionParts(g, Seq(ASTExprs()), BUILD_AST);
  }

  lemma NodesShape(g: Grammar<Rule, Built>)
    requires !g.nullable(NodeRule) && g.rank(NodeRule) == 1
    ensures (forall k :: 0 <= k < |NodesExprs()| ==> WellFormedExpr(g, NodesExprs()[k])) && WellFormedExpr(g, Seq(NodesExprs()))
    ensures !MayBeEmpty(g, Seq(NodesExprs())) && LeftRank(g, Seq(NodesExprs())) <= 2
    ensures Body(NodesRule) == OneOrMore(Seq(NodesExprs()))
  {
    SmallTokens(g);
    hide Fine, Token, WellFormedExpr, MayBeEmpty, LeftRank, SeqRank, Blank;
    FineParts(g, Blank());
    RefParts(g, NodeRule, "n");
    SeqBound(g, NodesExprs(), 1, 2);
    SeqParts(g, NodesExprs());
  }

  lemma NodesIsOk(g: Grammar<Rule, Built>)
    requires !g.nullable(NodeRule) && g.rank(NodeRule) == 1
    ensures RuleOk(g, NodesRule)
  {
    hide WellFormedExpr, MayBeEmpty, LeftRank, NodesExprs, Body;
    NodesShape(g);
    OneOrMoreParts(g, Seq(NodesExprs()));
  }

  lemma NodeIsOk(g: Grammar<Rule, Built>)
    requires !g.nullable(GroupNodeRule) && g.rank(GroupNodeRule) == 0
    ensures RuleOk(g, NodeRule)
  {
    NodeChoicesAreTokens(g);
    hide NodeChoices;
    ChoiceIsFine(g, NodeChoices());
    var es := [RuleRef(GroupNodeRule)] + NodeChoices();
    assert es[1..] == NodeChoices();
    forall k | 0 <= k < |es| ensures WellFormedExpr(g, es[k]) && !MayBeEmpty(g, es[k]) {
      if k > 0 {
        assert es[k] == NodeChoices()[k - 1] && Token(g, NodeChoices()[k - 1]);
      }
    }
    assert Body(NodeRule) == Choice(es);
    hide Body;
  }

  lemma LabeledRefIsWellFormed(g: Grammar<Rule, Built>, name: string, r: Rule)
    ensures WellFormedExpr(g, Labeled(name, RuleRef(r)))
  {}

  lemma ThirdConsumes(g: Grammar<Rule, Built>, es: seq<KqlExpr>)
    requires |es| == 5 && Fine(g, es[0]) && Fine(g, es[1]) && Token(g, es[2])
    requires WellFormedExpr(g, es[3]) && Fine(g, es[4])
    ensures WellFormedExpr(g, Seq(es)) && !MayBeEmpty(g, Seq(es)) && SeqRank(g, es) == 0
  {
    hide WellFormedExpr, MayBeEmpty, LeftRank, SeqRank;
    SeqBound(g, es, 2, 0);
  }

  lemma GroupParts(g: Grammar<Rule, Built>, es: seq<KqlExpr>)
    requires es == [Labeled("k", ZeroOrOne(Key())), ZeroOrOne(ColonOrEqual()), Lit("("), Labeled("v", RuleRef(NodesRule)), Lit(")")]
    ensures WellFormedExpr(g, Seq(es)) && !MayBeEmpty(g, Seq(es)) && SeqRank(g, es) == 0
  {
    hide Fine, Token, WellFormedExpr, MayBeEmpty, SeqRank, Key, ColonOrEqual;
    LabeledRefIsWellFormed(g, "v", NodesRule);
    Leaves(g);
    Wrappers(g);
    SmallTokens(g);
    ThirdConsumes(g, es);
  }

  lemma GroupNodeIsOk(g: Grammar<Rule, Built>)
    ensures RuleOk(g, GroupNodeRule)
  {
    var es := Body(GroupNodeRule).expr.exprs;
    GroupParts(g, es);
    hide SeqRank, Key, ColonOrEqual;
    assert Body(GroupNodeRule) == Action(Seq(es), BUILD_GROUP);
    hide Body;
  }

  /** The grammar has no nullable loop body and no left recursion: the cycle through Nodes, Node
      and GroupNode consumes the opening parenthesis. So parsing ends for every input. */
  lemma KqlIsWellFormed(c: Conversions)
    ensures WellFormed(Kql(c))
  {
    var g := Kql(c);
    ASTIsOk(g);
    NodesIsOk(g);
    NodeIsOk(g);
    GroupNodeIsOk(g);
    hide Body, WellFormedExpr, MayBeEmpty, LeftRank;
    forall r: Rule
      ensures WellFormedExpr(g, g.body(r)) && (MayBeEmpty(g, g.body(r)) ==> g.nullable(r)) && LeftRank(g, g.body(r)) <= g.rank(r)
    {
      assert RuleOk(g, r);
    }
  }
}
