/** The concrete syntax of KQL, written down without the parser: what a query is made of, how each
    part is spelled, and which nodes it stands for (pkg/kql/dictionary.peg, pkg/kql/factory.go). */
module KqlSyntax {
  import opened Ast
  import Connect
  import Validate
  import opened Peg
  import opened PegLaws
  import opened KqlGrammar
  import KqlStrings

  // ----- spelling -----

  predicate IsDigit(ch: char) { '0' <= ch <= '9' }
  predicate IsLetter(ch: char) { 'A' <= ch <= 'Z' || 'a' <= ch <= 'z' }

  predicate Digits(t: string) {
    t != "" && forall k :: 0 <= k < |t| ==> IsDigit(t[k])
  }

  predicate Letters(t: string) {
    t != "" && forall k :: 0 <= k < |t| ==> IsLetter(t[k])
  }

  predicate Blanks(t: string) {
    forall k :: 0 <= k < |t| ==> t[k] == ' ' || t[k] == '\t'
  }

  /** A word in which none of these runes occurs. */
  predicate Free(t: string, of: string) {
    t != "" && forall k :: 0 <= k < |t| ==> t[k] !in of
  }

  /** Words of letters, with a dot between any two. */
  ghost predicate IsKey(t: string)
    decreases |t|
  {
    Letters(t) || exists k :: 0 < k < |t| && t[k] == '.' && Letters(t[..k]) && IsKey(t[k + 1..])
  }

  /** Spelled like the pattern, in which `0` stands for any digit. */
  predicate Shape(t: string, pattern: string) {
    |t| == |pattern| && forall k :: 0 <= k < |t| ==> if pattern[k] == '0' then IsDigit(t[k]) else t[k] == pattern[k]
  }

  predicate IsDate(t: string) {
    Shape(t, "0000-00-00")
  }

  predicate Fraction(t: string) {
    t == "" || (t[0] == '.' && Digits(t[1..]))
  }

  predicate Zone(t: string) {
    t == "Z" || Shape(t, "+00:00") || Shape(t, "-00:00")
  }

  ghost predicate IsTime(t: string) {
    exists n :: 8 <= n <= |t| && Shape(t[..8], "00:00:00") && Fraction(t[8..n]) && Zone(t[n..])
  }

  ghost predicate IsMoment(t: string) {
    IsDate(t) || IsTime(t) || (|t| > 11 && IsDate(t[..10]) && t[10] == 'T' && IsTime(t[11..]))
  }

  const PERIODS := ["today", "yesterday", "this week", "last week", "last 7 days", "this month", "last month", "last 30 days",
                    "this year", "last year"]

  predicate IsPeriod(t: string) {
    t in PERIODS
  }

  predicate IsNumber(t: string) {
    Digits(t) || exists k :: 0 < k < |t| && t[k] == '.' && Digits(t[..k]) && Digits(t[k + 1..])
  }

  // ----- what a query is made of -----

  /** A value, in quotes or bare. */
  datatype Written = InQuotes(value: string) | Bare(value: string)

  datatype Item =
    | Space(blanks: string)
    | Operator(sign: string)
    | Words(before: string, written: Written, after: string)
    | Keyed(key: string, sep: string, written: Written)
    | Truth(key: string, sep: string, truth: bool)
    | Moment(key: string, op: string, quoted: bool, text: string, time: string)
    | Period(key: string, sep: string, quoted: bool, text: string, from: string, to: string)
    | Quantity(key: string, op: string, quoted: bool, text: string, number: string)
    | Group(key: string, sep: string, items: seq<Item>)

  function Spelled(w: Written): string {
    match w
    case InQuotes(value) => KqlStrings.Quote(value)
    case Bare(value) => value
  }

  function MaybeQuoted(quoted: bool, text: string): string {
    if quoted then "\"" + text + "\"" else text
  }

  /** How an item is spelled. */
  function Source(i: Item): string
    decreases i, 0
  {
    match i
    case Space(blanks) => blanks
    case Operator(sign) => sign
    case Words(before, written, after) => before + Spelled(written) + after
    case Keyed(key, sep, written) => key + sep + Spelled(written)
    case Truth(key, sep, truth) => key + sep + if truth then "true" else "false"
    case Moment(key, op, quoted, text, _) => key + op + MaybeQuoted(quoted, text)
    case Period(key, sep, quoted, text, _, _) => key + sep + MaybeQuoted(quoted, text)
    case Quantity(key, op, quoted, text, _) => key + op + MaybeQuoted(quoted, text)
    case Group(key, sep, items) => key + sep + "(" + Sources(items) + ")"
  }

  function Sources(items: seq<Item>): string
    decreases items, 0
  {
    if items == [] then "" else Source(items[0]) + Sources(items[1..])
  }

  function OperatorNamed(sign: string): Node {
    if sign == "AND" || sign == "+" then OperatorNode(AND, false)
    else if sign == "NOT" || sign == "-" then OperatorNode(NOT, false)
    else OperatorNode(OR, false)
  }

  /** The nodes that an item stands for: a period is its two ends, and a group has the operators
      that connect its parts. */
  function NodesOf(i: Item): seq<Node>
    decreases i, 0
  {
    match i
    case Space(_) => []
    case Operator(sign) => [OperatorNamed(sign)]
    case Words(_, written, _) => [StringNode("", written.value, false)]
    case Keyed(key, sep, written) => [StringNode(key, written.value, sep == "=")]
    case Truth(key, _, truth) => [BooleanNode(key, truth)]
    case Moment(key, op, _, _, time) => [DateTimeNode(key, op, time)]
    case Period(key, _, _, _, from, to) => [DateTimeNode(key, ">=", from), OperatorNode(AND, false), DateTimeNode(key, "<=", to)]
    case Quantity(key, op, _, _, number) => [NumberNode(key, op, number)]
    case Group(key, _, items) => [GroupNode(key, Connect.Connected(OR, AllNodes(items)))]
  }

  function AllNodes(items: seq<Item>): seq<Node>
    decreases items, 0
  {
    if items == [] then [] else NodesOf(items[0]) + AllNodes(items[1..])
  }

  predicate Before(t: string) {
    Blanks(t) || (t != "" && t[0] == ':' && Blanks(t[1..]))
  }

  predicate After(t: string) {
    Blanks(t) || (t != "" && t[|t| - 1] == ':' && Blanks(t[..|t| - 1]))
  }

  predicate Sep(t: string) {
    t == ":" || t == "="
  }

  /** An item that is spelled as KQL wants it and whose times and numbers can be read. */
  ghost predicate Proper(c: Conversions, i: Item)
    decreases i, 0
  {
    match i
    case Space(blanks) => Blanks(blanks)
    case Operator(sign) => sign in ["AND", "+", "NOT", "-", "OR"]
    case Words(before, written, after) => Before(before) && After(after) && (written.Bare? ==> Free(written.value, " :()\""))
    case Keyed(key, sep, written) => IsKey(key) && Sep(sep) && (written.Bare? ==> Free(written.value, " ()\""))
    case Truth(key, sep, _) => IsKey(key) && Sep(sep)
    case Moment(key, op, _, text, time) =>
      IsKey(key) && op in [">=", "<=", ">", "<", "=", ":"] && IsMoment(text) && c.toTime(text) == Some(time)
    case Period(key, sep, _, text, from, to) =>
      IsKey(key) && Sep(sep) && IsPeriod(text) && c.toTimeRange(text) == Some((from, to))
    case Quantity(key, op, _, text, number) =>
      IsKey(key) && op in [">=", "<=", ">", "<"] && IsNumber(text) && c.toFloat(text) == Some(number)
    case Group(key, sep, items) =>
      var nodes := Connect.Connected(OR, AllNodes(items));
      && (key == "" || IsKey(key)) && (sep == "" || Sep(sep)) && AllProper(c, items) && AllNodes(items) != []
      && Validate.ConnectedQuery(nodes) && (key != "" ==> forall m <- nodes :: NodeKey(m) == "")
  }

  ghost predicate AllProper(c: Conversions, items: seq<Item>)
    decreases items, 0
  {
    items == [] || (Proper(c, items[0]) && AllProper(c, items[1..]))
  }

  // ----- lists of items -----

  lemma {:induction false} Appended(c: Conversions, a: seq<Item>, b: seq<Item>)
    requires AllProper(c, a) && AllProper(c, b)
    ensures AllProper(c, a + b) && Sources(a + b) == Sources(a) + Sources(b) && AllNodes(a + b) == AllNodes(a) + AllNodes(b)
    decreases |a|
  {
    hide Proper, Source, NodesOf;
    if a == [] {
      assert a + b == b;
    } else {
      assert (a + b)[1..] == a[1..] + b;
      Appended(c, a[1..], b);
    }
  }

  lemma Single(c: Conversions, i: Item)
    ensures AllProper(c, [i]) == Proper(c, i) && Sources([i]) == Source(i) && AllNodes([i]) == NodesOf(i)
  {
    hide Proper, Source, NodesOf;
    assert [i][1..] == [];
    assert Source(i) + "" == Source(i) && NodesOf(i) + [] == NodesOf(i);
  }

  // ----- what the expressions of the grammar cover -----

  /** A part of one rune. */
  lemma {:induction false} LoopOfRunes(e: KqlExpr, t: string, ok: char -> bool)
    requires LoopCovers(e, t) && forall s :: Covers(e, s) ==> |s| == 1 && ok(s[0])
    ensures forall k :: 0 <= k < |t| ==> ok(t[k])
    decreases |t|
  {
    hide Covers;
    if t != "" {
      var n :| 0 < n <= |t| && Covers(e, t[..n]) && LoopCovers(e, t[n..]);
      assert n == 1 && ok(t[..n][0]);
      LoopOfRunes(e, t[n..], ok);
      forall k | 0 <= k < |t| ensures ok(t[k]) {
        if k > 0 {
          assert t[k] == t[n..][k - 1];
        }
      }
    }
  }

  function DigitClass(): KqlExpr {
    CharClass([], [('0', '9')], false)
  }

  lemma DigitIs(s: string)
    ensures Covers(DigitClass(), s) <==> |s| == 1 && IsDigit(s[0])
    ensures Covers(Digit(), s) <==> |s| == 1 && IsDigit(s[0])
  {
    var ranges := [('0', '9')];
    if |s| == 1 && IsDigit(s[0]) {
      assert ranges[0].0 <= s[0] <= ranges[0].1;
    }
  }

  lemma CharIs(s: string)
    ensures Covers(Char(), s) <==> |s| == 1 && IsLetter(s[0])
  {
    var ranges := [('A', 'Z'), ('a', 'z')];
    if |s| == 1 && IsLetter(s[0]) {
      assert (ranges[0].0 <= s[0] <= ranges[0].1) || (ranges[1].0 <= s[0] <= ranges[1].1);
    }
  }

  lemma Looped(e: KqlExpr, t: string)
    ensures Covers(OneOrMore(e), t) <==> t != "" && LoopCovers(e, t)
  {}

  lemma LettersAndDigits(t: string)
    ensures Covers(OneOrMore(Digit()), t) ==> Digits(t)
    ensures Covers(OneOrMore(DigitClass()), t) ==> Digits(t)
    ensures Covers(OneOrMore(Char()), t) ==> Letters(t)
  {
    hide Char, Digit, DigitClass, Covers;
    forall s ensures Covers(Digit(), s) ==> |s| == 1 && IsDigit(s[0]) { DigitIs(s); }
    forall s ensures Covers(DigitClass(), s) ==> |s| == 1 && IsDigit(s[0]) { DigitIs(s); }
    forall s ensures Covers(Char(), s) ==> |s| == 1 && IsLetter(s[0]) { CharIs(s); }
    Looped(Digit(), t);
    Looped(DigitClass(), t);
    Looped(Char(), t);
    if Covers(OneOrMore(Digit()), t) { LoopOfRunes(Digit(), t, IsDigit); }
    if Covers(OneOrMore(DigitClass()), t) { LoopOfRunes(DigitClass(), t, IsDigit); }
    if Covers(OneOrMore(Char()), t) { LoopOfRunes(Char(), t, IsLetter); }
  }

  lemma FreeOf(of: string, t: string)
    requires Covers(OneOrMore(NoneOf(of)), t)
    ensures Free(t, of)
  {
    assert forall s :: Covers(NoneOf(of), s) ==> |s| == 1 && s[0] !in of;
    hide NoneOf;
    LoopOfRunes(NoneOf(of), t, ch => ch !in of);
  }

  lemma BlanksOf(t: string)
    requires Covers(Blank(), t)
    ensures Blanks(t)
  {
    var e := OneOf(" \t");
    assert LoopCovers(e, t);
    assert forall s :: Covers(e, s) ==> |s| == 1 && (s[0] == ' ' || s[0] == '\t');
    LoopOfRunes(e, t, ch => ch == ' ' || ch == '\t');
  }

  // ----- sequences -----

  lemma FirstPart(es: seq<KqlExpr>, t: string) returns (n: nat)
    requires es != [] && SeqCovers(es, t)
    ensures n <= |t| && Covers(es[0], t[..n]) && SeqCovers(es[1..], t[n..])
  {
    hide Covers;
    n :| 0 <= n <= |t| && Covers(es[0], t[..n]) && SeqCovers(es[1..], t[n..]);
  }

  lemma LastPart(e: KqlExpr, t: string)
    requires SeqCovers([e], t)
    ensures Covers(e, t)
  {
    hide Covers;
    var n := FirstPart([e], t);
    assert [e][1..] == [] && t[n..] == "";
    assert t[..n] == t;
  }

  lemma TwoParts(a: KqlExpr, b: KqlExpr, t: string) returns (n: nat)
    requires SeqCovers([a, b], t)
    ensures n <= |t| && Covers(a, t[..n]) && Covers(b, t[n..])
  {
    hide Covers;
    n := FirstPart([a, b], t);
    assert [a, b][1..] == [b];
    LastPart(b, t[n..]);
  }

  // ----- keys -----

  function DottedLetters(): KqlExpr {
    Seq([Lit("."), OneOrMore(Char())])
  }

  lemma DottedIs(t: string)
    requires Covers(DottedLetters(), t)
    ensures t != "" && t[0] == '.' && Letters(t[1..])
  {
    var n := TwoParts(Lit("."), OneOrMore(Char()), t);
    LettersAndDigits(t[n..]);
    assert t[..n] == ".";
  }

  lemma {:induction false} DottedIsKey(a: string, b: string)
    requires Letters(a) && LoopCovers(DottedLetters(), b)
    ensures IsKey(a + b)
    decreases |b|
  {
    hide Covers, DottedLetters, Letters;
    if b == "" {
      assert a + b == a;
    } else {
      var n :| 0 < n <= |b| && Covers(DottedLetters(), b[..n]) && LoopCovers(DottedLetters(), b[n..]);
      DottedIs(b[..n]);
      DottedIsKey(b[..n][1..], b[n..]);
      LettersAreThere(a);
      var t, k := a + b, |a|;
      assert t[..k] == a && t[k] == b[..n][0];
      assert t[k + 1..] == b[..n][1..] + b[n..];
    }
  }

  lemma LettersAreThere(t: string)
    requires Letters(t)
    ensures t != ""
  {}

  lemma KeyOf(t: string)
    requires Covers(Key(), t)
    ensures IsKey(t)
  {
    var n := TwoParts(OneOrMore(Char()), ZeroOrMore(DottedLetters()), t);
    hide Char, DottedLetters, IsKey;
    LettersAndDigits(t[..n]);
    assert LoopCovers(DottedLetters(), t[n..]);
    DottedIsKey(t[..n], t[n..]);
    assert t[..n] + t[n..] == t;
  }

  // ----- numbers and periods -----

  lemma NumberOf(t: string)
    requires Covers(Number(), t)
    ensures IsNumber(t)
  {
    var digits, decimals := OneOrMore(DigitClass()), Seq([Lit("."), OneOrMore(DigitClass())]);
    var n := TwoParts(digits, ZeroOrOne(decimals), t);
    LettersAndDigits(t[..n]);
    if t[n..] == "" {
      assert t[..n] == t;
    } else {
      assert Covers(decimals, t[n..]);
      var m := TwoParts(Lit("."), digits, t[n..]);
      LettersAndDigits(t[n..][m..]);
      assert m == 1 && t[n..][..m][0] == t[n] && t[n..][m..] == t[n + 1..];
    }
  }

  lemma LitOf(val: string, run: nat, t: string)
    requires Covers<Rule>(Action(Lit(val), run), t)
    ensures t == val
  {
    assert Covers<Rule>(Lit(val), t);
  }

  lemma PeriodOf(t: string)
    requires Covers(NaturalLanguage(), t)
    ensures IsPeriod(t)
  {
    var es := NaturalLanguage().alternatives;
    var k :| 0 <= k < |es| && Covers(es[k], t);
    if k == 9 {
      assert es[9] == Action(Lit(PERIODS[9]), RETURN_TEXT);
      LitOf(PERIODS[9], RETURN_TEXT, t);
      assert t == PERIODS[9];
    } else {
      assert es[k] == Lit(PERIODS[k]);
      assert t == PERIODS[k];
    }
  }

  // ----- times -----

  /** The pattern that a sequence of digits and literals is spelled like. */
  function PatternOf(e: KqlExpr): Option<string>
    decreases e, 0
  {
    match e
    case Lit(val) => if '0' in val then None else Some(val)
    case CharClass(_, _, _) => if e == DigitClass() then Some("0") else None
    case Action(e1, _) => PatternOf(e1)
    case Seq(es) => PatternOfAll(es)
    case _ => None
  }

  function PatternOfAll(es: seq<KqlExpr>): Option<string>
    decreases es, 0
  {
    if es == [] then Some("")
    else
      var first, rest := PatternOf(es[0]), PatternOfAll(es[1..]);
      if first.Some? && rest.Some? then Some(first.value + rest.value) else None
  }

  lemma {:induction false} PatternHolds(e: KqlExpr, t: string)
    requires PatternOf(e).Some? && Covers(e, t)
    ensures Shape(t, PatternOf(e).value)
    decreases e, 0
  {
    match e
    case Lit(_) =>
    case CharClass(_, _, _) => DigitIs(t);
    case Action(e1, _) => PatternHolds(e1, t);
    case Seq(es) => PatternHoldsAll(es, t);
    case _ =>
  }

  lemma {:induction false} PatternHoldsAll(es: seq<KqlExpr>, t: string)
    requires PatternOfAll(es).Some? && SeqCovers(es, t)
    ensures Shape(t, PatternOfAll(es).value)
    decreases es, 0
  {
    hide Covers, PatternOf;
    if es != [] {
      var n := FirstPart(es, t);
      PatternHolds(es[0], t[..n]);
      PatternHoldsAll(es[1..], t[n..]);
      assert t == t[..n] + t[n..];
    }
  }

  lemma PatternMore(e: KqlExpr, es: seq<KqlExpr>)
    requires PatternOf(e).Some? && PatternOfAll(es).Some?
    ensures PatternOfAll([e] + es) == Some(PatternOf(e).value + PatternOfAll(es).value)
  {
    hide PatternOf;
    assert ([e] + es)[1..] == es;
  }

  lemma PatternOfTwo(a: KqlExpr, b: KqlExpr)
    requires PatternOf(a).Some? && PatternOf(b).Some?
    ensures PatternOfAll([a, b]) == Some(PatternOf(a).value + PatternOf(b).value)
  {
    hide PatternOf;
    PatternMore(b, []);
    PatternMore(a, [b]);
    assert [a, b] == [a] + ([b] + []);
    assert PatternOf(b).value + "" == PatternOf(b).value;
  }

  lemma DigitPatterns()
    ensures PatternOf(Digit()) == Some("0") && PatternOf(Digits2()) == Some("00") && PatternOf(TimeYear()) == Some("0000")
  {
    assert PatternOf(Digit()) == Some("0");
    hide Digit;
    assert "0" + "0" == "00" && "0" + "00" == "000" && "0" + "000" == "0000";
    PatternOfTwo(Digit(), Digit());
    PatternMore(Digit(), [Digit(), Digit()]);
    PatternMore(Digit(), [Digit(), Digit(), Digit()]);
    assert [Digit(), Digit(), Digit(), Digit()] == [Digit()] + ([Digit()] + [Digit(), Digit()]);
  }

  lemma DatePattern()
    ensures PatternOf(FullDate()) == Some("0000-00-00")
  {
    DigitPatterns();
    var dash: KqlExpr := Lit("-");
    assert PatternOf(dash) == Some("-");
    assert "-" + "00" == "-00" && "00" + "-00" == "00-00" && "-" + "00-00" == "-00-00" && "0000" + "-00-00" == "0000-00-00";
    hide TimeYear, Digits2;
    PatternOfTwo(dash, Digits2());
    PatternMore(Digits2(), [dash, Digits2()]);
    PatternMore(dash, [Digits2()] + [dash, Digits2()]);
    PatternMore(TimeYear(), [dash] + ([Digits2()] + [dash, Digits2()]));
    assert FullDate().expr.exprs == [TimeYear()] + ([dash] + ([Digits2()] + [dash, Digits2()]));
  }

  lemma ClockPattern()
    ensures PatternOfAll([Digits2(), Lit(":"), Digits2(), Lit(":"), Digits2()]) == Some("00:00:00")
    ensures PatternOfAll([Digits2(), Lit(":"), Digits2()]) == Some("00:00")
  {
    DigitPatterns();
    var colon: KqlExpr := Lit(":");
    assert PatternOf(colon) == Some(":");
    assert ":" + "00" == ":00" && "00" + ":00" == "00:00" && ":" + "00:00" == ":00:00" && "00" + ":00:00" == "00:00:00";
    hide Digits2;
    PatternOfTwo(colon, Digits2());
    PatternMore(Digits2(), [colon, Digits2()]);
    PatternMore(colon, [Digits2()] + [colon, Digits2()]);
    PatternMore(Digits2(), [colon] + ([Digits2()] + [colon, Digits2()]));
    assert [Digits2(), colon, Digits2()] == [Digits2()] + [colon, Digits2()];
    assert [Digits2(), colon, Digits2(), colon, Digits2()] == [Digits2()] + ([colon] + ([Digits2()] + [colon, Digits2()]));
  }

  /** Cuts a sequence in two. */
  lemma {:induction false} CutSeq(a: seq<KqlExpr>, b: seq<KqlExpr>, t: string) returns (n: nat)
    requires SeqCovers(a + b, t)
    ensures n <= |t| && SeqCovers(a, t[..n]) && SeqCovers(b, t[n..])
    decreases |a|
  {
    hide Covers;
    if a == [] {
      n := 0;
      assert a + b == b && t[0..] == t;
    } else {
      var m := FirstPart(a + b, t);
      assert (a + b)[1..] == a[1..] + b;
      var k := CutSeq(a[1..], b, t[m..]);
      n := m + k;
      assert t[..n] == t[..m] + t[m..][..k] && t[n..] == t[m..][k..];
      SeqCoversMore(a, t[..m], t[m..][..k]);
    }
  }

  lemma FractionOf(t: string)
    requires Covers(ZeroOrOne(Seq([Lit("."), OneOrMore(Digit())])), t)
    ensures Fraction(t)
  {
    if t != "" {
      var n := TwoParts(Lit("."), OneOrMore(Digit()), t);
      LettersAndDigits(t[n..]);
      assert t[..n] == ".";
    }
  }

  function PlusOrMinus(): KqlExpr {
    Choice([Lit("+"), Lit("-")])
  }

  function Offset(): KqlExpr {
    Seq([PlusOrMinus(), Digits2(), Lit(":"), Digits2()])
  }

  lemma SignOf(t: string)
    requires Covers(PlusOrMinus(), t)
    ensures t == "+" || t == "-"
  {}

  lemma OffsetParts(t: string) returns (n: nat)
    requires Covers(Offset(), t)
    ensures n <= |t| && (t[..n] == "+" || t[..n] == "-") && Shape(t[n..], "00:00")
  {
    var rest := [Digits2(), Lit(":"), Digits2()];
    assert Offset().exprs == [PlusOrMinus()] + rest;
    assert SeqCovers([PlusOrMinus()] + rest, t);
    ClockPattern();
    hide *;
    n := FirstPart([PlusOrMinus()] + rest, t);
    assert ([PlusOrMinus()] + rest)[1..] == rest;
    SignOf(t[..n]);
    PatternHoldsAll(rest, t[n..]);
  }

  lemma OffsetOf(t: string)
    requires Covers(Offset(), t)
    ensures Shape(t, "+00:00") || Shape(t, "-00:00")
  {
    hide Offset, Covers;
    var n := OffsetParts(t);
    assert t == t[..n] + t[n..];
    if t[..n] == "+" {
      assert "+" + "00:00" == "+00:00";
      ShapeMore("+", t[n..], "+", "00:00");
    } else {
      assert "-" + "00:00" == "-00:00";
      ShapeMore("-", t[n..], "-", "00:00");
    }
  }

  lemma ShapeMore(a: string, b: string, p: string, q: string)
    requires a == p && '0' !in p && Shape(b, q)
    ensures Shape(a + b, p + q)
  {}

  lemma ZoneOf(t: string)
    requires Covers(Choice([Lit("Z"), Offset()]), t)
    ensures Zone(t)
  {
    hide Offset, Shape;
    if Covers(Offset(), t) {
      OffsetOf(t);
    }
  }

  lemma TimeShape(t: string)
    requires Covers(FullTime(), t)
    ensures var clock: seq<KqlExpr> := [Digits2(), Lit(":"), Digits2(), Lit(":"), Digits2()];
      SeqCovers(clock + [ZeroOrOne(Seq([Lit("."), OneOrMore(Digit())])), Choice([Lit("Z"), Offset()])], t)
  {
    hide SeqCovers;
    var clock: seq<KqlExpr> := [Digits2(), Lit(":"), Digits2(), Lit(":"), Digits2()];
    assert FullTime().expr.exprs == clock + [ZeroOrOne(Seq([Lit("."), OneOrMore(Digit())])), Choice([Lit("Z"), Offset()])];
  }

  lemma TimeOf(t: string)
    requires Covers(FullTime(), t)
    ensures IsTime(t)
  {
    var clock := [Digits2(), Lit(":"), Digits2(), Lit(":"), Digits2()];
    var fraction, zone := ZeroOrOne(Seq([Lit("."), OneOrMore(Digit())])), Choice([Lit("Z"), Offset()]);
    hide Covers, SeqCovers, PatternOf, PatternOfAll, Digits2, Offset, Digit, FullTime;
    TimeShape(t);
    ClockPattern();
    var n := CutSeq(clock, [fraction, zone], t);
    PatternHoldsAll(clock, t[..n]);
    var m := TwoParts(fraction, zone, t[n..]);
    FractionOf(t[n..][..m]);
    ZoneOf(t[n..][m..]);
    assert n == 8 && t[n..][..m] == t[8..8 + m] && t[n..][m..] == t[8 + m..];
  }

  lemma DateOf(t: string)
    requires Covers(FullDate(), t)
    ensures IsDate(t)
  {
    DatePattern();
    hide Covers, FullDate, PatternOf;
    PatternHolds(FullDate(), t);
  }

  lemma DateTimeOf(t: string)
    requires SeqCovers([FullDate(), Lit("T"), FullTime()], t)
    ensures |t| > 11 && IsDate(t[..10]) && t[10] == 'T' && IsTime(t[11..])
  {
    hide FullDate, FullTime, IsDate, IsTime, SeqCovers;
    var n := FirstPart([FullDate(), Lit("T"), FullTime()], t);
    assert [FullDate(), Lit("T"), FullTime()][1..] == [Lit("T"), FullTime()];
    var m := TwoParts(Lit("T"), FullTime(), t[n..]);
    DateOf(t[..n]);
    TimeOf(t[n..][m..]);
    DateLength(t[..n]);
    TimeLength(t[n..][m..]);
    assert t[n..][..m] == "T";
    assert m == 1 && t[n..][..m][0] == t[10] && t[n..][m..] == t[11..];
  }

  lemma MomentOf(t: string)
    requires Covers(AnyDateTime(), t)
    ensures IsMoment(t)
  {
    hide FullDate, FullTime, IsDate, IsTime;
    if Covers(FullDate(), t) {
      DateOf(t);
    } else if Covers(FullTime(), t) {
      TimeOf(t);
    } else {
      assert Covers(DateTime(), t);
      DateTimeOf(t);
    }
  }

  lemma DateLength(t: string)
    requires IsDate(t)
    ensures |t| == 10
  {}

  lemma TimeLength(t: string)
    requires IsTime(t)
    ensures |t| >= 8
  {}
}
