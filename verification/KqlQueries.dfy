/** Whole queries, for all values in them, as `Builder.Build` (pkg/kql/kql.go) reads them; the
    shapes are those of pkg/kql/dictionary_test.go. */
module KqlQueries {
  import opened Ast
  import Connect
  import Validate
  import opened Peg
  import opened KqlGrammar
  import opened KqlSyntax
  import opened KqlQuery
  import opened KqlAccepted
  import opened KqlMatch
  import opened KqlKeyed
  import opened KqlReads
  import opened KqlRoundTrip
  import opened KqlStrings

  function Said(v: string): Node {
    StringNode("", v, false)
  }

  // ----- writing items -----

  lemma TwoItems(a: Item, b: Item)
    ensures Sources([a, b]) == Source(a) + Source(b) && AllNodes([a, b]) == NodesOf(a) + NodesOf(b)
  {
    hide Source, NodesOf;
    assert [a, b][1..] == [b] && [b][1..] == [];
    assert Sources([b]) == Source(b) + "" == Source(b) && AllNodes([b]) == NodesOf(b) + [] == NodesOf(b);
  }

  lemma MoreItems(c: Conversions, a: Item, rest: seq<Item>)
    ensures Sources([a] + rest) == Source(a) + Sources(rest) && AllNodes([a] + rest) == NodesOf(a) + AllNodes(rest)
    ensures forall end :: Plain(c, [a] + rest, end) == (PlainItem(c, a, FirstRune(rest, end)) && Plain(c, rest, end))
  {
    hide Source, NodesOf, PlainItem, FirstRune;
    assert ([a] + rest)[0] == a && ([a] + rest)[1..] == rest;
  }

  function Phrased(v: string): Item {
    Words("", InQuotes(v), "")
  }

  lemma PhraseFacts(c: Conversions, v: string)
    ensures Source(Phrased(v)) == Quote(v) && NodesOf(Phrased(v)) == [Said(v)] && Quote(v) != "" && Quote(v)[0] == '"'
    ensures forall next :: PlainItem(c, Phrased(v), next) == (next != Some('"'))
  {
    assert "" + Quote(v) + "" == Quote(v);
  }

  lemma NoItems(c: Conversions)
    ensures Sources([]) == "" && AllNodes([]) == [] && Plain(c, [], None)
  {}

  /** What validation lets through is the query's result. */
  lemma Accepted(c: Conversions, items: seq<Item>, nodes: seq<Node>)
    requires Plain(c, items, None) && AllNodes(items) != [] && nodes == Connect.Connected(OR, AllNodes(items)) && Validate.OperatorsOk(nodes)
    ensures Build(c, Sources(items)) == Some(nodes)
  {
    hide Plain, Sources, AllNodes, Connect.Connected;
    WrittenIsRead(c, items);
  }

  // ----- phrases -----

  /** The query that is just a quoted value is one node without a key, with exactly that value. */
  lemma PhraseQuery(c: Conversions, v: string)
    ensures Build(c, Quote(v)) == Some([Said(v)])
  {
    hide PlainItem, Plain, Quote, Build, Source, NodesOf;
    NoItems(c);
    PhraseFacts(c, v);
    MoreItems(c, Phrased(v), []);
    var items := [Phrased(v)] + [];
    assert Quote(v) + "" == Quote(v);
    assert AllNodes(items) == [Said(v)];
    assert Connect.Connected(OR, [Said(v)]) == [Said(v)];
    Accepted(c, items, [Said(v)]);
  }

  /** `-"v"` and `NOT "v"` negate the phrase, with or without blanks between. */
  lemma NegatedQuery(c: Conversions, sign: string, b: string, v: string)
    requires (sign == "-" || sign == "NOT") && Blanks(b)
    ensures Build(c, sign + b + Quote(v)) == Some([OperatorNode(NOT, false), Said(v)])
  {
    var items := [Operator(sign)] + ([Space(b)] + ([Phrased(v)] + []));
    SignedItems(c, sign, b, v);
    assert sign + (b + Quote(v)) == sign + b + Quote(v);
    var nodes := [OperatorNode(NOT, false), Said(v)];
    ConnectedPair(nodes[0], Said(v));
    hide Build, Plain, Sources, AllNodes;
    Accepted(c, items, nodes);
  }

  /** An operator and a phrase. */
  lemma SignedItems(c: Conversions, sign: string, b: string, v: string)
    requires sign in ["AND", "+", "NOT", "-", "OR"] && Blanks(b)
    ensures var items := [Operator(sign)] + ([Space(b)] + ([Phrased(v)] + []));
      Plain(c, items, None) && Sources(items) == sign + (b + Quote(v)) && AllNodes(items) == [OperatorNamed(sign), Said(v)]
  {
    var last := [Phrased(v)] + [];
    var rest := [Space(b)] + last;
    NoItems(c);
    PhraseFacts(c, v);
    MoreItems(c, Phrased(v), []);
    MoreItems(c, Space(b), last);
    MoreItems(c, Operator(sign), rest);
    hide Quote;
    assert Quote(v) + "" == Quote(v);
    assert b != "" ==> (b[0] == ' ' || b[0] == '\t');
    assert KeyStop(FirstRune(rest, None));
  }

  /** Two phrases with an operator written between them. */
  lemma BinaryQuery(c: Conversions, u: string, a: string, sign: string, b: string, v: string)
    requires sign in ["AND", "+", "OR"] && Blanks(a) && Blanks(b)
    ensures Build(c, Quote(u) + a + sign + b + Quote(v)) == Some([Said(u), OperatorNamed(sign), Said(v)])
  {
    var signed := [Operator(sign)] + ([Space(b)] + ([Phrased(v)] + []));
    var items := [Phrased(u)] + ([Space(a)] + signed);
    SignedItems(c, sign, b, v);
    PhraseFacts(c, u);
    MoreItems(c, Space(a), signed);
    MoreItems(c, Phrased(u), [Space(a)] + signed);
    BinaryText(u, a, sign, b, v);
    BinaryNodes(Said(u), OperatorNamed(sign), Said(v));
    assert [Said(u)] + ([] + [OperatorNamed(sign), Said(v)]) == [Said(u), OperatorNamed(sign), Said(v)];
    hide Build, Plain, Quote;
    Accepted(c, items, [Said(u), OperatorNamed(sign), Said(v)]);
  }

  lemma BinaryText(u: string, a: string, sign: string, b: string, v: string)
    ensures Quote(u) + (a + (sign + (b + Quote(v)))) == Quote(u) + a + sign + b + Quote(v)
  {
    hide Quote;
  }

  /** Nothing is inserted behind an operator. */
  lemma ConnectedPair(op: Node, y: Node)
    requires op.OperatorNode? && !y.OperatorNode?
    ensures Connect.Connected(OR, [op, y]) == [op, y]
  {
    assert [op, y][1..] == [y] && [y][1..] == [];
    assert Connect.Connected(OR, [y]) == [y] + [] + [];
    assert Connect.Connected(OR, [op, y]) == [op] + [] + [y];
  }

  lemma BinaryNodes(x: Node, op: Node, y: Node)
    requires !x.OperatorNode? && op.OperatorNode? && (op.value == AND || op.value == OR) && !y.OperatorNode?
    ensures Connect.Connected(OR, [x, op, y]) == [x, op, y] && Validate.OperatorsOk([x, op, y])
  {
    ConnectedPair(op, y);
    assert [x, op, y][1..] == [op, y];
    assert Connect.Connected(OR, [x, op, y]) == [x] + [] + [op, y];
  }

  // ----- operators that nobody wrote -----

  lemma ImplicitNodes(x: Node, y: Node)
    requires !x.OperatorNode? && !y.OperatorNode?
    ensures var nodes := [x, OperatorNode(if Connect.SameKey(x, y) then OR else AND, true), y];
      Connect.Connected(OR, [x, y]) == nodes && Validate.OperatorsOk(nodes)
  {
    hide Connect.SameKey;
    assert [x, y][1..] == [y] && [y][1..] == [];
    assert Connect.Connected(OR, [y]) == [y] + [] + [];
    assert Connect.FirstOperand([y]) == Connect.Some(y);
    var op := OperatorNode(if Connect.SameKey(x, y) then OR else AND, true);
    assert Connect.Between(OR, x, [y]) == [op];
    assert Connect.Connected(OR, [x, y]) == [x] + [op] + [y];
  }

  function Tagged(key: string, v: string): Item {
    Keyed(key, ":", InQuotes(v))
  }

  lemma TaggedFacts(c: Conversions, key: string, v: string)
    requires IsKey(key) && TextStart(v)
    ensures Source(Tagged(key, v)) == key + ":" + Quote(v) && NodesOf(Tagged(key, v)) == [StringNode(key, v, false)]
    ensures Source(Tagged(key, v)) != ""
    ensures forall next :: PlainItem(c, Tagged(key, v), next) == (next != Some('"'))
  {
    hide Quote;
  }

  /** Two restrictions side by side: alternatives if they have the same key, whatever its case, and
      otherwise both must hold. */
  lemma TaggedQuery(c: Conversions, j: string, u: string, k: string, v: string)
    requires IsKey(j) && IsKey(k) && TextStart(u) && TextStart(v)
    ensures Build(c, j + ":" + Quote(u) + " " + k + ":" + Quote(v)) ==
            Some([StringNode(j, u, false), OperatorNode(if ToLower(j) == ToLower(k) then OR else AND, true), StringNode(k, v, false)])
  {
    var x, y := StringNode(j, u, false), StringNode(k, v, false);
    KeyStarts(j);
    assert Connect.SameKey(x, y) <==> ToLower(j) == ToLower(k);
    hide IsKey, Quote, Plain, PlainItem, Source, NodesOf, Sources, AllNodes, Connect.SameKey, Build, TextStart, ToLower;
    TaggedItems(c, j, u, k, v);
    ImplicitNodes(x, y);
    var items := [Tagged(j, u)] + ([Space(" ")] + ([Tagged(k, v)] + []));
    Accepted(c, items, [x, OperatorNode(if Connect.SameKey(x, y) then OR else AND, true), y]);
  }

  lemma TaggedItems(c: Conversions, j: string, u: string, k: string, v: string)
    requires IsKey(j) && IsKey(k) && TextStart(u) && TextStart(v)
    ensures var items := [Tagged(j, u)] + ([Space(" ")] + ([Tagged(k, v)] + []));
      && (forall end :: end != Some('"') ==> Plain(c, items, end)) && Sources(items) == j + ":" + Quote(u) + " " + k + ":" + Quote(v)
      && AllNodes(items) == [StringNode(j, u, false), StringNode(k, v, false)] && NoSpaceAtEnd(items) && items != []
  {
    var last := [Tagged(k, v)] + [];
    NoItems(c);
    TaggedFacts(c, j, u);
    TaggedFacts(c, k, v);
    MoreItems(c, Tagged(k, v), []);
    MoreItems(c, Space(" "), last);
    MoreItems(c, Tagged(j, u), [Space(" ")] + last);
    hide Quote, Tagged, IsKey, TextStart;
    forall end | end != Some('"') ensures Plain(c, [Tagged(j, u)] + ([Space(" ")] + last), end) {
      assert Plain(c, [], end);
    }
    assert j + ":" + Quote(u) + (" " + (k + ":" + Quote(v) + "")) == j + ":" + Quote(u) + " " + k + ":" + Quote(v);
  }

  /** The words of the repository's own case: what stands behind the minus is excluded. */
  lemma CatNotDog(c: Conversions)
    ensures Build(c, "cat -dog") == Some([Said("cat"), OperatorNode(AND, true), OperatorNode(NOT, false), Said("dog")])
  {
    var items := CatNotDogItems(c);
    ExclusionNodes(Said("cat"), Said("dog"));
    hide Plain, Build, Sources, AllNodes;
    Accepted(c, items, [Said("cat"), OperatorNode(AND, true), OperatorNode(NOT, false), Said("dog")]);
  }

  lemma CatNotDogItems(c: Conversions) returns (items: seq<Item>)
    ensures Plain(c, items, None) && Sources(items) == "cat -dog" && AllNodes(items) == [Said("cat"), OperatorNode(NOT, false), Said("dog")]
  {
    var cat, dog := Words("", Bare("cat"), ""), Words("", Bare("dog"), "");
    items := [cat] + ([Space(" ")] + ([Operator("-")] + ([dog] + [])));
    NoItems(c);
    MoreItems(c, dog, []);
    MoreItems(c, Operator("-"), [dog] + []);
    MoreItems(c, Space(" "), [Operator("-")] + ([dog] + []));
    MoreItems(c, cat, [Space(" ")] + ([Operator("-")] + ([dog] + [])));
    BareFacts("cat");
    BareFacts("dog");
    CatDogPlain(c);
    hide PlainItem;
    assert "cat" + (" " + ("-" + ("dog" + ""))) == "cat -dog";
    assert [Said("cat")] + ([] + ([OperatorNode(NOT, false)] + ([Said("dog")] + []))) == [Said("cat"), OperatorNode(NOT, false), Said("dog")];
  }

  lemma CatDogPlain(c: Conversions)
    ensures PlainItem(c, Words("", Bare("cat"), ""), Some(' ')) && PlainItem(c, Words("", Bare("dog"), ""), None)
    ensures forall next :: PlainItem(c, Space(" "), next) && PlainItem(c, Operator("-"), next)
    ensures Source(Space(" ")) == " " && Source(Operator("-")) == "-" && NodesOf(Space(" ")) == []
  {
    assert "cat"[0] == 'c' && "dog"[0] == 'd' && "AND"[0] == 'A' && "OR"[0] == 'O' && "NOT"[0] == 'N';
    assert !StartsOperator("cat") && !StartsOperator("dog");
  }

  lemma BareFacts(w: string)
    ensures Source(Words("", Bare(w), "")) == w && NodesOf(Words("", Bare(w), "")) == [Said(w)]
  {
    assert "" + w + "" == w;
  }

  lemma ExclusionNodes(x: Node, y: Node)
    requires !x.OperatorNode? && !y.OperatorNode?
    ensures var no, nodes := OperatorNode(NOT, false), [x, OperatorNode(AND, true), OperatorNode(NOT, false), y];
      Connect.Connected(OR, [x, no, y]) == nodes && Validate.OperatorsOk(nodes)
  {
    var no := OperatorNode(NOT, false);
    ConnectedPair(no, y);
    assert [x, no, y][1..] == [no, y] && [no, y][1..] == [y];
    assert Connect.FirstOperand([y]) == Connect.Some(y);
    assert Connect.FirstOperand([no, y]) == Connect.Some(y);
    assert Connect.Connected(OR, [x, no, y]) == [x] + [OperatorNode(AND, true)] + [no, y];
  }

  // ----- groups -----

  lemma GroupSource(i: Item)
    requires i.Group?
    ensures Source(i) == i.key + i.sep + "(" + Sources(i.items) + ")"
    ensures NodesOf(i) == [GroupNode(i.key, Connect.Connected(OR, AllNodes(i.items)))]
  {
    hide Sources, AllNodes, Connect.Connected;
  }

  /** `key:("u" "v")` is a group with that key, and both phrases must hold in it. */
  lemma GroupQuery(c: Conversions, key: string, u: string, v: string)
    requires IsKey(key)
    ensures Build(c, key + ":(" + Quote(u) + " " + Quote(v) + ")") ==
            Some([GroupNode(key, [Said(u), OperatorNode(AND, true), Said(v)])])
  {
    hide IsKey, Quote, PlainItem, Plain, Sources, AllNodes, Source, NodesOf, Build, Connect.Connected;
    var inner := PhrasesInside(c, u, v);
    ImplicitNodes(Said(u), Said(v));
    assert !Connect.SameKey(Said(u), Said(v));
    var group := Group(key, ":", inner);
    GroupIs(c, key, inner);
    GroupSource(group);
    NoItems(c);
    MoreItems(c, group, []);
    var n := GroupNode(key, Connect.Connected(OR, AllNodes(inner)));
    assert [n] + [] == [n];
    OneIsConnected(n);
    Accepted(c, [group] + [], [n]);
    GroupTextIs(key, Quote(u), Quote(v));
  }

  lemma GroupTextIs(key: string, a: string, b: string)
    ensures key + ":" + "(" + (a + " " + b) + ")" + "" == key + ":(" + a + " " + b + ")"
  {
    assert ":" + "(" == ":(";
  }

  lemma OneIsConnected(n: Node)
    requires !n.OperatorNode?
    ensures Connect.Connected(OR, [n]) == [n] && Validate.OperatorsOk([n])
  {
    assert [n][1..] == [];
    assert Connect.Connected(OR, [n]) == [n] + [] + [];
  }

  lemma PhrasesInside(c: Conversions, u: string, v: string) returns (items: seq<Item>)
    ensures items != [] && NoSpaceAtEnd(items) && Plain(c, items, Some(')'))
    ensures Sources(items) == Quote(u) + " " + Quote(v) && AllNodes(items) == [Said(u), Said(v)]
  {
    var last := [Phrased(v)] + [];
    items := [Phrased(u)] + ([Space(" ")] + last);
    NoItems(c);
    PhraseFacts(c, u);
    PhraseFacts(c, v);
    MoreItems(c, Phrased(v), []);
    MoreItems(c, Space(" "), last);
    MoreItems(c, Phrased(u), [Space(" ")] + last);
    assert Plain(c, [], Some(')'));
    hide Quote;
    assert Quote(u) + (" " + (Quote(v) + "")) == Quote(u) + " " + Quote(v);
    assert [Said(u)] + ([] + ([Said(v)] + [])) == [Said(u), Said(v)];
  }

  lemma GroupIs(c: Conversions, key: string, inner: seq<Item>)
    requires IsKey(key) && inner != [] && NoSpaceAtEnd(inner) && Plain(c, inner, Some(')'))
    requires var nodes := Connect.Connected(OR, AllNodes(inner));
      Validate.OperatorsOk(nodes) && forall m <- nodes :: NodeKey(m) == ""
    ensures PlainItem(c, Group(key, ":", inner), None)
  {
    KeyStarts(key);
    hide IsKey, Plain, AllNodes, Connect.Connected;
  }

  // ----- one restriction -----

  /** A query that is one restriction, a group or one piece of free text, is read as just that. */
  lemma OneItemQuery(c: Conversions, i: Item)
    requires PlainItem(c, i, None) && !i.Space? && !i.Operator?
    ensures Build(c, Source(i)) == Some(NodesOf(i))
  {
    OneItemNodes(c, i);
    hide PlainItem, Plain, Sources, AllNodes, Source, NodesOf, Build, Connect.Connected, Validate.OperatorsOk;
    NoItems(c);
    MoreItems(c, i, []);
    assert Source(i) + "" == Source(i) && NodesOf(i) + [] == NodesOf(i);
    Accepted(c, [i] + [], NodesOf(i));
  }

  lemma OneItemNodes(c: Conversions, i: Item)
    requires PlainItem(c, i, None) && !i.Space? && !i.Operator?
    ensures NodesOf(i) != [] && Connect.Connected(OR, NodesOf(i)) == NodesOf(i) && Validate.OperatorsOk(NodesOf(i))
  {
    hide PlainItem, AllNodes, Connect.Connected, Validate.OperatorsOk;
    if i.Period? {
      BinaryNodes(NodesOf(i)[0], NodesOf(i)[1], NodesOf(i)[2]);
    } else {
      OneIsConnected(NodesOf(i)[0]);
    }
  }

  /** `size>=10`, for whatever number that is. */
  lemma SizeQuery(c: Conversions, number: string)
    requires c.toFloat("10") == Some(number)
    ensures Build(c, "size>=10") == Some([NumberNode("size", ">=", number)])
  {
    var i := Quantity("size", ">=", false, "10", number);
    assert Letters("size") && Digits("10");
    assert "size" + ">=" + "10" == "size>=10";
    hide Build, IsKey, IsNumber;
    OneItemQuery(c, i);
  }

  /** `mtime:today` asks for everything from the start to the end of the day. */
  lemma TodayQuery(c: Conversions, from: string, to: string)
    requires c.toTimeRange("today") == Some((from, to))
    ensures Build(c, "mtime:today") ==
            Some([DateTimeNode("mtime", ">=", from), OperatorNode(AND, false), DateTimeNode("mtime", "<=", to)])
  {
    var i := Period("mtime", ":", false, "today", from, to);
    assert Letters("mtime") && PERIODS[0] == "today" && IsPeriod("today");
    assert "mtime" + ":" + "today" == "mtime:today";
    hide Build, IsKey, IsPeriod;
    OneItemQuery(c, i);
  }

  // ----- what is rejected -----

  lemma KeyHasNoParen(t: string)
    requires IsKey(t)
    ensures ')' !in t
    decreases |t|
  {
    hide Letters;
    if Letters(t) {
      LettersHaveNoParen(t);
    } else {
      var k :| 0 < k < |t| && t[k] == '.' && Letters(t[..k]) && IsKey(t[k + 1..]);
      hide *;
      LettersHaveNoParen(t[..k]);
      KeyHasNoParen(t[k + 1..]);
      JoinedHasNoParen(t, k);
    }
  }

  lemma LettersHaveNoParen(t: string)
    requires Letters(t)
    ensures ')' !in t
  {}

  lemma JoinedHasNoParen(t: string, k: nat)
    requires k < |t| && t[k] == '.' && ')' !in t[..k] && ')' !in t[k + 1..]
    ensures ')' !in t
  {
    assert t == t[..k] + [t[k]] + t[k + 1..];
  }

  lemma ShapeHasNoParen(t: string, pattern: string)
    requires Shape(t, pattern) && ')' !in pattern
    ensures ')' !in t
  {}

  lemma TimeHasNoParen(t: string)
    requires IsTime(t)
    ensures ')' !in t
  {
    var n :| 8 <= n <= |t| && Shape(t[..8], "00:00:00") && Fraction(t[8..n]) && Zone(t[n..]);
    ShapeHasNoParen(t[..8], "00:00:00");
    if Shape(t[n..], "+00:00") {
      ShapeHasNoParen(t[n..], "+00:00");
    } else if Shape(t[n..], "-00:00") {
      ShapeHasNoParen(t[n..], "-00:00");
    }
    var f := t[8..n];
    assert f != "" ==> f == [f[0]] + f[1..];
    assert ')' !in f;
    assert t == t[..8] + f + t[n..];
  }

  lemma MomentHasNoParen(t: string)
    requires IsMoment(t)
    ensures ')' !in t
  {
    if IsDate(t) {
      ShapeHasNoParen(t, "0000-00-00");
    } else if IsTime(t) {
      TimeHasNoParen(t);
    } else {
      ShapeHasNoParen(t[..10], "0000-00-00");
      TimeHasNoParen(t[11..]);
      assert t == t[..10] + [t[10]] + t[11..];
    }
  }

  lemma NumberHasNoParen(t: string)
    requires IsNumber(t)
    ensures ')' !in t
  {
    hide Digits;
    if Digits(t) {
      DigitsHaveNoParen(t);
    } else {
      var k :| 0 < k < |t| && t[k] == '.' && Digits(t[..k]) && Digits(t[k + 1..]);
      DigitsHaveNoParen(t[..k]);
      DigitsHaveNoParen(t[k + 1..]);
      JoinedHasNoParen(t, k);
    }
  }

  lemma DigitsHaveNoParen(t: string)
    requires Digits(t)
    ensures ')' !in t
  {}

  lemma PeriodHasNoParen(t: string)
    requires IsPeriod(t)
    ensures ')' !in t
  {}

  lemma SpelledHasNoParen(w: Written, of: string)
    requires ')' in of && (w.Bare? ==> Free(w.value, of)) && '"' !in Spelled(w)
    ensures ')' !in Spelled(w)
  {
    if w.InQuotes? {
      QuoteOpens(w.value);
    }
  }

  lemma PartsHaveNoParen(a: string, b: string, rest: string)
    requires ')' !in a && ')' !in b && ')' !in rest
    ensures ')' !in a + b + rest
  {}

  lemma MaybeQuotedHasNoParen(quoted: bool, t: string)
    requires ')' !in t
    ensures ')' !in MaybeQuoted(quoted, t)
  {}

  lemma SignHasNoParen(sign: string)
    requires Sep(sign) || sign in ["AND", "+", "NOT", "-", "OR"] || sign in [">=", "<=", ">", "<", "=", ":"]
    ensures ')' !in sign
  {}

  lemma AroundHasNoParen(t: string)
    requires Before(t) || After(t)
    ensures ')' !in t
  {
    if t != "" {
      assert t == [t[0]] + t[1..] && t == t[..|t| - 1] + [t[|t| - 1]];
    }
  }

  lemma KeyedHasNoParen(key: string, op: string, quoted: bool, text: string)
    requires ')' !in key && ')' !in text && (Sep(op) || op in [">=", "<=", ">", "<", "=", ":"])
    ensures ')' !in key + op + MaybeQuoted(quoted, text)
  {
    hide Sep, MaybeQuoted;
    SignHasNoParen(op);
    MaybeQuotedHasNoParen(quoted, text);
    PartsHaveNoParen(key, op, MaybeQuoted(quoted, text));
  }

  lemma WordsHaveNoParen(before: string, w: Written, after: string, of: string)
    requires '"' !in before + Spelled(w) + after && ')' !in before && ')' !in after
    requires ')' in of && (w.Bare? ==> Free(w.value, of))
    ensures ')' !in before + Spelled(w) + after
  {
    hide Spelled, Free;
    assert forall ch :: ch in Spelled(w) ==> ch in before + Spelled(w) + after;
    SpelledHasNoParen(w, of);
    PartsHaveNoParen(before, Spelled(w), after);
  }

  /** Outside of quotes only a group has a closing parenthesis, and it has the opening one. */
  lemma {:induction false} ItemHasNoParen(c: Conversions, i: Item)
    requires Proper(c, i) && '(' !in Source(i) && '"' !in Source(i)
    ensures ')' !in Source(i)
  {
    hide IsKey, IsMoment, IsNumber, IsPeriod, Before, After, Sep, AllProper, Sources, AllNodes, Connect.Connected, Validate.ConnectedQuery;
    hide Spelled, Free, MaybeQuoted;
    if i.Keyed? || i.Truth? || i.Moment? || i.Period? || i.Quantity? {
      KeyHasNoParen(i.key);
    }
    match i
    case Space(_) =>
    case Operator(sign) => SignHasNoParen(sign);
    case Words(before, written, after) =>
      AroundHasNoParen(before);
      AroundHasNoParen(after);
      WordsHaveNoParen(before, written, after, " :()\"");
    case Keyed(key, sep, written) =>
      SignHasNoParen(sep);
      assert key + sep + Spelled(written) == (key + sep) + Spelled(written) + "";
      WordsHaveNoParen(key + sep, written, "", " ()\"");
    case Truth(key, sep, truth) =>
      SignHasNoParen(sep);
      PartsHaveNoParen(key, sep, if truth then "true" else "false");
    case Moment(key, op, quoted, text, _) =>
      MomentHasNoParen(text);
      KeyedHasNoParen(key, op, quoted, text);
    case Period(key, sep, quoted, text, _, _) =>
      PeriodHasNoParen(text);
      KeyedHasNoParen(key, sep, quoted, text);
    case Quantity(key, op, quoted, text, _) =>
      NumberHasNoParen(text);
      KeyedHasNoParen(key, op, quoted, text);
    case Group(_, _, _) =>
  }

  lemma {:induction false} ItemsHaveNoParen(c: Conversions, items: seq<Item>)
    requires AllProper(c, items) && '(' !in Sources(items) && '"' !in Sources(items)
    ensures ')' !in Sources(items)
  {
    hide Proper, Source;
    if items != [] {
      ItemHasNoParen(c, items[0]);
      ItemsHaveNoParen(c, items[1..]);
    }
  }

  /** A closing parenthesis that no other opens, as in `cat)`, is not the end of a shorter query: the
      query is rejected. */
  lemma StrayParenIsRejected(c: Conversions, q: string)
    requires ')' in q && '(' !in q && '"' !in q
    ensures Build(c, q) == None
  {
    hide AllProper, Sources, AllNodes, Build, Connect.Connected;
    if Build(c, q).Some? {
      var items := AcceptedIsWritten(c, q);
      ItemsHaveNoParen(c, items);
    }
  }

  lemma CatParenIsRejected(c: Conversions)
    ensures Build(c, "cat)") == None
  {
    hide Build;
    assert "cat)"[3] == ')';
    StrayParenIsRejected(c, "cat)");
  }
}
