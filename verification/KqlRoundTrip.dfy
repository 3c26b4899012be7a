/** Writing a query and parsing it: the nodes that `Builder.Build` (pkg/kql/kql.go) returns are those
    that were written, for items of every kind, in any order and nested to any depth. */
module KqlRoundTrip {
  import opened Ast
  import Connect
  import Validate
  import opened Peg
  import opened PegLaws
  import opened KqlGrammar
  import opened KqlSyntax
  import opened KqlRestrictions
  import opened KqlQuery
  import opened KqlAccepted
  import opened KqlMatch
  import opened KqlValues
  import opened KqlKeyed
  import opened KqlReads
  import KqlStrings

  // ----- what can be written -----

  /** Words that the grammar would take for an operator, and then for another word. */
  predicate StartsOperator(w: string) {
    "AND" <= w || "OR" <= w || "NOT" <= w
  }

  /** A group is written `(…)`, `key(…)`, `key:(…)` or `key=(…)`. */
  ghost predicate GroupSpelling(key: string, sep: string) {
    if key == "" then sep == "" else IsKey(key) && (sep == "" || Sep(sep))
  }

  /** An item that is read back as itself when `next` is the rune behind it: nothing behind it may
      extend it, and nothing before its end may be taken for something else. */
  ghost predicate PlainItem(c: Conversions, i: Item, next: Option<char>)
    decreases i, 0
  {
    match i
    case Space(blanks) => Blanks(blanks)
    case Operator(sign) => sign == "+" || sign == "-" || ((sign == "AND" || sign == "OR" || sign == "NOT") && KeyStop(next))
    case Words(before, written, after) =>
      && before == "" && after == ""
      && if written.InQuotes? then next != Some('"')
         else Letters(written.value) && !StartsOperator(written.value) && WordEnd(next) && KeyStop(next)
    case Keyed(key, sep, written) =>
      && IsKey(key) && Sep(sep) && TextStart(written.value)
      && if written.InQuotes? then next != Some('"')
         else Free(written.value, " ()\"") && written.value[0] != 'f' && (next.None? || next.value in " ()\"")
    case Truth(key, sep, _) => IsKey(key) && Sep(sep) && ValueStop(next)
    case Moment(key, op, quoted, text, time) =>
      IsKey(key) && PlainOp(op) && IsMoment(text) && c.toTime(text) == Some(time) && WholeStop(quoted, next)
    case Period(key, sep, quoted, text, from, to) =>
      IsKey(key) && Sep(sep) && IsPeriod(text) && c.toTimeRange(text) == Some((from, to)) && WholeStop(quoted, next)
    case Quantity(key, op, quoted, text, number) =>
      && IsKey(key) && PlainOp(op) && op != ":" && op != "=" && IsNumber(text) && c.toFloat(text) == Some(number)
      && WholeStop(quoted, next)
    case Group(key, sep, items) =>
      var nodes := Connect.Connected(OR, AllNodes(items));
      && GroupSpelling(key, sep) && items != [] && NoSpaceAtEnd(items) && Plain(c, items, Some(')'))
      && Validate.OperatorsOk(nodes) && (key != "" ==> forall m <- nodes :: NodeKey(m) == "")
  }

  predicate WholeStop(quoted: bool, next: Option<char>) {
    if quoted then next != Some('"') else ValueStop(next)
  }

  /** All of them are, when `end` is the rune behind the last. */
  ghost predicate Plain(c: Conversions, items: seq<Item>, end: Option<char>)
    decreases items, 0
  {
    items == [] || (PlainItem(c, items[0], FirstRune(items[1..], end)) && Plain(c, items[1..], end))
  }

  function FirstRune(items: seq<Item>, end: Option<char>): Option<char> {
    if Sources(items) == "" then end else Some(Sources(items)[0])
  }

  predicate NoSpaceAtEnd(items: seq<Item>) {
    items == [] || !items[|items| - 1].Space?
  }

  // ----- the rest of the query -----

  /** The items, and then the tail: nothing, or the parenthesis that closes them. */
  predicate Rest(q: string, pos: nat, items: seq<Item>, tail: string) {
    pos <= |q| && q[pos..] == Sources(items) + tail && (tail == "" || tail[0] == ')')
  }

  /** Behind a first part of the rest. */
  lemma RestSplits(q: string, pos: nat, t: string, items: seq<Item>, tail: string)
    requires pos <= |q| && q[pos..] == t + (Sources(items) + tail) && (tail == "" || tail[0] == ')')
    ensures Reads(q, pos, t) && Rest(q, pos + |t|, items, tail) && At(q, pos + |t|) == FirstRune(items, At(tail, 0))
    ensures t != "" ==> At(q, pos) == Some(t[0])
  {
    var whole, more := q[pos..], Sources(items) + tail;
    assert whole[..|t|] == t && whole[|t|..] == more;
    assert q[pos..pos + |t|] == whole[..|t|] && q[pos + |t|..] == whole[|t|..];
    if more != "" {
      assert q[pos + |t|..][0] == q[pos + |t|];
    }
  }

  lemma FirstItem(c: Conversions, items: seq<Item>, end: Option<char>)
    requires items != [] && Plain(c, items, end)
    ensures Sources(items) == Source(items[0]) + Sources(items[1..]) && AllNodes(items) == NodesOf(items[0]) + AllNodes(items[1..])
    ensures PlainItem(c, items[0], FirstRune(items[1..], end)) && Plain(c, items[1..], end)
  {
    hide PlainItem, Source, NodesOf, FirstRune;
  }

  /** What an item starts with. */
  lemma ItemStarts(c: Conversions, i: Item, next: Option<char>)
    requires PlainItem(c, i, next) && !i.Space?
    ensures Source(i) != "" && Source(i)[0] !in " \t:" && NodesOf(i) != []
  {
    if i.Group? {
      GroupStarts(c, i, next);
    } else if i.Words? {
      WordsStart(c, i, next);
    } else if !i.Operator? {
      RestrictionStarts(c, i, next);
    }
  }

  lemma GroupStarts(c: Conversions, i: Item, next: Option<char>)
    requires PlainItem(c, i, next) && i.Group?
    ensures Source(i) != "" && Source(i)[0] !in " \t:" && NodesOf(i) != []
  {
    hide Plain, Sources, AllNodes, Validate.OperatorsOk, Connect.Connected, IsKey;
    if i.key != "" {
      KeyStarts(i.key);
      assert Source(i)[0] == i.key[0];
    }
  }

  lemma RestrictionStarts(c: Conversions, i: Item, next: Option<char>)
    requires PlainItem(c, i, next) && (i.Keyed? || i.Truth? || i.Moment? || i.Period? || i.Quantity?)
    ensures Source(i) != "" && Source(i)[0] !in " \t:" && NodesOf(i) != []
  {
    hide IsKey, IsMoment, IsNumber, IsPeriod, Sep, PlainOp, TextStart, Free, WholeStop, ValueStop, Spelled, MaybeQuoted;
    KeyStarts(i.key);
    SourceStarts(i);
  }

  lemma SourceStarts(i: Item)
    requires !i.Space? && !i.Operator? && !i.Words? && i.key != ""
    ensures Source(i) != "" && Source(i)[0] == i.key[0]
  {
    hide Spelled, MaybeQuoted, Sources;
  }

  lemma WordsStart(c: Conversions, i: Item, next: Option<char>)
    requires PlainItem(c, i, next) && i.Words?
    ensures Source(i) != "" && Source(i)[0] !in " \t:" && NodesOf(i) != []
  {
    var t := Spelled(i.written);
    assert "" + t + "" == t;
    if i.written.Bare? {
      assert IsLetter(t[0]);
    }
  }

  lemma KeyStarts(t: string)
    requires IsKey(t)
    ensures t != "" && IsLetter(t[0])
  {
    if !Letters(t) {
      var k :| 0 < k < |t| && t[k] == '.' && Letters(t[..k]) && IsKey(t[k + 1..]);
      assert t[..k][0] == t[0];
    }
  }

  /** The blanks in front of the first item that is not blank. */
  lemma {:induction false} SkipSpace(c: Conversions, items: seq<Item>, end: Option<char>) returns (b: string, rest: seq<Item>)
    requires Plain(c, items, end) && (end == None || end == Some(')'))
    ensures Sources(items) == b + Sources(rest) && Blanks(b) && AllNodes(items) == AllNodes(rest) && Plain(c, rest, end)
    ensures |rest| <= |items| && |Sources(rest)| <= |Sources(items)|
    ensures var next := FirstRune(rest, end); NotBlank(next) && next != Some(':')
    ensures if rest == [] then Sources(rest) == "" && (NoSpaceAtEnd(items) ==> items == [] && b == "") else !rest[0].Space?
    ensures NoSpaceAtEnd(items) ==> NoSpaceAtEnd(rest)
    decreases |items|
  {
    hide PlainItem, Source, NodesOf, Plain, Sources, AllNodes;
    b, rest := "", items;
    if items == [] {
      Nothing(c, end);
    } else {
      FirstItem(c, items, end);
      if items[0].Space? {
        b, rest := SkipSpace(c, items[1..], end);
        SpaceIs(c, items[0], FirstRune(items[1..], end));
        b := items[0].blanks + b;
      } else {
        ItemStarts(c, items[0], FirstRune(items[1..], end));
      }
    }
  }

  lemma Nothing(c: Conversions, end: Option<char>)
    ensures Sources([]) == "" && AllNodes([]) == [] && Plain(c, [], end) && Blanks("")
  {}

  lemma SpaceIs(c: Conversions, i: Item, next: Option<char>)
    requires PlainItem(c, i, next) && i.Space?
    ensures Source(i) == i.blanks && NodesOf(i) == [] && Blanks(i.blanks)
  {}

  // ----- operators -----

  lemma SignFacts(q: string, pos: nat, sign: string)
    requires Reads(q, pos, sign) && (sign == "+" || sign == "-")
    ensures pos <= |q| && At(q, pos) == Some(sign[0]) && Keyless(At(q, pos)) && sign[0] == (if sign == "+" then '+' else '-')
  {
    ReadsAt(q, pos, sign);
  }

  lemma SignRead(c: Conversions, q: string, pos: nat, sign: string)
    requires WellFormed(Kql(c)) && Reads(q, pos, sign) && (sign == "+" || sign == "-")
    ensures WellFormedExpr(Kql(c), RuleRef(NodeRule))
    ensures Eval(Kql(c), q, NodesRule, RuleRef(NodeRule), pos, map[], [])
         == Success(Built(One(SignNode(sign))), pos + 1, map[], [])
  {
    SignFacts(q, pos, sign);
    hide *;
    LastChoices();
    OperatorsCannotStart(At(q, pos));
    if sign == "+" {
      AndMatches(c, q, sign, pos);
      KeylessPicks(c, q, 6, pos);
    } else {
      NotMatches(c, q, sign, pos);
      KeylessPicks(c, q, 7, pos);
    }
  }

  lemma OperatorWordFacts(q: string, pos: nat, sign: string)
    requires Reads(q, pos, sign) && (sign == "AND" || sign == "OR" || sign == "NOT")
    ensures IsKey(sign) && pos <= |q| && At(q, pos) == Some(sign[0]) && sign[0] == (if sign == "AND" then 'A' else if sign == "OR" then 'O' else 'N')
  {
    ReadsAt(q, pos, sign);
    assert Letters(sign);
  }

  /** AND, OR and NOT, written out. */
  lemma OperatorWordRead(c: Conversions, q: string, pos: nat, sign: string)
    requires WellFormed(Kql(c)) && Reads(q, pos, sign) && (sign == "AND" || sign == "OR" || sign == "NOT")
    requires KeyStop(At(q, pos + |sign|))
    ensures WellFormedExpr(Kql(c), RuleRef(NodeRule))
    ensures Eval(Kql(c), q, NodesRule, RuleRef(NodeRule), pos, map[], [])
         == Success(Built(One(SignNode(sign))), pos + |sign|, map[], [])
  {
    hide *;
    OperatorWordFacts(q, pos, sign);
    LastChoices();
    SignParts(c);
    OperatorsCannotStart(At(q, pos));
    if sign == "AND" {
      AndMatches(c, q, sign, pos);
      WordPicks(c, q, 6, pos, sign);
    } else if sign == "NOT" {
      CannotStartFails(c, q, NodeRule, AndOperator(), pos, map[], []);
      NotMatches(c, q, sign, pos);
      WordPicks(c, q, 7, pos, sign);
    } else {
      CannotStartFails(c, q, NodeRule, AndOperator(), pos, map[], []);
      CannotStartFails(c, q, NodeRule, NotOperator(), pos, map[], []);
      OpMatches(c, q, NodeRule, sign, pos, map[]);
      WordPicks(c, q, 8, pos, sign);
    }
  }

  lemma SignIsNamed(sign: string)
    requires sign in ["AND", "+", "NOT", "-", "OR"]
    ensures SignNode(sign) == OperatorNamed(sign)
  {}

  // ----- free text -----

  lemma QuoteStarts(q: string, pos: nat, v: string)
    requires Reads(q, pos, KqlStrings.Quote(v))
    ensures At(q, pos) == Some('"') && pos <= |q|
  {
    ReadsAt(q, pos, KqlStrings.Quote(v));
  }

  lemma QuoteIsKeyless()
    ensures Keyless(Some('"'))
  {}

  lemma PhraseRead(c: Conversions, q: string, pos: nat, v: string, b: string)
    requires WellFormed(Kql(c)) && Reads(q, pos, KqlStrings.Quote(v)) && KqlStrings.EndsAt(q, pos + |KqlStrings.Quote(v)|)
    requires var p2 := pos + |KqlStrings.Quote(v)|;
      Reads(q, p2, b) && Blanks(b) && NotBlank(At(q, p2 + |b|)) && At(q, p2 + |b|) != Some(':')
    ensures WellFormedExpr(Kql(c), RuleRef(NodeRule))
    ensures Eval(Kql(c), q, NodesRule, RuleRef(NodeRule), pos, map[], [])
         == Success(Built(One(StringNode("", v, false))), pos + |KqlStrings.Quote(v)| + |b|, map[], [])
  {
    hide *;
    QuoteStarts(q, pos, v);
    LastChoices();
    QuoteIsKeyless();
    OperatorsCannotStart(At(q, pos));
    PhraseMatches(c, q, pos, v, b);
    KeylessPicks(c, q, 9, pos);
  }

  /** A word that does not start with an operator is followed by none of its letters. */
  lemma NoPrefix(q: string, pos: nat, w: string, t: string)
    requires Reads(q, pos, w) && Letters(t) && !(t <= w) && (At(q, pos + |w|).None? || !IsLetter(At(q, pos + |w|).value))
    ensures !Reads(q, pos, t)
  {
    if Reads(q, pos, t) {
      SameText(q, pos, w, t);
    }
  }

  lemma SameText(q: string, pos: nat, w: string, t: string)
    requires Reads(q, pos, w) && Reads(q, pos, t)
    ensures if |t| <= |w| then t <= w else At(q, pos + |w|) == Some(t[|w|])
  {
    ReadsAt(q, pos, w);
    ReadsAt(q, pos, t);
    if |t| > |w| {
      assert q[pos + |w|] == t[|w|];
    } else {
      assert forall k :: 0 <= k < |t| ==> t[k] == q[pos + k] && w[k] == q[pos + k];
    }
  }

  lemma OperatorsFail(c: Conversions, q: string, pos: nat, w: string)
    requires WellFormed(Kql(c)) && Reads(q, pos, w) && Letters(w) && !StartsOperator(w) && KeyStop(At(q, pos + |w|))
    ensures WellFormedExpr(Kql(c), AndOperator()) && Eval(Kql(c), q, NodeRule, AndOperator(), pos, map[], []) == Failure([])
    ensures WellFormedExpr(Kql(c), NotOperator()) && Eval(Kql(c), q, NodeRule, NotOperator(), pos, map[], []) == Failure([])
    ensures WellFormedExpr(Kql(c), Op("OR")) && Eval(Kql(c), q, NodeRule, Op("OR"), pos, map[], []) == Failure([])
  {
    SignParts(c);
    NoPrefix(q, pos, w, "AND");
    NoPrefix(q, pos, w, "NOT");
    NoPrefix(q, pos, w, "OR");
    NoSign(q, pos, w);
    hide WellFormed, WellFormedExpr, Kql, Eval, Reads, KeyStop, StartsOperator, Letters;
    EitherFails(c, q, "AND", "+", pos);
    EitherFails(c, q, "NOT", "-", pos);
    LitFails(Kql(c), q, NodeRule, "OR", pos, map[]);
    ActionFails(c, q, NodeRule, Choice([Lit("AND"), Lit("+")]), BUILD_OPERATOR, pos);
    ActionFails(c, q, NodeRule, Choice([Lit("NOT"), Lit("-")]), BUILD_OPERATOR, pos);
    ActionFails(c, q, NodeRule, Lit("OR"), BUILD_OPERATOR, pos);
  }

  lemma NoSign(q: string, pos: nat, w: string)
    requires Reads(q, pos, w) && Letters(w)
    ensures !Reads(q, pos, "+") && !Reads(q, pos, "-") && pos <= |q|
  {
    ReadsAt(q, pos, w);
    assert IsLetter(w[0]) && q[pos + 0] == w[0];
    if Reads(q, pos, "+") {
      ReadsAt(q, pos, "+");
    }
    if Reads(q, pos, "-") {
      ReadsAt(q, pos, "-");
    }
  }

  lemma EitherFails(c: Conversions, q: string, a: string, b: string, pos: nat)
    requires WellFormed(Kql(c)) && pos <= |q| && !Reads(q, pos, a) && !Reads(q, pos, b)
    requires WellFormedExpr(Kql(c), Lit(a)) && WellFormedExpr(Kql(c), Lit(b)) && WellFormedExpr(Kql(c), Choice([Lit(a), Lit(b)]))
    ensures Eval(Kql(c), q, NodeRule, Choice([Lit(a), Lit(b)]), pos, map[], []) == Failure([])
  {
    hide WellFormed, WellFormedExpr, Kql, Eval, EvalChoice, Reads;
    var es := [Lit(a), Lit(b)];
    EvalIsChoice(Kql(c), q, NodeRule, es, pos, map[], []);
    LitFails(Kql(c), q, NodeRule, a, pos, map[]);
    LitFails(Kql(c), q, NodeRule, b, pos, map[]);
    NoneMatches(c, q, es, pos);
  }

  lemma WordRead(c: Conversions, q: string, pos: nat, w: string, b: string)
    requires WellFormed(Kql(c)) && Reads(q, pos, w) && Letters(w) && !StartsOperator(w)
    requires WordEnd(At(q, pos + |w|)) && KeyStop(At(q, pos + |w|))
    requires var p2 := pos + |w|; Reads(q, p2, b) && Blanks(b) && NotBlank(At(q, p2 + |b|)) && At(q, p2 + |b|) != Some(':')
    ensures WellFormedExpr(Kql(c), RuleRef(NodeRule))
    ensures Eval(Kql(c), q, NodesRule, RuleRef(NodeRule), pos, map[], [])
         == Success(Built(One(StringNode("", w, false))), pos + |w| + |b|, map[], [])
  {
    hide *;
    WordFacts(q, pos, w);
    LastChoices();
    OperatorsFail(c, q, pos, w);
    PhraseCannotStart(At(q, pos));
    FreeTextIsWellFormed(c);
    CannotStartFails(c, q, NodeRule, Phrase(), pos, map[], []);
    WordMatches(c, q, pos, w, b);
    WordPicks(c, q, 10, pos, w);
  }

  lemma WordFacts(q: string, pos: nat, w: string)
    requires Reads(q, pos, w) && Letters(w)
    ensures IsKey(w) && Free(w, " :()\"") && w[0] != '\t' && pos <= |q|
    ensures At(q, pos).None? || At(q, pos).value !in " \t:\""
  {
    ReadsAt(q, pos, w);
    assert IsLetter(w[0]);
    forall k | 0 <= k < |w| ensures w[k] !in " :()\"" {
      assert IsLetter(w[k]);
    }
  }

  // ----- one item -----

  lemma RestIs(q: string, pos: nat, items: seq<Item>, tail: string)
    requires Rest(q, pos, items, tail)
    ensures pos <= |q| && q[pos..] == Sources(items) + tail && (tail == "" || tail[0] == ')')
    ensures At(tail, 0) == None || At(tail, 0) == Some(')')
  {}

  /** The text of the first item, and what is behind it. */
  lemma ItemText(c: Conversions, q: string, pos: nat, items: seq<Item>, tail: string)
    requires items != [] && Plain(c, items, At(tail, 0)) && !items[0].Space? && Rest(q, pos, items, tail)
    ensures var i, p := items[0], pos + |Source(items[0])|;
      && Reads(q, pos, Source(i)) && At(q, p) == FirstRune(items[1..], At(tail, 0)) && Rest(q, p, items[1..], tail) && pos < p <= |q|
      && PlainItem(c, i, At(q, p)) && Plain(c, items[1..], At(tail, 0)) && NodesOf(i) != []
      && AllNodes(items) == NodesOf(i) + AllNodes(items[1..])
  {
    hide *;
    FirstItem(c, items, At(tail, 0));
    var i := items[0];
    ItemStarts(c, i, FirstRune(items[1..], At(tail, 0)));
    RestIs(q, pos, items, tail);
    assert Source(i) + Sources(items[1..]) + tail == Source(i) + (Sources(items[1..]) + tail);
    RestSplits(q, pos, Source(i), items[1..], tail);
    RestIs(q, pos + |Source(i)|, items[1..], tail);
  }

  /** The Node rule reads the first item, and the blanks behind free text, and leaves the rest. */
  lemma {:induction false} ItemRead(c: Conversions, q: string, pos: nat, items: seq<Item>, tail: string)
    returns (v: KqlValue, end: nat, rest: seq<Item>)
    requires WellFormed(Kql(c)) && items != [] && Plain(c, items, At(tail, 0)) && !items[0].Space? && Rest(q, pos, items, tail)
    ensures WellFormedExpr(Kql(c), RuleRef(NodeRule)) && pos < end <= |q|
    ensures Eval(Kql(c), q, NodesRule, RuleRef(NodeRule), pos, map[], []) == Success(v, end, map[], [])
    ensures ToNodes(v).Some? && AllNodes(items) == ToNodes(v).value + AllNodes(rest) && ToNodes(v).value != []
    ensures Rest(q, end, rest, tail) && Plain(c, rest, At(tail, 0)) && |rest| < |items|
    ensures NoSpaceAtEnd(items) ==> NoSpaceAtEnd(rest)
    decreases |Sources(items)|, 1, 0
  {
    hide *;
    ItemText(c, q, pos, items, tail);
    var i, p := items[0], pos + |Source(items[0])|;
    end, rest := p, items[1..];
    LastStays(items);
    SourceOfFirst(items);
    if i.Words? {
      var b;
      RestIs(q, p, items[1..], tail);
      b, rest := SkipSpace(c, items[1..], At(tail, 0));
      assert b + Sources(rest) + tail == b + (Sources(rest) + tail);
      RestSplits(q, p, b, rest, tail);
      v := WordsItem(c, q, pos, i, At(q, p), b, At(q, p + |b|));
      end := p + |b|;
      RestIs(q, end, rest, tail);
    } else if i.Operator? {
      v := SignItem(c, q, pos, i, At(q, p));
    } else if i.Group? {
      v := GroupItem(c, q, pos, i, At(q, p));
    } else {
      v := RestrictionItem(c, q, pos, i, At(q, p));
    }
  }

  lemma SourceOfFirst(items: seq<Item>)
    requires items != []
    ensures |Source(items[0])| <= |Sources(items)|
  {
    hide Source;
  }

  lemma LastStays(items: seq<Item>)
    requires items != []
    ensures NoSpaceAtEnd(items) ==> NoSpaceAtEnd(items[1..])
  {}

  lemma SignItem(c: Conversions, q: string, pos: nat, i: Item, next: Option<char>) returns (v: KqlValue)
    requires WellFormed(Kql(c)) && PlainItem(c, i, next) && i.Operator? && Reads(q, pos, Source(i)) && At(q, pos + |Source(i)|) == next
    ensures WellFormedExpr(Kql(c), RuleRef(NodeRule)) && ToNodes(v) == Some(NodesOf(i)) && pos <= |q|
    ensures Eval(Kql(c), q, NodesRule, RuleRef(NodeRule), pos, map[], []) == Success(v, pos + |Source(i)|, map[], [])
  {
    hide WellFormed, WellFormedExpr, Kql, Eval, Reads, KeyStop;
    SignIsNamed(i.sign);
    ReadsThere(q, pos, Source(i));
    if i.sign == "+" || i.sign == "-" {
      SignRead(c, q, pos, i.sign);
    } else {
      OperatorWordRead(c, q, pos, i.sign);
    }
    v := Built(One(SignNode(i.sign)));
  }

  lemma WordsItem(c: Conversions, q: string, pos: nat, i: Item, next: Option<char>, b: string, behind: Option<char>) returns (v: KqlValue)
    requires WellFormed(Kql(c)) && PlainItem(c, i, next) && i.Words? && Reads(q, pos, Source(i)) && At(q, pos + |Source(i)|) == next
    requires var p := pos + |Source(i)|; Reads(q, p, b) && Blanks(b) && At(q, p + |b|) == behind
    requires NotBlank(behind) && behind != Some(':')
    ensures WellFormedExpr(Kql(c), RuleRef(NodeRule)) && ToNodes(v) == Some(NodesOf(i)) && pos <= |q|
    ensures Eval(Kql(c), q, NodesRule, RuleRef(NodeRule), pos, map[], []) == Success(v, pos + |Source(i)| + |b|, map[], [])
  {
    WordsSource(c, i, next);
    hide WellFormed, WellFormedExpr, Kql, Eval, Reads, KeyStop, Blanks, Letters, StartsOperator, WordEnd, NotBlank, KqlStrings.Quote, Source;
    ReadsThere(q, pos, Source(i));
    if i.written.InQuotes? {
      ReadsThere(q, pos + |Source(i)|, b);
      EndsThere(q, pos + |Source(i)|, next);
      PhraseRead(c, q, pos, i.written.value, b);
    } else {
      WordRead(c, q, pos, i.written.value, b);
    }
    v := Built(One(StringNode("", i.written.value, false)));
  }

  lemma EndsThere(q: string, p: nat, next: Option<char>)
    requires p <= |q| && At(q, p) == next && next != Some('"')
    ensures KqlStrings.EndsAt(q, p)
  {}

  lemma WordsSource(c: Conversions, i: Item, next: Option<char>)
    requires PlainItem(c, i, next) && i.Words?
    ensures Source(i) == Spelled(i.written) && NodesOf(i) == [StringNode("", i.written.value, false)]
  {
    assert "" + Spelled(i.written) + "" == Spelled(i.written);
  }

  /** The parts of a restriction, as they stand in the query. */
  lemma HeadOf(q: string, pos: nat, key: string, op: string, t: string)
    requires Reads(q, pos, key + op + t) && IsKey(key) && PlainOp(op) && (op == "<" || op == ">" ==> t != "" && t[0] != '=')
    ensures HeadAt(q, pos, key, op) && Reads(q, pos + |key| + |op|, t) && pos + |key + op + t| == pos + |key| + |op| + |t| <= |q|
  {
    hide IsKey, PlainOp;
    ReadsParts(q, pos, key + op, t);
    ReadsAt(q, pos + |key + op|, t);
  }

  lemma SepIsPlain(sep: string)
    requires Sep(sep)
    ensures PlainOp(sep) && (sep == ":" || sep == "=") && sep != "<" && sep != ">"
  {}

  lemma WholeThere(q: string, p: nat, quoted: bool, t: string, next: Option<char>)
    requires Reads(q, p, MaybeQuoted(quoted, t)) && WholeStop(quoted, next) && At(q, p + |MaybeQuoted(quoted, t)|) == next
    requires t != "" && t[0] != '"'
    ensures WholeAt(q, p, quoted, t)
  {}

  lemma MaybeStarts(quoted: bool, t: string)
    requires t != "" && IsDigit(t[0])
    ensures MaybeQuoted(quoted, t) != "" && MaybeQuoted(quoted, t)[0] != '=' && t[0] != '"'
  {}

  /** A restriction of any kind. */
  lemma RestrictionItem(c: Conversions, q: string, pos: nat, i: Item, next: Option<char>) returns (v: KqlValue)
    requires WellFormed(Kql(c)) && PlainItem(c, i, next) && Reads(q, pos, Source(i)) && At(q, pos + |Source(i)|) == next
    requires i.Keyed? || i.Truth? || i.Moment? || i.Period? || i.Quantity?
    ensures WellFormedExpr(Kql(c), RuleRef(NodeRule)) && ToNodes(v) == Some(NodesOf(i)) && pos <= |q|
    ensures Eval(Kql(c), q, NodesRule, RuleRef(NodeRule), pos, map[], []) == Success(v, pos + |Source(i)|, map[], [])
  {
    hide *;
    if i.Keyed? {
      v := KeyedItem(c, q, pos, i, next);
    } else if i.Truth? {
      v := TruthItem(c, q, pos, i, next);
    } else if i.Moment? {
      v := MomentItem(c, q, pos, i, next);
    } else if i.Period? {
      v := PeriodItem(c, q, pos, i, next);
    } else {
      v := QuantityItem(c, q, pos, i, next);
    }
  }

  lemma KeyedItem(c: Conversions, q: string, pos: nat, i: Item, next: Option<char>) returns (v: KqlValue)
    requires WellFormed(Kql(c)) && PlainItem(c, i, next) && i.Keyed? && Reads(q, pos, Source(i)) && At(q, pos + |Source(i)|) == next
    ensures WellFormedExpr(Kql(c), RuleRef(NodeRule)) && ToNodes(v) == Some(NodesOf(i)) && pos <= |q|
    ensures Eval(Kql(c), q, NodesRule, RuleRef(NodeRule), pos, map[], []) == Success(v, pos + |Source(i)|, map[], [])
  {
    hide WellFormed, WellFormedExpr, Kql, Eval, Reads, IsKey, Sep, PlainOp, TextStart, Spelled, HeadAt, Free;
    SepIsPlain(i.sep);
    HeadOf(q, pos, i.key, i.sep, Spelled(i.written));
    TextThere(q, pos + |i.key| + |i.sep|, i.written, next);
    TextRead(c, q, pos, i.key, i.sep, i.written);
    v := Built(One(StringNode(i.key, i.written.value, i.sep == "=")));
  }

  lemma TextThere(q: string, p: nat, w: Written, next: Option<char>)
    requires Reads(q, p, Spelled(w)) && TextStart(w.value) && At(q, p + |Spelled(w)|) == next
    requires if w.InQuotes? then next != Some('"')
      else Free(w.value, " ()\"") && w.value[0] != 'f' && (next.None? || next.value in " ()\"")
    ensures TextAt(q, p, w)
  {
    hide TextStart, Free, KqlStrings.Quote;
  }

  lemma TruthItem(c: Conversions, q: string, pos: nat, i: Item, next: Option<char>) returns (v: KqlValue)
    requires WellFormed(Kql(c)) && PlainItem(c, i, next) && i.Truth? && Reads(q, pos, Source(i)) && At(q, pos + |Source(i)|) == next
    ensures WellFormedExpr(Kql(c), RuleRef(NodeRule)) && ToNodes(v) == Some(NodesOf(i)) && pos <= |q|
    ensures Eval(Kql(c), q, NodesRule, RuleRef(NodeRule), pos, map[], []) == Success(v, pos + |Source(i)|, map[], [])
  {
    hide WellFormed, WellFormedExpr, Kql, Eval, Reads, IsKey, Sep, PlainOp, HeadAt, ValueStop;
    SepIsPlain(i.sep);
    HeadOf(q, pos, i.key, i.sep, if i.truth then "true" else "false");
    TruthRead(c, q, pos, i.key, i.sep, i.truth);
    v := Built(One(BooleanNode(i.key, i.truth)));
  }

  lemma MomentItem(c: Conversions, q: string, pos: nat, i: Item, next: Option<char>) returns (v: KqlValue)
    requires WellFormed(Kql(c)) && PlainItem(c, i, next) && i.Moment? && Reads(q, pos, Source(i)) && At(q, pos + |Source(i)|) == next
    ensures WellFormedExpr(Kql(c), RuleRef(NodeRule)) && ToNodes(v) == Some(NodesOf(i)) && pos <= |q|
    ensures Eval(Kql(c), q, NodesRule, RuleRef(NodeRule), pos, map[], []) == Success(v, pos + |Source(i)|, map[], [])
  {
    hide WellFormed, WellFormedExpr, Kql, Eval, Reads, IsKey, PlainOp, HeadAt, WholeAt, WholeStop, IsMoment, MaybeQuoted;
    MomentStarts(i.text);
    MaybeStarts(i.quoted, i.text);
    HeadOf(q, pos, i.key, i.op, MaybeQuoted(i.quoted, i.text));
    WholeThere(q, pos + |i.key| + |i.op|, i.quoted, i.text, next);
    MomentRead(c, q, pos, i.key, i.op, i.quoted, i.text, i.time);
    v := Built(One(DateTimeNode(i.key, i.op, i.time)));
  }

  lemma PeriodItem(c: Conversions, q: string, pos: nat, i: Item, next: Option<char>) returns (v: KqlValue)
    requires WellFormed(Kql(c)) && PlainItem(c, i, next) && i.Period? && Reads(q, pos, Source(i)) && At(q, pos + |Source(i)|) == next
    ensures WellFormedExpr(Kql(c), RuleRef(NodeRule)) && ToNodes(v) == Some(NodesOf(i)) && pos <= |q|
    ensures Eval(Kql(c), q, NodesRule, RuleRef(NodeRule), pos, map[], []) == Success(v, pos + |Source(i)|, map[], [])
  {
    hide WellFormed, WellFormedExpr, Kql, Eval, Reads, IsKey, Sep, PlainOp, HeadAt, WholeAt, WholeStop, IsPeriod, MaybeQuoted;
    SepIsPlain(i.sep);
    PeriodStarts(i.text);
    HeadOf(q, pos, i.key, i.sep, MaybeQuoted(i.quoted, i.text));
    WholeThere(q, pos + |i.key| + |i.sep|, i.quoted, i.text, next);
    PeriodRead(c, q, pos, i.key, i.sep, i.quoted, i.text, i.from, i.to);
    v := Built(Many([DateTimeNode(i.key, ">=", i.from), OperatorNode(AND, false), DateTimeNode(i.key, "<=", i.to)]));
  }

  lemma QuantityItem(c: Conversions, q: string, pos: nat, i: Item, next: Option<char>) returns (v: KqlValue)
    requires WellFormed(Kql(c)) && PlainItem(c, i, next) && i.Quantity? && Reads(q, pos, Source(i)) && At(q, pos + |Source(i)|) == next
    ensures WellFormedExpr(Kql(c), RuleRef(NodeRule)) && ToNodes(v) == Some(NodesOf(i)) && pos <= |q|
    ensures Eval(Kql(c), q, NodesRule, RuleRef(NodeRule), pos, map[], []) == Success(v, pos + |Source(i)|, map[], [])
  {
    hide WellFormed, WellFormedExpr, Kql, Eval, Reads, IsKey, PlainOp, HeadAt, WholeAt, WholeStop, IsNumber, MaybeQuoted;
    NumberStarts(i.text);
    MaybeStarts(i.quoted, i.text);
    HeadOf(q, pos, i.key, i.op, MaybeQuoted(i.quoted, i.text));
    WholeThere(q, pos + |i.key| + |i.op|, i.quoted, i.text, next);
    QuantityRead(c, q, pos, i.key, i.op, i.quoted, i.text, i.number);
    v := Built(One(NumberNode(i.key, i.op, i.number)));
  }

  // ----- groups -----

  /** Where the parts of a group are. */
  lemma GroupReads(q: string, pos: nat, key: string, sep: string, text: string)
    requires Reads(q, pos, key + sep + "(" + text + ")")
    ensures var p1, p2, p3 := pos + |key|, pos + |key| + |sep|, pos + |key| + |sep| + 1 + |text|;
      && p3 + 1 <= |q| && Reads(q, pos, key) && Reads(q, p1, sep) && Reads(q, p2, "(") && Reads(q, p3, ")")
      && q[p2 + 1..] == text + q[p3..] && q[p3..] != "" && q[p3..][0] == ')'
      && pos + |key + sep + "(" + text + ")"| == p3 + 1
      && At(q, p1) == (if sep == "" then Some('(') else Some(sep[0]))
  {
    hide Reads, At;
    var rest := text + ")";
    GroupConcat(key, sep, text);
    ReadsParts(q, pos, key, sep + ("(" + rest));
    ReadsParts(q, pos + |key|, sep, "(" + rest);
    ReadsParts(q, pos + |key| + |sep|, "(", rest);
    TextAndParen(q, pos + |key| + |sep| + 1, text);
  }

  lemma GroupConcat(key: string, sep: string, text: string)
    ensures key + sep + "(" + text + ")" == key + (sep + ("(" + (text + ")")))
  {}

  lemma TextAndParen(q: string, p: nat, text: string)
    requires Reads(q, p, text + ")")
    ensures var p3 := p + |text|;
      p3 + 1 <= |q| && Reads(q, p3, ")") && q[p..] == text + q[p3..] && q[p3..] != "" && q[p3..][0] == ')'
  {
    ReadsParts(q, p, text, ")");
    var p3 := p + |text|;
    ReadsAt(q, p3, ")");
    assert q[p..] == q[p..p3] + q[p3..];
  }

  lemma NoKey(c: Conversions, q: string, pos: nat)
    requires WellFormed(Kql(c)) && At(q, pos) == Some('(') && WellFormedExpr(Kql(c), Key()) && WellFormedExpr(Kql(c), ZeroOrOne(Key()))
    ensures pos <= |q| && Eval(Kql(c), q, GroupNodeRule, ZeroOrOne(Key()), pos, map[], []) == Success(Nil, pos, map[], [])
  {
    assert CannotStart(Key(), Some('(')) by { assert CannotStart(Char(), Some('(')); }
    hide WellFormed, Kql, Key, CannotStart;
    CannotStartFails(c, q, GroupNodeRule, Key(), pos, map[], []);
  }

  lemma OptionalKeyRead(c: Conversions, q: string, pos: nat, key: string)
    requires WellFormed(Kql(c)) && WellFormedExpr(Kql(c), Labeled("k", ZeroOrOne(Key()))) && Reads(q, pos, key)
    requires if key == "" then At(q, pos) == Some('(') else IsKey(key) && KeyEnd(At(q, pos + |key|))
    ensures pos + |key| <= |q|
    ensures var o := Eval(Kql(c), q, GroupNodeRule, Labeled("k", ZeroOrOne(Key())), pos, map[], []);
      o.Success? && o.pos == pos + |key| && o.env == KeyValue(key) && o.errs == []
  {
    hide *;
    ReadsThere(q, pos, key);
    LabeledMember(Kql(c), "k", ZeroOrOne(Key()));
    OptionMember(Kql(c), Key());
    if key == "" {
      NoKey(c, q, pos);
    } else {
      KeyMatches(c, q, GroupNodeRule, pos, key);
      OptionMatches(Kql(c), q, GroupNodeRule, Key(), pos);
    }
    LabeledMatches(Kql(c), q, GroupNodeRule, "k", ZeroOrOne(Key()), pos, map[]);
    OnlyLabel("k", Eval(Kql(c), q, GroupNodeRule, ZeroOrOne(Key()), pos, map[], []).val);
    KeyValueIs(key);
  }

  lemma KeyValueIs(key: string)
    ensures KeyValue(key) == map["k" := if key == "" then Nil else Text(key)]
  {}

  lemma GroupActs(c: Conversions, key: string, v: KqlValue, nodes: seq<Node>, text: string)
    requires ToNodes(v) == Some(nodes)
    requires var connected := Connect.Connected(OR, nodes);
      Validate.OperatorsOk(connected) && (key != "" ==> forall m <- connected :: NodeKey(m) == "")
    ensures Run(c, BUILD_GROUP, KeyValue(key)["v" := v], text)
         == Returned(Built(One(GroupNode(key, Connect.Connected(OR, nodes)))), None)
  {
    hide Connect.Connected, Validate.OperatorsOk;
  }

  /** The five parts of a group. */
  lemma {:induction false} GroupSeqRead(c: Conversions, q: string, pos: nat, i: Item) returns (v: KqlValue)
    requires WellFormed(Kql(c)) && i.Group? && GroupSpelling(i.key, i.sep) && Reads(q, pos, Source(i))
    requires i.items != [] && NoSpaceAtEnd(i.items) && Plain(c, i.items, Some(')'))
    ensures pos + |Source(i)| <= |q| && WellFormedExpr(Kql(c), Seq(GroupExprs()))
    ensures var o := Eval(Kql(c), q, GroupNodeRule, Seq(GroupExprs()), pos, map[], []);
      && o.Success? && o.pos == pos + |Source(i)| && o.env == KeyValue(i.key)["v" := v] && o.errs == []
      && ToNodes(v) == Some(AllNodes(i.items))
    decreases |Source(i)|, 0, 0
  {
    hide *;
    var p1, p2, p3 := pos + |i.key|, pos + |i.key| + |i.sep|, pos + |i.key| + |i.sep| + 1 + |Sources(i.items)|;
    GroupSource(i);
    GroupReads(q, pos, i.key, i.sep, Sources(i.items));
    GroupSpells(i.key, i.sep);
    GroupExprsAre(c);
    GroupFiveExprs(c);
    if i.key != "" {
      GroupKeyEnds(i.sep, At(q, p1));
    }
    OptionalKeyRead(c, q, pos, i.key);
    OptionalSepRead(c, q, p1, i.sep, KeyValue(i.key));
    ParenMatches(c, q, "(", p2, KeyValue(i.key));
    var p, b;
    GroupTailIs(q, p2 + 1, i.items, q[p3..]);
    v, p, b := NodesRead(c, q, p2 + 1, i.items, q[p3..]);
    NodeAtEnd(c, i.items, Some(')'));
    RestOf(q, p, p3);
    KqlBodies(c);
    RefUnfolds(c, q, GroupNodeRule, NodesRule, p2 + 1, map[]);
    LabeledMatches(Kql(c), q, GroupNodeRule, "v", RuleRef(NodesRule), p2 + 1, KeyValue(i.key));
    ParenMatches(c, q, ")", p3, KeyValue(i.key)["v" := v]);
    FiveMatch(c, q, GroupNodeRule, GroupExprs(), pos);
  }

  lemma GroupSource(i: Item)
    requires i.Group?
    ensures Source(i) == i.key + i.sep + "(" + Sources(i.items) + ")"
    ensures |Sources(i.items)| < |Source(i)|
  {
    hide Sources;
  }

  lemma GroupSpells(key: string, sep: string)
    requires GroupSpelling(key, sep)
    ensures if key == "" then sep == "" else IsKey(key)
    ensures sep == "" || Sep(sep)
  {}

  lemma GroupKeyEnds(sep: string, ch: Option<char>)
    requires (sep == "" || Sep(sep)) && ch == (if sep == "" then Some('(') else Some(sep[0]))
    ensures KeyEnd(ch)
  {}

  lemma GroupFiveExprs(c: Conversions)
    ensures var es := GroupExprs();
      && |es| == 5 && es[0] == Labeled("k", ZeroOrOne(Key())) && es[1] == ZeroOrOne(ColonOrEqual()) && es[2] == Lit("(")
      && es[3] == Labeled("v", RuleRef(NodesRule)) && es[4] == Lit(")")
      && WellFormedExpr(Kql(c), Seq(es)) && forall k :: 0 <= k < |es| ==> WellFormedExpr(Kql(c), es[k])
    ensures Body(GroupNodeRule) == Action(Seq(GroupExprs()), BUILD_GROUP) && WellFormedExpr(Kql(c), Body(GroupNodeRule))
  {
    hide WellFormedExpr, Kql, Key, ColonOrEqual, Body;
    GroupBody(c);
  }

  lemma ParenMatches(c: Conversions, q: string, t: string, pos: nat, env: Env<Built>)
    requires WellFormed(Kql(c)) && Reads(q, pos, t) && (t == "(" || t == ")")
    ensures pos + 1 <= |q| && WellFormedExpr(Kql(c), Lit(t))
    ensures Eval(Kql(c), q, GroupNodeRule, Lit(t), pos, env, []) == Success(Text(t), pos + 1, env, [])
  {
    hide WellFormed, Kql;
  }

  lemma GroupTailIs(q: string, pos: nat, items: seq<Item>, tail: string)
    requires pos <= |q| && q[pos..] == Sources(items) + tail && tail != "" && tail[0] == ')'
    ensures Rest(q, pos, items, tail) && At(tail, 0) == Some(')')
  {}

  /** The same rest is at the same place. */
  lemma RestOf(q: string, p: nat, p3: nat)
    requires p <= |q| && p3 <= |q| && q[p..] == "" + q[p3..]
    ensures p == p3
  {
    assert |q[p..]| == |q[p3..]|;
  }

  lemma {:induction false} NodeAtEnd(c: Conversions, items: seq<Item>, end: Option<char>)
    requires items != [] && NoSpaceAtEnd(items) && Plain(c, items, end)
    ensures AllNodes(items) != []
    decreases |items|
  {
    hide PlainItem, Plain, AllNodes, NodesOf;
    FirstItem(c, items, end);
    if |items| > 1 {
      NodeAtEnd(c, items[1..], end);
    } else {
      ItemStarts(c, items[0], FirstRune(items[1..], end));
    }
  }

  lemma {:induction false} GroupItem(c: Conversions, q: string, pos: nat, i: Item, next: Option<char>) returns (b: KqlValue)
    requires WellFormed(Kql(c)) && PlainItem(c, i, next) && i.Group? && Reads(q, pos, Source(i)) && At(q, pos + |Source(i)|) == next
    ensures WellFormedExpr(Kql(c), RuleRef(NodeRule)) && ToNodes(b) == Some(NodesOf(i)) && pos <= |q|
    ensures Eval(Kql(c), q, NodesRule, RuleRef(NodeRule), pos, map[], []) == Success(b, pos + |Source(i)|, map[], [])
    decreases |Source(i)|, 0, 1
  {
    hide *;
    GroupIsPlain(c, i, next);
    var v := GroupSeqRead(c, q, pos, i);
    var end := pos + |Source(i)|;
    var node := GroupNode(i.key, Connect.Connected(OR, AllNodes(i.items)));
    b := Built(One(node));
    OneNode(node);
    GroupActs(c, i.key, v, AllNodes(i.items), q[pos..end]);
    GroupFiveExprs(c);
    ActionRuns(c, q, GroupNodeRule, Seq(GroupExprs()), BUILD_GROUP, pos, map[], b);
    GroupPicks(c, q, pos);
  }

  lemma GroupIsPlain(c: Conversions, i: Item, next: Option<char>)
    requires PlainItem(c, i, next) && i.Group?
    ensures var nodes := Connect.Connected(OR, AllNodes(i.items));
      && GroupSpelling(i.key, i.sep) && i.items != [] && NoSpaceAtEnd(i.items) && Plain(c, i.items, Some(')'))
      && Validate.OperatorsOk(nodes) && (i.key != "" ==> forall m <- nodes :: NodeKey(m) == "")
      && NodesOf(i) == [GroupNode(i.key, nodes)]
  {
    hide Plain, AllNodes, Validate.OperatorsOk, Connect.Connected;
  }

  lemma GroupPicks(c: Conversions, q: string, pos: nat)
    requires WellFormed(Kql(c)) && pos <= |q| && WellFormedExpr(Kql(c), Body(GroupNodeRule))
    requires var o := Eval(Kql(c), q, GroupNodeRule, Body(GroupNodeRule), pos, map[], []); o.Success? && o.errs == []
    ensures WellFormedExpr(Kql(c), RuleRef(NodeRule))
    ensures var o := Eval(Kql(c), q, GroupNodeRule, Body(GroupNodeRule), pos, map[], []);
      Eval(Kql(c), q, NodesRule, RuleRef(NodeRule), pos, map[], []) == Success(o.val, o.pos, map[], [])
  {
    hide *;
    var es := [RuleRef(GroupNodeRule)] + NodeChoices();
    KqlBodies(c);
    NodeAlternatives(c);
    RefUnfolds(c, q, NodeRule, GroupNodeRule, pos, map[]);
    RefUnfolds(c, q, NodesRule, NodeRule, pos, map[]);
    EvalIsChoice(Kql(c), q, NodeRule, es, pos, map[], []);
    assert es[0] == RuleRef(GroupNodeRule);
    ChoicePicks(c, q, NodeRule, es, 0, pos, map[]);
  }

  // ----- all items -----

  /** Blanks and then a node, as the Nodes rule repeats them. */
  lemma StepIs(c: Conversions, q: string, pos: nat, b: string)
    requires WellFormed(Kql(c)) && Reads(q, pos, b) && Blanks(b) && NotBlank(At(q, pos + |b|))
    ensures pos + |b| <= |q| && WellFormedExpr(Kql(c), RuleRef(NodeRule)) && WellFormedExpr(Kql(c), NodesStep())
    ensures var o := Eval(Kql(c), q, NodesRule, RuleRef(NodeRule), pos + |b|, map[], []);
      Eval(Kql(c), q, NodesRule, NodesStep(), pos, map[], []) ==
      if o.Failure? then o else Success(List([Nil, o.val]), o.pos, o.env, o.errs)
  {
    hide *;
    var g, es := Kql(c), [Blank()] + ([RuleRef(NodeRule)] + []);
    NodesParts(c);
    NodesStepIs(c);
    ReadsThere(q, pos, b);
    BlankMatches(c, q, NodesRule, pos, b, map[]);
    EvalIsSeq(g, q, NodesRule, es, pos, map[], []);
    KqlStrings.SeqStep(g, q, NodesRule, RuleRef(NodeRule), [], pos + |b|, map[], [], [] + [Nil]);
    KqlStrings.SeqStep(g, q, NodesRule, Blank(), [RuleRef(NodeRule)] + [], pos, map[], [], []);
    var o := Eval(g, q, NodesRule, RuleRef(NodeRule), pos + |b|, map[], []);
    if o.Success? {
      EvalNoSeq(g, q, NodesRule, o.pos, o.env, o.errs, [] + [Nil] + [o.val]);
      assert [] + [Nil] + [o.val] == [Nil, o.val];
    }
  }

  lemma NodesStepIs(c: Conversions)
    ensures NodesStep() == Seq([Blank()] + ([RuleRef(NodeRule)] + []))
    ensures var es := [Blank()] + ([RuleRef(NodeRule)] + []); forall k :: 0 <= k < |es| ==> WellFormedExpr(Kql(c), es[k])
  {
    assert [Blank(), RuleRef(NodeRule)] == [Blank()] + ([RuleRef(NodeRule)] + []);
    hide WellFormedExpr, Kql, Blank;
    NodesParts(c);
  }

  lemma StepNodes(v: KqlValue)
    requires ToNodes(v).Some?
    ensures ToNodes(List([Nil, v])) == ToNodes(v)
  {
    var inner: seq<KqlValue>, nodes := [Nil, v], ToNodes(v).value;
    assert inner[1..] == [v];
    assert AllToNodes(inner[1..]) == Some(nodes + []);
    assert nodes + [] == nodes;
    assert AllToNodes(inner) == Some([] + nodes);
    assert [] + nodes == nodes;
  }

  /** One step of the loop: the blanks, then an item; or only blanks are left, and the step fails. */
  lemma {:induction false} StepRead(c: Conversions, q: string, pos: nat, items: seq<Item>, tail: string)
    returns (v: KqlValue, end: nat, rest: seq<Item>)
    requires WellFormed(Kql(c)) && Plain(c, items, At(tail, 0)) && Rest(q, pos, items, tail)
    ensures pos <= |q| && WellFormedExpr(Kql(c), NodesStep())
    ensures var o := Eval(Kql(c), q, NodesRule, NodesStep(), pos, map[], []);
      if AllNodes(items) == [] then o == Failure([]) && Blanks(Sources(items)) && (NoSpaceAtEnd(items) ==> Sources(items) == "")
      else
        && o == Success(List([Nil, v]), end, map[], []) && pos < end <= |q|
        && Rest(q, end, rest, tail) && Plain(c, rest, At(tail, 0)) && |rest| < |items|
        && ToNodes(v).Some? && AllNodes(items) == ToNodes(v).value + AllNodes(rest)
        && (NoSpaceAtEnd(items) ==> NoSpaceAtEnd(rest))
    decreases |Sources(items)|, 2, 0
  {
    hide *;
    RestIs(q, pos, items, tail);
    var b, shorter := SkipSpace(c, items, At(tail, 0));
    assert b + Sources(shorter) + tail == b + (Sources(shorter) + tail);
    RestSplits(q, pos, b, shorter, tail);
    StepIs(c, q, pos, b);
    if shorter == [] {
      v, end, rest := Nil, pos, [];
      Nothing(c, None);
      assert b + "" == b;
      NothingLeft(q, pos + |b|, tail);
      NodeFails(c, q, pos + |b|);
    } else {
      v, end, rest := ItemRead(c, q, pos + |b|, shorter, tail);
    }
  }

  lemma NothingLeft(q: string, pos: nat, tail: string)
    requires Rest(q, pos, [], tail)
    ensures At(q, pos) == None || At(q, pos) == Some(')')
  {
    if tail != "" {
      assert q[pos..][0] == tail[0];
    }
  }

  lemma {:induction false} ItemsRead(c: Conversions, q: string, pos: nat, items: seq<Item>, tail: string, vals: seq<KqlValue>)
    returns (b: string)
    requires WellFormed(Kql(c)) && WellFormedExpr(Kql(c), NodesStep()) && !MayBeEmpty(Kql(c), NodesStep())
    requires Plain(c, items, At(tail, 0)) && Rest(q, pos, items, tail) && AllToNodes(vals).Some?
    ensures pos <= |q|
    ensures var o := EvalLoop(Kql(c), q, NodesRule, NodesStep(), pos, map[], [], vals);
      && o.errs == [] && o.env == map[] && ToNodes(o.val) == Some(AllToNodes(vals).value + AllNodes(items))
      && q[o.pos..] == b + tail && Blanks(b) && (NoSpaceAtEnd(items) ==> b == "")
    decreases |Sources(items)|, 3, |items|
  {
    hide *;
    var x, end, rest := StepRead(c, q, pos, items, tail);
    KqlStrings.LoopStep(Kql(c), q, NodesRule, NodesStep(), pos, map[], [], vals);
    var v := List([Nil, x]);
    if AllNodes(items) == [] {
      RestIs(q, pos, items, tail);
      ListNodes(vals);
      assert AllToNodes(vals).value + [] == AllToNodes(vals).value;
      b := Sources(items);
    } else {
      RestShrinks(q, pos, items, end, rest, tail);
      StepNodes(x);
      AllToNodesMore(vals, v);
      b := ItemsRead(c, q, end, rest, tail, vals + [v]);
      var ns := ToNodes(x).value;
      assert (AllToNodes(vals).value + ns) + AllNodes(rest) == AllToNodes(vals).value + (ns + AllNodes(rest));
    }
  }

  lemma RestShrinks(q: string, pos: nat, items: seq<Item>, end: nat, rest: seq<Item>, tail: string)
    requires Rest(q, pos, items, tail) && Rest(q, end, rest, tail) && pos < end
    ensures |Sources(rest)| < |Sources(items)|
  {
    hide Sources;
    assert |q[pos..]| == |Sources(items)| + |tail| && |q[end..]| == |Sources(rest)| + |tail|;
  }

  lemma ListNodes(vals: seq<KqlValue>)
    ensures ToNodes(List(vals)) == AllToNodes(vals)
  {}

  /** The Nodes rule reads all items, but for blanks at their end. */
  lemma {:induction false} NodesRead(c: Conversions, q: string, pos: nat, items: seq<Item>, tail: string)
    returns (v: KqlValue, p: nat, b: string)
    requires WellFormed(Kql(c)) && Plain(c, items, At(tail, 0)) && Rest(q, pos, items, tail)
    ensures pos <= |q| && WellFormedExpr(Kql(c), Body(NodesRule))
    ensures var o := Eval(Kql(c), q, NodesRule, Body(NodesRule), pos, map[], []);
      if AllNodes(items) == [] then o == Failure([])
      else
        && o == Success(v, p, map[], []) && pos <= p <= |q| && ToNodes(v) == Some(AllNodes(items))
        && q[p..] == b + tail && Blanks(b) && (NoSpaceAtEnd(items) ==> b == "")
    decreases |Sources(items)|, 4, 0
  {
    hide *;
    NodesParts(c);
    var x, end, rest := StepRead(c, q, pos, items, tail);
    RepetitionsUnfold(Kql(c), q, NodesRule, NodesStep(), pos, map[], []);
    v, p, b := Nil, pos, "";
    if AllNodes(items) != [] {
      var first := List([Nil, x]);
      RestShrinks(q, pos, items, end, rest, tail);
      StepNodes(x);
      OneValue(first);
      b := ItemsRead(c, q, end, rest, tail, [first]);
      var o := EvalLoop(Kql(c), q, NodesRule, NodesStep(), end, map[], [], [first]);
      v, p := o.val, o.pos;
    }
  }

  lemma OneValue(v: KqlValue)
    requires ToNodes(v).Some?
    ensures AllToNodes([v]) == ToNodes(v)
  {
    assert [v][1..] == [];
    assert ToNodes(v).value + [] == ToNodes(v).value;
  }

  // ----- the whole query -----

  lemma EndMatches(c: Conversions, q: string, env: Env<Built>)
    requires WellFormed(Kql(c))
    ensures WellFormedExpr(Kql(c), AtEOF()) && Eval(Kql(c), q, ASTRule, AtEOF(), |q|, env, []) == Success(Nil, |q|, env, [])
  {
    hide WellFormed, Kql;
  }

  function QueryExprs(): seq<KqlExpr> {
    [Labeled("n", RuleRef(NodesRule)), Blank(), AtEOF()]
  }

  lemma QueryExprsAre()
    ensures QueryExprs() == [Labeled("n", RuleRef(NodesRule)), Blank(), AtEOF()]
  {}

  /** The nodes, blanks, and nothing else. */
  lemma QuerySeq(c: Conversions, items: seq<Item>) returns (v: KqlValue)
    requires WellFormed(Kql(c)) && Plain(c, items, None)
    ensures WellFormedExpr(Kql(c), Seq(QueryExprs()))
    ensures var q := Sources(items);
      var o := Eval(Kql(c), q, ASTRule, Seq(QueryExprs()), 0, map[], []);
      if AllNodes(items) == [] then o == Failure([])
      else o.Success? && o.pos == |q| && o.env == map["n" := v] && o.errs == [] && ToNodes(v) == Some(AllNodes(items))
  {
    hide *;
    var g, q := Kql(c), Sources(items);
    ASTParts(c);
    QueryExprsAre();
    var p, b;
    QueryRest(items);
    v, p, b := NodesRead(c, q, 0, items, "");
    KqlBodies(c);
    RefUnfolds(c, q, ASTRule, NodesRule, 0, map[]);
    KqlStrings.SeqOfThree(g, q, ASTRule, QueryExprs(), 0, map[], []);
    if AllNodes(items) == [] {
      LabeledFails(g, q, ASTRule, "n", RuleRef(NodesRule), 0, map[]);
    } else {
      LabeledMatches(g, q, ASTRule, "n", RuleRef(NodesRule), 0, map[]);
      OnlyLabel("n", v);
      BlanksToEnd(q, p, b);
      BlankMatches(c, q, ASTRule, p, b, map["n" := v]);
      EndMatches(c, q, map["n" := v]);
    }
  }

  lemma QueryRest(items: seq<Item>)
    ensures Rest(Sources(items), 0, items, "") && At("", 0) == None
  {
    assert Sources(items)[0..] == Sources(items) + "";
  }

  lemma BlanksToEnd(q: string, p: nat, b: string)
    requires p <= |q| && q[p..] == b + ""
    ensures Reads(q, p, b) && p + |b| == |q| && NotBlank(At(q, |q|))
  {
    assert b + "" == b && q[p..p + |b|] == q[p..];
  }

  /** Writing and parsing: whatever plain items are written, the query is accepted exactly when
      validation accepts their nodes, connected, and then these are the result. */
  lemma WrittenIsRead(c: Conversions, items: seq<Item>)
    requires Plain(c, items, None)
    ensures var nodes := Connect.Connected(OR, AllNodes(items));
      Build(c, Sources(items)) ==
      if AllNodes(items) != [] && Validate.ValidateOperators(nodes).None? then Some(nodes) else None
  {
    KqlIsWellFormed(c);
    ASTParts(c);
    QueryExprsAre();
    hide WellFormed, WellFormedExpr, Kql, Eval, Body, QueryExprs, Plain, Sources, AllNodes, ToNodes, Connect.Connected, Blank;
    var q := Sources(items);
    var v := QuerySeq(c, items);
    if AllNodes(items) == [] {
      ActionFails(c, q, ASTRule, Seq(QueryExprs()), BUILD_AST, 0);
    } else {
      QueryActs(c, q, v, AllNodes(items));
    }
  }

  lemma QueryActs(c: Conversions, q: string, v: KqlValue, nodes: seq<Node>)
    requires WellFormed(Kql(c)) && WellFormedExpr(Kql(c), Seq(QueryExprs())) && WellFormedExpr(Kql(c), Action(Seq(QueryExprs()), BUILD_AST))
    requires ToNodes(v) == Some(nodes)
    requires var o := Eval(Kql(c), q, ASTRule, Seq(QueryExprs()), 0, map[], []);
      o.Success? && o.env == map["n" := v] && o.errs == []
    ensures var o := Eval(Kql(c), q, ASTRule, Action(Seq(QueryExprs()), BUILD_AST), 0, map[], []);
      var connected := Connect.Connected(OR, nodes);
      && o.Success?
      && if Validate.ValidateOperators(connected).None? then o.errs == [] && o.val == Built(Query(connected)) else o.errs != []
  {
    hide WellFormed, WellFormedExpr, QueryExprs, ToNodes, Connect.Connected, Validate.ValidateOperators;
  }
}
