/** How the expressions of the KQL grammar match a given text: blanks, keys, words, quoted values and
    operators, none of which makes an action report an error. */
module KqlMatch {
  import opened Ast
  import opened Peg
  import opened PegLaws
  import opened KqlGrammar
  import opened KqlClean
  import opened KqlSyntax
  import opened KqlRestrictions
  import opened KqlQuery
  import opened KqlAccepted
  import KqlStrings

  /** The text at a position of the input. */
  predicate Reads(q: string, pos: nat, t: string) {
    pos + |t| <= |q| && q[pos..pos + |t|] == t
  }

  lemma ReadsParts(q: string, pos: nat, a: string, b: string)
    requires Reads(q, pos, a + b)
    ensures Reads(q, pos, a) && Reads(q, pos + |a|, b)
    ensures a != "" ==> At(q, pos) == Some(a[0])
    ensures forall k :: 0 <= k < |a| ==> q[pos + k] == a[k]
  {
    KqlStrings.SliceParts(q, pos, a, b);
  }

  lemma ReadsAt(q: string, pos: nat, t: string)
    requires Reads(q, pos, t)
    ensures t != "" ==> At(q, pos) == Some(t[0])
    ensures forall k :: 0 <= k < |t| ==> q[pos + k] == t[k]
  {
    assert t + "" == t;
    ReadsParts(q, pos, t, "");
  }

  // ----- runs of runes -----

  /** Takes exactly the rune at `pos`, whatever labels there are. */
  ghost predicate Takes(c: Conversions, q: string, rule: Rule, e: KqlExpr, pos: nat)
    requires WellFormed(Kql(c)) && WellFormedExpr(Kql(c), e) && pos <= |q|
  {
    var o := Eval(Kql(c), q, rule, e, pos, map[], []); o.Success? && o.pos == pos + 1 && o.errs == []
  }

  lemma {:induction false} RunOf(c: Conversions, q: string, rule: Rule, e: KqlExpr, pos: nat, n: nat, env: Env<Built>, vals: seq<KqlValue>)
    requires WellFormed(Kql(c)) && WellFormedExpr(Kql(c), e) && !MayBeEmpty(Kql(c), e) && pos + n <= |q|
    requires forall k :: pos <= k < pos + n ==> Takes(c, q, rule, e, k)
    requires Eval(Kql(c), q, rule, e, pos + n, map[], []) == Failure([])
    ensures var o := EvalLoop(Kql(c), q, rule, e, pos, env, [], vals); o.pos == pos + n && o.env == env && o.errs == []
    decreases n
  {
    hide WellFormed, WellFormedExpr, MayBeEmpty, Eval, EvalLoop, Kql;
    KqlStrings.LoopStep(Kql(c), q, rule, e, pos, env, [], vals);
    if n > 0 {
      assert Takes(c, q, rule, e, pos);
      RunOf(c, q, rule, e, pos + 1, n - 1, env, vals + [Eval(Kql(c), q, rule, e, pos, map[], []).val]);
    }
  }

  /** At least one rune, and no more than `n`. */
  lemma SomeOf(c: Conversions, q: string, rule: Rule, e: KqlExpr, pos: nat, n: nat, env: Env<Built>)
    requires WellFormed(Kql(c)) && WellFormedExpr(Kql(c), e) && !MayBeEmpty(Kql(c), e) && 0 < n && pos + n <= |q|
    requires forall k :: pos <= k < pos + n ==> Takes(c, q, rule, e, k)
    requires Eval(Kql(c), q, rule, e, pos + n, map[], []) == Failure([])
    ensures WellFormedExpr(Kql(c), OneOrMore(e))
    ensures var o := Eval(Kql(c), q, rule, OneOrMore(e), pos, env, []);
      o.Success? && o.pos == pos + n && o.env == env && o.errs == []
  {
    hide WellFormed, WellFormedExpr, MayBeEmpty, Eval, EvalLoop, Kql;
    RepetitionsUnfold(Kql(c), q, rule, e, pos, env, []);
    assert Takes(c, q, rule, e, pos);
    RunOf(c, q, rule, e, pos + 1, n - 1, env, [Eval(Kql(c), q, rule, e, pos, map[], []).val]);
  }

  predicate NotBlank(ch: Option<char>) {
    ch != Some(' ') && ch != Some('\t')
  }

  /** Blank takes all blanks there are. */
  lemma BlankMatches(c: Conversions, q: string, rule: Rule, pos: nat, b: string, env: Env<Built>)
    requires WellFormed(Kql(c)) && Reads(q, pos, b) && Blanks(b) && NotBlank(At(q, pos + |b|))
    ensures WellFormedExpr(Kql(c), Blank()) && Eval(Kql(c), q, rule, Blank(), pos, env, []) == Success(Nil, pos + |b|, env, [])
  {
    var e := OneOf(" \t");
    hide WellFormed, Kql;
    ReadsAt(q, pos, b);
    forall k | pos <= k < pos + |b| ensures Takes(c, q, rule, e, k) {
      assert q[k] == b[k - pos];
      assert q[k] in " \t";
    }
    CannotStartFails(c, q, rule, e, pos + |b|, map[], []);
    RunOf(c, q, rule, e, pos, |b|, env, []);
    BlankIs(c, q, rule, pos, env);
  }

  lemma BlankIs(c: Conversions, q: string, rule: Rule, pos: nat, env: Env<Built>)
    requires WellFormed(Kql(c)) && pos <= |q|
    ensures WellFormedExpr(Kql(c), Blank()) && WellFormedExpr(Kql(c), OneOf(" \t")) && !MayBeEmpty(Kql(c), OneOf(" \t"))
    ensures var o := EvalLoop(Kql(c), q, rule, OneOf(" \t"), pos, env, [], []);
      Eval(Kql(c), q, rule, Blank(), pos, env, []) == Success(Nil, o.pos, o.env, o.errs)
  {
    hide WellFormed, EvalLoop;
    var o := EvalLoop(Kql(c), q, rule, OneOf(" \t"), pos, env, [], []);
    assert o.errs + [] == o.errs;
  }

  // ----- keys -----

  /** What may follow a word so that it is no key: no letter, no dot, and nothing that a restriction
      or a group puts behind its key. */
  predicate KeyStop(ch: Option<char>) {
    ch.None? || (!IsLetter(ch.value) && ch.value !in ".:=(<>")
  }

  predicate KeyEnd(ch: Option<char>) {
    ch.None? || (!IsLetter(ch.value) && ch.value != '.')
  }

  lemma LettersMatch(c: Conversions, q: string, rule: Rule, pos: nat, t: string)
    requires WellFormed(Kql(c)) && Reads(q, pos, t) && Letters(t)
    requires At(q, pos + |t|).None? || !IsLetter(At(q, pos + |t|).value)
    ensures WellFormedExpr(Kql(c), OneOrMore(Char()))
    ensures var o := Eval(Kql(c), q, rule, OneOrMore(Char()), pos, map[], []);
      o.Success? && o.pos == pos + |t| && o.env == map[] && o.errs == []
  {
    hide WellFormed, Kql, Char;
    ReadsAt(q, pos, t);
    CharFacts(c);
    forall k | pos <= k < pos + |t| ensures Takes(c, q, rule, Char(), k) {
      assert q[k] == t[k - pos];
      CharTakes(c, q, rule, k);
    }
    CharFails(c, q, rule, pos + |t|);
    SomeOf(c, q, rule, Char(), pos, |t|, map[]);
  }

  /** A dot and the letters behind it. */
  lemma DottedMatches(c: Conversions, q: string, rule: Rule, pos: nat, n: nat)
    requires WellFormed(Kql(c)) && WellFormedExpr(Kql(c), DottedLetters()) && WellFormedExpr(Kql(c), OneOrMore(Char()))
    requires pos < |q| && q[pos] == '.'
    requires var o := Eval(Kql(c), q, rule, OneOrMore(Char()), pos + 1, map[], []);
      o.Success? && o.pos == n && o.env == map[] && o.errs == []
    ensures var o := Eval(Kql(c), q, rule, DottedLetters(), pos, map[], []);
      o.Success? && o.pos == n && o.errs == []
  {
    var a: KqlExpr, b: KqlExpr := Lit("."), OneOrMore(Char());
    DotIs(c, q, rule, pos);
    hide WellFormed, WellFormedExpr, Eval, EvalSeq, Kql, Char;
    assert [a, b] == [a] + ([b] + []);
    EvalIsSeq(Kql(c), q, rule, [a, b], pos, map[], []);
    KqlStrings.SeqStep(Kql(c), q, rule, b, [], pos, map[], [], []);
    KqlStrings.SeqStep(Kql(c), q, rule, a, [b] + [], pos, map[], [], []);
    var o1 := Eval(Kql(c), q, rule, a, pos, map[], []);
    KqlStrings.SeqStep(Kql(c), q, rule, b, [], o1.pos, map[], [], [] + [o1.val]);
    var o2 := Eval(Kql(c), q, rule, b, o1.pos, map[], []);
    EvalNoSeq(Kql(c), q, rule, o2.pos, map[], [], [] + [o1.val] + [o2.val]);
  }

  lemma DotIs(c: Conversions, q: string, rule: Rule, pos: nat)
    requires WellFormed(Kql(c)) && pos < |q| && q[pos] == '.'
    ensures WellFormedExpr(Kql(c), Lit(".")) && Eval(Kql(c), q, rule, Lit("."), pos, map[], []) == Success(Text("."), pos + 1, map[], [])
  {
    hide WellFormed, Kql;
    assert q[pos..pos + 1] == ".";
  }

  /** The first word of a key, and then the loop over the others. */
  lemma {:induction false} KeyRun(c: Conversions, q: string, rule: Rule, pos: nat, t: string, vals: seq<KqlValue>) returns (n: nat)
    requires WellFormed(Kql(c)) && Reads(q, pos, t) && IsKey(t) && KeyEnd(At(q, pos + |t|))
    ensures WellFormedExpr(Kql(c), OneOrMore(Char())) && WellFormedExpr(Kql(c), DottedLetters()) && !MayBeEmpty(Kql(c), DottedLetters())
    ensures pos < n <= pos + |t|
    ensures var o := Eval(Kql(c), q, rule, OneOrMore(Char()), pos, map[], []);
      o.Success? && o.pos == n && o.env == map[] && o.errs == []
    ensures var o := EvalLoop(Kql(c), q, rule, DottedLetters(), n, map[], [], vals); o.pos == pos + |t| && o.env == map[] && o.errs == []
    decreases |t|
  {
    CharFacts(c);
    hide WellFormed, WellFormedExpr, MayBeEmpty, Eval, EvalLoop, Kql, Char, DottedLetters, Letters, IsKey;
    var g := Kql(c);
    if Letters(t) {
      LettersAreThere(t);
      n := pos + |t|;
      LettersMatch(c, q, rule, pos, t);
      DottedFails(c, q, rule, n);
      KqlStrings.LoopStep(g, q, rule, DottedLetters(), n, map[], [], vals);
    } else {
      var k := FirstDot(q, pos, t);
      n := pos + k;
      LettersMatch(c, q, rule, pos, t[..k]);
      var v := Eval(g, q, rule, DottedLetters(), n, map[], []);
      var m := KeyRun(c, q, rule, n + 1, t[k + 1..], if v.Success? then vals + [v.val] else vals);
      DottedMatches(c, q, rule, n, m);
      KqlStrings.LoopStep(g, q, rule, DottedLetters(), n, map[], [], vals);
    }
  }

  lemma FirstDot(q: string, pos: nat, t: string) returns (k: nat)
    requires Reads(q, pos, t) && IsKey(t) && !Letters(t)
    ensures 0 < k < |t| && Letters(t[..k]) && IsKey(t[k + 1..])
    ensures Reads(q, pos, t[..k]) && Reads(q, pos + k + 1, t[k + 1..]) && pos + k < |q| && q[pos + k] == '.'
  {
    hide Letters;
    k :| 0 < k < |t| && t[k] == '.' && Letters(t[..k]) && IsKey(t[k + 1..]);
    KeySplits(q, pos, t, k);
  }


  lemma KeySplits(q: string, pos: nat, t: string, k: nat)
    requires Reads(q, pos, t) && k < |t|
    ensures Reads(q, pos, t[..k]) && Reads(q, pos + k + 1, t[k + 1..]) && pos + k < |q| && q[pos + k] == t[k]
  {
    assert t == t[..k] + ([t[k]] + t[k + 1..]);
    ReadsParts(q, pos, t[..k], [t[k]] + t[k + 1..]);
    ReadsParts(q, pos + k, [t[k]], t[k + 1..]);
  }

  lemma DottedFails(c: Conversions, q: string, rule: Rule, pos: nat)
    requires WellFormed(Kql(c)) && WellFormedExpr(Kql(c), DottedLetters()) && pos <= |q| && KeyEnd(At(q, pos))
    ensures Eval(Kql(c), q, rule, DottedLetters(), pos, map[], []) == Failure([])
  {
    assert CannotStart(DottedLetters(), At(q, pos));
    hide WellFormed, Kql, DottedLetters, CannotStart;
    CannotStartFails(c, q, rule, DottedLetters(), pos, map[], []);
  }

  /** A key, up to something else, is matched whole. */
  lemma KeyMatches(c: Conversions, q: string, rule: Rule, pos: nat, t: string)
    requires WellFormed(Kql(c)) && Reads(q, pos, t) && IsKey(t) && KeyEnd(At(q, pos + |t|))
    ensures WellFormedExpr(Kql(c), Key()) && Eval(Kql(c), q, rule, Key(), pos, map[], []) == Success(Text(t), pos + |t|, map[], [])
  {
    hide WellFormed, WellFormedExpr, MayBeEmpty, Eval, EvalLoop, Kql, Char, DottedLetters, Key;
    var n := KeyRun(c, q, rule, pos, t, []);
    CharFacts(c);
    RepetitionsUnfold(Kql(c), q, rule, DottedLetters(), n, map[], []);
    KeyIs(c, q, rule, pos);
  }

  lemma CharFacts(c: Conversions)
    ensures WellFormedExpr(Kql(c), Char()) && !MayBeEmpty(Kql(c), Char()) && WellFormedExpr(Kql(c), OneOrMore(Char()))
    ensures WellFormedExpr(Kql(c), DottedLetters()) && !MayBeEmpty(Kql(c), DottedLetters())
    ensures WellFormedExpr(Kql(c), ZeroOrMore(DottedLetters())) && WellFormedExpr(Kql(c), Key())
  {
    var g := Kql(c);
    hide Token, Fine, Char, Key, WellFormedExpr, MayBeEmpty;
    Leaves(g);
    Wrappers(g);
    SmallTokens(g);
    Token2(g, Lit("."), OneOrMore(Char()));
    FineIs(g, ZeroOrMore(DottedLetters()));
    TokenIs(g, Char());
    TokenIs(g, OneOrMore(Char()));
    TokenIs(g, DottedLetters());
    TokenIs(g, Key());
  }

  lemma FineIs(g: Grammar<Rule, Built>, e: KqlExpr)
    requires Fine(g, e)
    ensures WellFormedExpr(g, e)
  {}

  lemma TokenIs(g: Grammar<Rule, Built>, e: KqlExpr)
    requires Token(g, e)
    ensures WellFormedExpr(g, e) && !MayBeEmpty(g, e)
  {}

  lemma CharTakes(c: Conversions, q: string, rule: Rule, pos: nat)
    requires WellFormed(Kql(c)) && WellFormedExpr(Kql(c), Char()) && pos < |q| && IsLetter(q[pos])
    ensures Takes(c, q, rule, Char(), pos)
  {
    hide WellFormed, Kql;
    var ranges := [('A', 'Z'), ('a', 'z')];
    assert (ranges[0].0 <= q[pos] <= ranges[0].1) || (ranges[1].0 <= q[pos] <= ranges[1].1);
    assert InClass(q[pos], [], ranges);
    ActionText(c, q, rule, CharClass([], ranges, false), pos, map[], []);
  }

  lemma CharFails(c: Conversions, q: string, rule: Rule, pos: nat)
    requires WellFormed(Kql(c)) && WellFormedExpr(Kql(c), Char()) && pos <= |q|
    requires At(q, pos).None? || !IsLetter(At(q, pos).value)
    ensures Eval(Kql(c), q, rule, Char(), pos, map[], []) == Failure([])
  {
    hide WellFormed, Kql;
    CannotStartFails(c, q, rule, Char(), pos, map[], []);
  }

  lemma KeyIs(c: Conversions, q: string, rule: Rule, pos: nat)
    requires WellFormed(Kql(c)) && pos <= |q| && WellFormedExpr(Kql(c), Key())
    requires WellFormedExpr(Kql(c), OneOrMore(Char())) && WellFormedExpr(Kql(c), ZeroOrMore(DottedLetters()))
    requires var first := Eval(Kql(c), q, rule, OneOrMore(Char()), pos, map[], []);
      && first.Success? && first.env == map[] && first.errs == []
      && var rest := Eval(Kql(c), q, rule, ZeroOrMore(DottedLetters()), first.pos, map[], []);
         rest.Success? && rest.env == map[] && rest.errs == []
    ensures var p := Eval(Kql(c), q, rule, OneOrMore(Char()), pos, map[], []).pos;
      var p' := Eval(Kql(c), q, rule, ZeroOrMore(DottedLetters()), p, map[], []).pos;
      Eval(Kql(c), q, rule, Key(), pos, map[], []) == Success(Text(q[pos..p']), p', map[], [])
  {
    var a, b := OneOrMore(Char()), ZeroOrMore(DottedLetters());
    assert Key() == Action(Seq([a, b]), RETURN_TEXT);
    ActionParts(Kql(c), Seq([a, b]), RETURN_TEXT);
    hide WellFormed, WellFormedExpr, Eval, EvalSeq, Kql, Key, Char, DottedLetters;
    EvalIsSeq(Kql(c), q, rule, [a, b], pos, map[], []);
    assert [a, b] == [a] + ([b] + []);
    KqlStrings.SeqStep(Kql(c), q, rule, b, [], pos, map[], [], []);
    KqlStrings.SeqStep(Kql(c), q, rule, a, [b] + [], pos, map[], [], []);
    var o1 := Eval(Kql(c), q, rule, a, pos, map[], []);
    KqlStrings.SeqStep(Kql(c), q, rule, b, [], o1.pos, map[], [], [] + [o1.val]);
    var o2 := Eval(Kql(c), q, rule, b, o1.pos, map[], []);
    EvalNoSeq(Kql(c), q, rule, o2.pos, map[], [], [] + [o1.val] + [o2.val]);
    ActionText(c, q, rule, Seq([a, b]), pos, map[], []);
  }

  // ----- alternatives that fail behind a key -----

  /** A sequence whose first part matches and whose rest cannot start there. */
  lemma SeqFailsBehind(c: Conversions, q: string, rule: Rule, e: KqlExpr, rest: seq<KqlExpr>, run: nat, pos: nat)
    requires WellFormed(Kql(c)) && pos <= |q| && WellFormedExpr(Kql(c), Action(Seq([e] + rest), run))
    requires WellFormedExpr(Kql(c), e) && forall k :: 0 <= k < |rest| ==> WellFormedExpr(Kql(c), rest[k])
    requires var o := Eval(Kql(c), q, rule, e, pos, map[], []);
      o.Success? && o.errs == [] && SeqCannotStart(rest, At(q, o.pos))
    ensures Eval(Kql(c), q, rule, Action(Seq([e] + rest), run), pos, map[], []) == Failure([])
  {
    ActionMembers(Kql(c), [e] + rest, run);
    hide WellFormed, WellFormedExpr, Eval, EvalSeq, Kql, SeqCannotStart;
    EvalIsSeq(Kql(c), q, rule, [e] + rest, pos, map[], []);
    KqlStrings.SeqStep(Kql(c), q, rule, e, rest, pos, map[], [], []);
    var o := Eval(Kql(c), q, rule, e, pos, map[], []);
    SeqFails(c, q, rule, rest, o.pos, o.env, [], [] + [o.val]);
    ActionFails(c, q, rule, Seq([e] + rest), run, pos);
  }

  lemma ActionFails(c: Conversions, q: string, rule: Rule, e: KqlExpr, run: nat, pos: nat)
    requires WellFormed(Kql(c)) && pos <= |q| && WellFormedExpr(Kql(c), e) && WellFormedExpr(Kql(c), Action(e, run))
    requires Eval(Kql(c), q, rule, e, pos, map[], []) == Failure([])
    ensures Eval(Kql(c), q, rule, Action(e, run), pos, map[], []) == Failure([])
  {
    hide WellFormed, WellFormedExpr;
  }

  lemma LabeledMatches(g: Grammar<Rule, Built>, q: string, rule: Rule, name: string, e: KqlExpr, pos: nat, env: Env<Built>)
    requires WellFormed(g) && pos <= |q| && WellFormedExpr(g, e) && name != ""
    requires Eval(g, q, rule, e, pos, map[], []).Success?
    ensures WellFormedExpr(g, Labeled(name, e))
    ensures var o := Eval(g, q, rule, e, pos, map[], []);
      Eval(g, q, rule, Labeled(name, e), pos, env, []) == Success(o.val, o.pos, env[name := o.val], o.errs)
  {
    hide WellFormed;
  }

  /** The operators of the restrictions cannot start where a key stops. */
  lemma OperatorsStop(ch: Option<char>)
    requires KeyStop(ch)
    ensures CannotStart(ColonOrEqual(), ch) && CannotStart(EqualOrColon(), ch) && CannotStart(Op("="), ch) && CannotStart(Op(":"), ch)
  {}

  lemma ComparisonsStop(ch: Option<char>)
    requires KeyStop(ch)
    ensures CannotStart(Labeled("o", Choice([Op(">="), Op("<="), Op(">"), Op("<"), Op("="), Op(":")])), ch)
    ensures CannotStart(Labeled("o", Choice([Op(">="), Op("<="), Op(">"), Op("<")])), ch)
  {
    ComparisonOpsStop(ch);
    OperatorsStop(ch);
    hide Op;
    var es := [Op(">="), Op("<="), Op(">"), Op("<"), Op("="), Op(":")];
    assert forall k :: 0 <= k < |es| ==> CannotStart(es[k], ch);
    var fs := [Op(">="), Op("<="), Op(">"), Op("<")];
    assert forall k :: 0 <= k < |fs| ==> CannotStart(fs[k], ch);
    hide CannotStart;
    ChoiceStops("o", es, ch);
    ChoiceStops("o", fs, ch);
  }

  lemma ComparisonOpsStop(ch: Option<char>)
    requires ch.None? || (ch.value != '<' && ch.value != '>')
    ensures CannotStart(Op(">="), ch) && CannotStart(Op("<="), ch) && CannotStart(Op(">"), ch) && CannotStart(Op("<"), ch)
  {}

  lemma ChoiceStops(name: string, es: seq<KqlExpr>, ch: Option<char>)
    requires forall k :: 0 <= k < |es| ==> CannotStart(es[k], ch)
    ensures CannotStart(Labeled(name, Choice(es)), ch) && CannotStart(Choice(es), ch)
  {}

  /** What stands behind the key in each of the six restrictions. */
  function BehindKey(k: nat): seq<KqlExpr>
    requires k < 6
  {
    NodeChoices()[k].expr.exprs[1..]
  }

  lemma KeyedAre(k: nat)
    requires k < 6
    ensures var e := NodeChoices()[k];
      && e.Action? && e.expr.Seq? && e == Action(Seq([Labeled("k", Key())] + BehindKey(k)), e.run)
      && |BehindKey(k)| >= 2
    ensures BehindKey(k)[0] ==
      [ColonOrEqual(), Labeled("o", Choice([Op(">="), Op("<="), Op(">"), Op("<"), Op("="), Op(":")])), EqualOrColon(),
       Labeled("o", Choice([Op(">="), Op("<="), Op(">"), Op("<")])), Op("="), Op(":")][k]
  {
    hide Key, WholeValue, AnyDateTime, NaturalLanguage, Number, ColonOrEqual, EqualOrColon, ValueEnd, String, Op, NoneOf, AndOperator,
      NotOperator, Phrase, Word;
    var es := NodeChoices()[k].expr.exprs;
    assert es == [es[0]] + es[1..];
  }

  lemma KeyedMembers(c: Conversions, k: nat)
    requires k < 6
    ensures WellFormedExpr(Kql(c), NodeChoices()[k]) && WellFormedExpr(Kql(c), Labeled("k", Key())) && WellFormedExpr(Kql(c), Key())
    ensures forall j :: 0 <= j < |BehindKey(k)| ==> WellFormedExpr(Kql(c), BehindKey(k)[j])
  {
    NodeChoicesAreTokens(Kql(c));
    KeyedAre(k);
    hide NodeChoices, WellFormedExpr, Key, Kql;
    var e := NodeChoices()[k];
    TokenIsWellFormed(Kql(c), e);
    var es := [Labeled("k", Key())] + BehindKey(k);
    ActionMembers(Kql(c), es, e.run);
    assert es[0] == Labeled("k", Key());
    LabeledMember(Kql(c), "k", Key());
    forall j | 0 <= j < |BehindKey(k)| ensures WellFormedExpr(Kql(c), BehindKey(k)[j]) {
      assert es[j + 1] == BehindKey(k)[j];
    }
  }

  lemma BehindKeyStops(k: nat, ch: Option<char>)
    requires k < 6 && KeyStop(ch)
    ensures SeqCannotStart(BehindKey(k), ch)
  {
    hide CannotStart, NodeChoices, BehindKey, Op, ColonOrEqual, EqualOrColon, KeyStop;
    KeyedAre(k);
    OperatorsStop(ch);
    ComparisonsStop(ch);
    assert CannotStart(BehindKey(k)[0], ch);
  }

  /** A word that no operator follows is not the key of a restriction. */
  lemma RestrictionFailsBehind(c: Conversions, q: string, k: nat, pos: nat, t: string)
    requires WellFormed(Kql(c)) && k < 6 && Reads(q, pos, t) && IsKey(t) && KeyStop(At(q, pos + |t|))
    ensures WellFormedExpr(Kql(c), NodeChoices()[k]) && Eval(Kql(c), q, NodeRule, NodeChoices()[k], pos, map[], []) == Failure([])
  {
    hide WellFormed, WellFormedExpr, Eval, Kql, Key, NodeChoices, BehindKey, CannotStart, SeqCannotStart, IsKey, KeyStop, Op,
      ColonOrEqual, EqualOrColon;
    LastChoices();
    KeyedAre(k);
    KeyedMembers(c, k);
    BehindKeyStops(k, At(q, pos + |t|));
    KeyStopEnds(At(q, pos + |t|));
    KeyMatches(c, q, NodeRule, pos, t);
    LabeledMatches(Kql(c), q, NodeRule, "k", Key(), pos, map[]);
    SeqFailsBehind(c, q, NodeRule, Labeled("k", Key()), BehindKey(k), NodeChoices()[k].run, pos);
  }

  lemma OptionMatches(g: Grammar<Rule, Built>, q: string, rule: Rule, e: KqlExpr, pos: nat)
    requires WellFormed(g) && pos <= |q| && WellFormedExpr(g, e) && Eval(g, q, rule, e, pos, map[], []).Success?
    ensures WellFormedExpr(g, ZeroOrOne(e))
    ensures var o := Eval(g, q, rule, e, pos, map[], []);
      Eval(g, q, rule, ZeroOrOne(e), pos, map[], []) == Success(o.val, o.pos, map[], o.errs)
  {
    hide WellFormed;
  }

  /** Nor is it the key of a group. */
  lemma GroupFailsBehind(c: Conversions, q: string, pos: nat, t: string)
    requires WellFormed(Kql(c)) && Reads(q, pos, t) && IsKey(t) && KeyStop(At(q, pos + |t|))
    ensures WellFormedExpr(Kql(c), Body(GroupNodeRule))
    ensures Eval(Kql(c), q, GroupNodeRule, Body(GroupNodeRule), pos, map[], []) == Failure([])
  {
    hide *;
    KeyReaches(c, q, pos, t);
    NoGroupBehind(At(q, pos + |t|));
    GroupRest(c);
    SeqFailsBehind(c, q, GroupNodeRule, Labeled("k", ZeroOrOne(Key())), GroupExprs()[1..], BUILD_GROUP, pos);
  }

  /** The optional key of a group takes the word. */
  lemma KeyReaches(c: Conversions, q: string, pos: nat, t: string)
    requires WellFormed(Kql(c)) && Reads(q, pos, t) && IsKey(t) && KeyStop(At(q, pos + |t|))
    ensures pos + |t| <= |q| && WellFormedExpr(Kql(c), Labeled("k", ZeroOrOne(Key())))
    ensures var o := Eval(Kql(c), q, GroupNodeRule, Labeled("k", ZeroOrOne(Key())), pos, map[], []);
      o.Success? && o.pos == pos + |t| && o.errs == []
  {
    hide WellFormed, WellFormedExpr, Eval, Kql, Key, IsKey, KeyStop;
    KeyStopEnds(At(q, pos + |t|));
    KeyMatches(c, q, GroupNodeRule, pos, t);
    OptionMatches(Kql(c), q, GroupNodeRule, Key(), pos);
    LabeledMatches(Kql(c), q, GroupNodeRule, "k", ZeroOrOne(Key()), pos, map[]);
  }

  lemma GroupRest(c: Conversions)
    ensures WellFormedExpr(Kql(c), Body(GroupNodeRule)) && |GroupExprs()| == 5
    ensures Body(GroupNodeRule) == Action(Seq([Labeled("k", ZeroOrOne(Key()))] + GroupExprs()[1..]), BUILD_GROUP)
    ensures forall k :: 0 <= k < |GroupExprs()[1..]| ==> WellFormedExpr(Kql(c), GroupExprs()[1..][k])
    ensures WellFormedExpr(Kql(c), Labeled("k", ZeroOrOne(Key())))
  {
    hide WellFormedExpr, Kql, Key, Body, ColonOrEqual;
    GroupBody(c);
    var es := GroupExprs();
    assert es == [es[0]] + es[1..] && es[0] == Labeled("k", ZeroOrOne(Key()));
    assert forall k :: 0 <= k < |es[1..]| ==> es[1..][k] == es[k + 1];
  }

  /** Where no key starts, no group starts. */
  lemma GroupFailsKeyless(c: Conversions, q: string, pos: nat)
    requires WellFormed(Kql(c)) && pos <= |q| && Keyless(At(q, pos))
    ensures WellFormedExpr(Kql(c), Body(GroupNodeRule))
    ensures Eval(Kql(c), q, GroupNodeRule, Body(GroupNodeRule), pos, map[], []) == Failure([])
  {
    hide *;
    GroupRest(c);
    GroupCannotStart(At(q, pos));
    CannotStartFails(c, q, GroupNodeRule, Body(GroupNodeRule), pos, map[], []);
  }

  lemma KeyStopEnds(ch: Option<char>)
    requires KeyStop(ch)
    ensures KeyEnd(ch)
  {}

  lemma NoGroupBehind(ch: Option<char>)
    requires KeyStop(ch)
    ensures SeqCannotStart(GroupExprs()[1..], ch)
  {
    var es := GroupExprs()[1..];
    ColonOrEqualSkips(ch);
    assert es[0] == ZeroOrOne(ColonOrEqual()) && es[1..][0] == Lit("(");
    assert CannotStart(es[1..][0], ch);
    hide ColonOrEqual, CannotStart, Skips, GroupExprs;
    assert SeqCannotStart(es[1..], ch);
  }

  // ----- an alternative of the Node rule -----

  lemma {:induction false} ChoicePicks(c: Conversions, q: string, rule: Rule, es: seq<KqlExpr>, n: nat, pos: nat, env: Env<Built>)
    requires WellFormed(Kql(c)) && pos <= |q| && n < |es| && forall k :: 0 <= k < |es| ==> WellFormedExpr(Kql(c), es[k])
    requires forall k :: 0 <= k < n ==> Eval(Kql(c), q, rule, es[k], pos, map[], []) == Failure([])
    requires Eval(Kql(c), q, rule, es[n], pos, map[], []).Success?
    ensures var o := Eval(Kql(c), q, rule, es[n], pos, map[], []);
      EvalChoice(Kql(c), q, rule, es, pos, env, []) == Success(o.val, o.pos, env, o.errs)
    decreases n
  {
    hide WellFormed, WellFormedExpr, Eval, Kql;
    if n > 0 {
      assert Eval(Kql(c), q, rule, es[0], pos, map[], []) == Failure([]);
      ChoicePicks(c, q, rule, es[1..], n - 1, pos, env);
    }
  }

  /** The first alternative that matches, where no group does. */
  lemma NodePicks(c: Conversions, q: string, n: nat, pos: nat)
    requires WellFormed(Kql(c)) && pos <= |q| && n < |NodeChoices()| && WellFormedExpr(Kql(c), Body(GroupNodeRule))
    requires forall k :: 0 <= k < |NodeChoices()| ==> WellFormedExpr(Kql(c), NodeChoices()[k])
    requires Eval(Kql(c), q, GroupNodeRule, Body(GroupNodeRule), pos, map[], []) == Failure([])
    requires forall k :: 0 <= k < n ==> Eval(Kql(c), q, NodeRule, NodeChoices()[k], pos, map[], []) == Failure([])
    requires Eval(Kql(c), q, NodeRule, NodeChoices()[n], pos, map[], []).Success?
    ensures WellFormedExpr(Kql(c), RuleRef(NodeRule))
    ensures var o := Eval(Kql(c), q, NodeRule, NodeChoices()[n], pos, map[], []);
      Eval(Kql(c), q, NodesRule, RuleRef(NodeRule), pos, map[], []) == Success(o.val, o.pos, map[], o.errs)
  {
    var es := [RuleRef(GroupNodeRule)] + NodeChoices();
    KqlBodies(c);
    NodeAlternatives(c);
    hide WellFormed, WellFormedExpr, Eval, EvalChoice, Kql, Body, NodeChoices;
    RefUnfolds(c, q, NodeRule, GroupNodeRule, pos, map[]);
    RefUnfolds(c, q, NodesRule, NodeRule, pos, map[]);
    EvalIsChoice(Kql(c), q, NodeRule, es, pos, map[], []);
    assert forall k :: 0 < k < |es| ==> es[k] == NodeChoices()[k - 1];
    ChoicePicks(c, q, NodeRule, es, n + 1, pos, map[]);
  }

  /** Nothing matches. */
  lemma NodeFails(c: Conversions, q: string, pos: nat)
    requires WellFormed(Kql(c)) && pos <= |q| && (At(q, pos) == None || At(q, pos) == Some(')'))
    ensures WellFormedExpr(Kql(c), RuleRef(NodeRule)) && Eval(Kql(c), q, NodesRule, RuleRef(NodeRule), pos, map[], []) == Failure([])
  {
    var es := [RuleRef(GroupNodeRule)] + NodeChoices();
    KqlBodies(c);
    hide WellFormed, WellFormedExpr, Eval, EvalChoice, Kql, Body, NodeChoices, CannotStart;
    NodeAlternatives(c);
    NodeCannotStart(At(q, pos));
    GroupFailsKeyless(c, q, pos);
    RefUnfolds(c, q, NodeRule, GroupNodeRule, pos, map[]);
    RefUnfolds(c, q, NodesRule, NodeRule, pos, map[]);
    EvalIsChoice(Kql(c), q, NodeRule, es, pos, map[], []);
    assert es[1..] == NodeChoices();
    ChoiceFails(c, q, NodeRule, es[1..], pos, map[], []);
    EvalChoiceStep(Kql(c), q, NodeRule, es, 0, pos, map[], []);
    assert es[0..] == es;
  }

  lemma ChoicesAreWellFormed(c: Conversions)
    ensures forall k :: 0 <= k < |NodeChoices()| ==> WellFormedExpr(Kql(c), NodeChoices()[k])
  {
    NodeChoicesAreTokens(Kql(c));
    hide NodeChoices;
    forall k | 0 <= k < |NodeChoices()| ensures WellFormedExpr(Kql(c), NodeChoices()[k]) {
      TokenIsWellFormed(Kql(c), NodeChoices()[k]);
    }
  }

  /** Where no key starts, only operators and free text can. */
  lemma KeylessPicks(c: Conversions, q: string, n: nat, pos: nat)
    requires WellFormed(Kql(c)) && pos <= |q| && 6 <= n < |NodeChoices()| && WellFormedExpr(Kql(c), NodeChoices()[n])
    requires Keyless(At(q, pos)) && forall k :: 6 <= k < n ==> CannotStart(NodeChoices()[k], At(q, pos))
    requires Eval(Kql(c), q, NodeRule, NodeChoices()[n], pos, map[], []).Success?
    ensures WellFormedExpr(Kql(c), RuleRef(NodeRule))
    ensures var o := Eval(Kql(c), q, NodeRule, NodeChoices()[n], pos, map[], []);
      Eval(Kql(c), q, NodesRule, RuleRef(NodeRule), pos, map[], []) == Success(o.val, o.pos, map[], o.errs)
  {
    hide WellFormed, WellFormedExpr, Eval, Kql, Body, NodeChoices, CannotStart, Keyless;
    RestrictionsCannotStart(At(q, pos));
    ChoicesAreWellFormed(c);
    GroupFailsKeyless(c, q, pos);
    forall k | 0 <= k < n ensures Eval(Kql(c), q, NodeRule, NodeChoices()[k], pos, map[], []) == Failure([]) {
      CannotStartFails(c, q, NodeRule, NodeChoices()[k], pos, map[], []);
    }
    NodePicks(c, q, n, pos);
  }

  /** A word that is no key, so that only operators and free text are left. */
  lemma WordPicks(c: Conversions, q: string, n: nat, pos: nat, t: string)
    requires WellFormed(Kql(c)) && 6 <= n < |NodeChoices()| && WellFormedExpr(Kql(c), NodeChoices()[n])
    requires Reads(q, pos, t) && IsKey(t) && KeyStop(At(q, pos + |t|))
    requires forall k :: 6 <= k < n ==> WellFormedExpr(Kql(c), NodeChoices()[k])
    requires forall k :: 6 <= k < n ==> Eval(Kql(c), q, NodeRule, NodeChoices()[k], pos, map[], []) == Failure([])
    requires Eval(Kql(c), q, NodeRule, NodeChoices()[n], pos, map[], []).Success?
    ensures WellFormedExpr(Kql(c), RuleRef(NodeRule))
    ensures var o := Eval(Kql(c), q, NodeRule, NodeChoices()[n], pos, map[], []);
      Eval(Kql(c), q, NodesRule, RuleRef(NodeRule), pos, map[], []) == Success(o.val, o.pos, map[], o.errs)
  {
    hide WellFormed, WellFormedExpr, Eval, Kql, Body, NodeChoices, IsKey, KeyStop;
    ChoicesAreWellFormed(c);
    GroupFailsBehind(c, q, pos, t);
    forall k | 0 <= k < n ensures Eval(Kql(c), q, NodeRule, NodeChoices()[k], pos, map[], []) == Failure([]) {
      if k < 6 {
        RestrictionFailsBehind(c, q, k, pos, t);
      }
    }
    NodePicks(c, q, n, pos);
  }

  // ----- operators -----

  lemma LitMatches(g: Grammar<Rule, Built>, q: string, rule: Rule, t: string, pos: nat, env: Env<Built>)
    requires WellFormed(g) && Reads(q, pos, t) && WellFormedExpr(g, Lit(t))
    ensures Eval(g, q, rule, Lit(t), pos, env, []) == Success(Text(t), pos + |t|, env, [])
  {
    hide WellFormed;
  }

  /** The node of a sign, or of a restriction's operator. */
  function SignNode(t: string): Node {
    OperatorNode(if t == "+" then AND else if t == "-" then NOT else t, false)
  }

  lemma SignRuns(c: Conversions, t: string, env: Env<Built>)
    ensures Run(c, BUILD_OPERATOR, env, t) == Returned(Built(One(SignNode(t))), None)
  {}

  lemma SignActs(c: Conversions, q: string, e: KqlExpr, t: string, pos: nat, env: Env<Built>)
    requires WellFormed(Kql(c)) && WellFormedExpr(Kql(c), e) && WellFormedExpr(Kql(c), Action(e, BUILD_OPERATOR))
    requires pos + |t| <= |q| && q[pos..pos + |t|] == t
    requires Eval(Kql(c), q, NodeRule, e, pos, env, []) == Success(Text(t), pos + |t|, env, [])
    ensures Eval(Kql(c), q, NodeRule, Action(e, BUILD_OPERATOR), pos, env, []) == Success(Built(One(SignNode(t))), pos + |t|, env, [])
  {
    hide *;
    SignRuns(c, t, env);
    ActionRuns(c, q, NodeRule, e, BUILD_OPERATOR, pos, env, Built(One(SignNode(t))));
  }

  /** An action that reports no error. */
  lemma ActionRuns(c: Conversions, q: string, rule: Rule, e: KqlExpr, run: nat, pos: nat, env: Env<Built>, v: KqlValue)
    requires WellFormed(Kql(c)) && pos <= |q| && WellFormedExpr(Kql(c), e) && WellFormedExpr(Kql(c), Action(e, run))
    requires var o := Eval(Kql(c), q, rule, e, pos, env, []);
      o.Success? && o.errs == [] && Run(c, run, o.env, q[pos..o.pos]) == Returned(v, None)
    ensures var o := Eval(Kql(c), q, rule, e, pos, env, []);
      Eval(Kql(c), q, rule, Action(e, run), pos, env, []) == Success(v, o.pos, o.env, [])
  {
    hide WellFormed, WellFormedExpr, Run;
    var o := Eval(Kql(c), q, rule, e, pos, env, []);
    assert [] + Reported(Run(c, run, o.env, q[pos..o.pos]), Point(q, pos), rule) == [];
  }

  lemma OpMatches(c: Conversions, q: string, rule: Rule, t: string, pos: nat, env: Env<Built>)
    requires WellFormed(Kql(c)) && Reads(q, pos, t) && WellFormedExpr(Kql(c), Op(t))
    ensures Eval(Kql(c), q, rule, Op(t), pos, env, []) == Success(Built(One(SignNode(t))), pos + |t|, env, [])
  {
    hide WellFormed;
    SignRuns(c, t, env);
  }

  lemma EitherMatches(c: Conversions, q: string, a: string, b: string, t: string, pos: nat)
    requires WellFormed(Kql(c)) && Reads(q, pos, t) && a != "" && b != "" && a[0] != b[0] && (t == a || t == b)
    requires WellFormedExpr(Kql(c), Lit(a)) && WellFormedExpr(Kql(c), Lit(b)) && WellFormedExpr(Kql(c), Choice([Lit(a), Lit(b)]))
    ensures Eval(Kql(c), q, NodeRule, Choice([Lit(a), Lit(b)]), pos, map[], []) == Success(Text(t), pos + |t|, map[], [])
  {
    ReadsAt(q, pos, t);
    hide WellFormed, WellFormedExpr, Kql, Eval, EvalChoice, Reads;
    LitMatches(Kql(c), q, NodeRule, t, pos, map[]);
    var es := [Lit(a), Lit(b)];
    EvalIsChoice(Kql(c), q, NodeRule, es, pos, map[], []);
    if t == a {
      ChoicePicks(c, q, NodeRule, es, 0, pos, map[]);
    } else {
      CannotStartFails(c, q, NodeRule, Lit(a), pos, map[], []);
      ChoicePicks(c, q, NodeRule, es, 1, pos, map[]);
    }
  }

  lemma SignParts(c: Conversions)
    ensures var g := Kql(c);
      && WellFormedExpr(g, AndOperator()) && WellFormedExpr(g, NotOperator()) && WellFormedExpr(g, Op("OR"))
      && WellFormedExpr(g, Lit("AND")) && WellFormedExpr(g, Lit("+")) && WellFormedExpr(g, Lit("NOT")) && WellFormedExpr(g, Lit("-"))
      && WellFormedExpr(g, Choice([Lit("AND"), Lit("+")])) && WellFormedExpr(g, Choice([Lit("NOT"), Lit("-")]))
      && WellFormedExpr(g, Op(":")) && WellFormedExpr(g, Op("="))
  {}

  lemma AndMatches(c: Conversions, q: string, t: string, pos: nat)
    requires WellFormed(Kql(c)) && Reads(q, pos, t) && (t == "AND" || t == "+")
    ensures WellFormedExpr(Kql(c), AndOperator())
    ensures Eval(Kql(c), q, NodeRule, AndOperator(), pos, map[], []) == Success(Built(One(SignNode(t))), pos + |t|, map[], [])
  {
    SignParts(c);
    hide WellFormed, WellFormedExpr, Kql, Eval;
    EitherMatches(c, q, "AND", "+", t, pos);
    SignActs(c, q, Choice([Lit("AND"), Lit("+")]), t, pos, map[]);
  }

  lemma NotMatches(c: Conversions, q: string, t: string, pos: nat)
    requires WellFormed(Kql(c)) && Reads(q, pos, t) && (t == "NOT" || t == "-")
    ensures WellFormedExpr(Kql(c), NotOperator())
    ensures Eval(Kql(c), q, NodeRule, NotOperator(), pos, map[], []) == Success(Built(One(SignNode(t))), pos + |t|, map[], [])
  {
    SignParts(c);
    hide WellFormed, WellFormedExpr, Kql, Eval;
    EitherMatches(c, q, "NOT", "-", t, pos);
    SignActs(c, q, Choice([Lit("NOT"), Lit("-")]), t, pos, map[]);
  }

  // ----- free text -----

  lemma ColonSkips(c: Conversions, q: string, pos: nat, env: Env<Built>)
    requires WellFormed(Kql(c)) && pos <= |q| && At(q, pos) != Some(':')
    ensures WellFormedExpr(Kql(c), ZeroOrOne(Op(":")))
    ensures var o := Eval(Kql(c), q, NodeRule, ZeroOrOne(Op(":")), pos, env, []);
      o.Success? && o.pos == pos && o.env == env && o.errs == []
  {
    OptionalsSkip(At(q, pos));
    SignParts(c);
    hide WellFormed, Kql, Eval, Op;
    SkipsConsumesNothing(c, q, NodeRule, ZeroOrOne(Op(":")), pos, env, []);
  }

  /** Free text takes its value and all blanks behind it. */
  lemma FreeTextSeq(c: Conversions, q: string, v: KqlExpr, pos: nat, p2: nat, b: string, val: KqlValue)
    requires WellFormed(Kql(c)) && pos <= p2 <= |q| && WellFormedExpr(Kql(c), FreeText(v)) && WellFormedExpr(Kql(c), v)
    requires NotBlank(At(q, pos)) && At(q, pos) != Some(':')
    requires var o := Eval(Kql(c), q, NodeRule, v, pos, map[], []); o.Success? && o.val == val && o.pos == p2 && o.errs == []
    requires Reads(q, p2, b) && Blanks(b) && NotBlank(At(q, p2 + |b|)) && At(q, p2 + |b|) != Some(':')
    ensures WellFormedExpr(Kql(c), FreeText(v).expr)
    ensures var o := Eval(Kql(c), q, NodeRule, FreeText(v).expr, pos, map[], []);
      o.Success? && o.pos == p2 + |b| && o.env == map["v" := val] && o.errs == []
  {
    var g, r, colon, blank, text := Kql(c), NodeRule, ZeroOrOne(Op(":")), Blank(), Labeled("v", v);
    var es := [colon, blank, text, blank, colon];
    hide *;
    FreeTextShape(v);
    FreeTextParts(c, v, es);
    assert es == [colon] + ([blank] + ([text] + ([blank] + ([colon] + []))));
    EvalIsSeq(g, q, r, es, pos, map[], []);
    OnlyLabel("v", val);
    var vals := BeforeMatches(c, q, [text] + ([blank] + ([colon] + [])), pos);
    LabeledMatches(g, q, r, "v", v, pos, map[]);
    KqlStrings.SeqStep(g, q, r, text, [blank] + ([colon] + []), pos, map[], [], vals);
    AfterMatches(c, q, p2, b, map["v" := val], vals + [val]);
  }

  lemma BeforeMatches(c: Conversions, q: string, rest: seq<KqlExpr>, pos: nat) returns (vals: seq<KqlValue>)
    requires WellFormed(Kql(c)) && pos <= |q| && forall k :: 0 <= k < |rest| ==> WellFormedExpr(Kql(c), rest[k])
    requires NotBlank(At(q, pos)) && At(q, pos) != Some(':')
    requires var es := [ZeroOrOne(Op(":"))] + ([Blank()] + rest); forall k :: 0 <= k < |es| ==> WellFormedExpr(Kql(c), es[k])
    ensures EvalSeq(Kql(c), q, NodeRule, [ZeroOrOne(Op(":"))] + ([Blank()] + rest), pos, map[], [], [])
         == EvalSeq(Kql(c), q, NodeRule, rest, pos, map[], [], vals)
  {
    var g, r, colon, blank := Kql(c), NodeRule, ZeroOrOne(Op(":")), Blank();
    assert Reads(q, pos, "");
    hide *;
    NoBlanks();
    ColonSkips(c, q, pos, map[]);
    assert pos + |""| == pos;
    BlankMatches(c, q, r, pos, "", map[]);
    var v := Eval(g, q, r, colon, pos, map[], []).val;
    vals := [] + [v] + [Nil];
    assert ([colon] + ([blank] + rest))[1..] == [blank] + rest;
    assert forall k :: 0 <= k < |[blank] + rest| ==> ([blank] + rest)[k] == ([colon] + ([blank] + rest))[k + 1];
    KqlStrings.SeqStep(g, q, r, blank, rest, pos, map[], [], [] + [v]);
    KqlStrings.SeqStep(g, q, r, colon, [blank] + rest, pos, map[], [], []);
  }

  lemma AfterMatches(c: Conversions, q: string, pos: nat, b: string, env: Env<Built>, vals: seq<KqlValue>)
    requires WellFormed(Kql(c)) && Reads(q, pos, b) && Blanks(b) && NotBlank(At(q, pos + |b|)) && At(q, pos + |b|) != Some(':')
    requires var es := [Blank()] + ([ZeroOrOne(Op(":"))] + []); forall k :: 0 <= k < |es| ==> WellFormedExpr(Kql(c), es[k])
    ensures var o := EvalSeq(Kql(c), q, NodeRule, [Blank()] + ([ZeroOrOne(Op(":"))] + []), pos, env, [], vals);
      o.Success? && o.pos == pos + |b| && o.env == env && o.errs == []
  {
    var g, r, colon, blank, n := Kql(c), NodeRule, ZeroOrOne(Op(":")), Blank(), pos + |b|;
    assert n <= |q|;
    hide *;
    BlankMatches(c, q, r, pos, b, env);
    ColonSkips(c, q, n, env);
    var v := Eval(g, q, r, colon, n, env, []).val;
    EvalNoSeq(g, q, r, n, env, [], vals + [Nil] + [v]);
    KqlStrings.SeqStep(g, q, r, colon, [], n, env, [], vals + [Nil]);
    KqlStrings.SeqStep(g, q, r, blank, [colon] + [], pos, env, [], vals);
  }

  lemma NoBlanks()
    ensures Blanks("")
  {}

  lemma FreeTextMatches(c: Conversions, q: string, v: KqlExpr, pos: nat, p2: nat, b: string, t: string)
    requires WellFormed(Kql(c)) && pos <= p2 <= |q| && WellFormedExpr(Kql(c), FreeText(v)) && WellFormedExpr(Kql(c), v)
    requires NotBlank(At(q, pos)) && At(q, pos) != Some(':')
    requires var o := Eval(Kql(c), q, NodeRule, v, pos, map[], []);
      o.Success? && ToString(o.val) == Some(t) && o.pos == p2 && o.errs == []
    requires Reads(q, p2, b) && Blanks(b) && NotBlank(At(q, p2 + |b|)) && At(q, p2 + |b|) != Some(':')
    ensures var o := Eval(Kql(c), q, NodeRule, FreeText(v), pos, map[], []);
      o.Success? && o.val == Built(One(StringNode("", t, false))) && o.pos == p2 + |b| && o.errs == []
  {
    hide *;
    var val := Eval(Kql(c), q, NodeRule, v, pos, map[], []).val;
    ReadsThere(q, p2, b);
    FreeTextShape(v);
    FreeTextSeq(c, q, v, pos, p2, b, val);
    FreeTextActs(c, val, t, q[pos..p2 + |b|]);
    ActionRuns(c, q, NodeRule, FreeText(v).expr, BUILD_FREE_STRING, pos, map[], Built(One(StringNode("", t, false))));
  }

  lemma FreeTextActs(c: Conversions, val: KqlValue, t: string, text: string)
    requires ToString(val) == Some(t)
    ensures Run(c, BUILD_FREE_STRING, map["v" := val], text) == Returned(Built(One(StringNode("", t, false))), None)
  {
    EmptyText();
  }

  lemma FreeTextIsWellFormed(c: Conversions)
    ensures WellFormedExpr(Kql(c), Phrase()) && WellFormedExpr(Kql(c), String())
    ensures WellFormedExpr(Kql(c), Word()) && WellFormedExpr(Kql(c), NoneOf(" :()\"")) && !MayBeEmpty(Kql(c), NoneOf(" :()\""))
    ensures WellFormedExpr(Kql(c), OneOrMore(NoneOf(" :()\"")))
  {
    var g := Kql(c);
    hide Token, Fine, String, FreeText;
    SmallTokens(g);
    Leaves(g);
    Wrappers(g);
    FreeTextToken(g, String());
    FreeTextToken(g, OneOrMore(NoneOf(" :()\"")));
    TokenIs(g, Phrase());
    TokenIs(g, String());
    TokenIs(g, Word());
    TokenIs(g, NoneOf(" :()\""));
    TokenIs(g, OneOrMore(NoneOf(" :()\"")));
  }

  lemma QuoteOpens(v: string)
    ensures KqlStrings.Quote(v) != "" && KqlStrings.Quote(v)[0] == '"'
  {}

  /** A quoted value and the blanks behind it. */
  lemma PhraseMatches(c: Conversions, q: string, pos: nat, v: string, b: string)
    requires WellFormed(Kql(c)) && Reads(q, pos, KqlStrings.Quote(v)) && KqlStrings.EndsAt(q, pos + |KqlStrings.Quote(v)|)
    requires var p2 := pos + |KqlStrings.Quote(v)|;
      Reads(q, p2, b) && Blanks(b) && NotBlank(At(q, p2 + |b|)) && At(q, p2 + |b|) != Some(':')
    ensures WellFormedExpr(Kql(c), Phrase())
    ensures var o := Eval(Kql(c), q, NodeRule, Phrase(), pos, map[], []);
      && o.Success? && o.val == Built(One(StringNode("", v, false))) && o.errs == []
      && o.pos == pos + |KqlStrings.Quote(v)| + |b|
  {
    hide WellFormed, WellFormedExpr, Kql, Eval, String, KqlStrings.Quote, ToString, Blanks;
    FreeTextIsWellFormed(c);
    ReadsAt(q, pos, KqlStrings.Quote(v));
    QuoteOpens(v);
    TextIsString(v);
    KqlStrings.StringForward(c, q, NodeRule, pos, map[], [], v);
    FreeTextMatches(c, q, String(), pos, pos + |KqlStrings.Quote(v)|, b, v);
  }

  lemma TextIsString(v: string)
    ensures ToString(Text(v)) == Some(v)
  {}

  /** What ends a word. */
  predicate WordEnd(ch: Option<char>) {
    ch.None? || ch.value in " :()\""
  }

  lemma WordRun(c: Conversions, q: string, pos: nat, t: string)
    requires WellFormed(Kql(c)) && Reads(q, pos, t) && Free(t, " :()\"") && WordEnd(At(q, pos + |t|))
    requires WellFormedExpr(Kql(c), NoneOf(" :()\"")) && !MayBeEmpty(Kql(c), NoneOf(" :()\""))
    requires WellFormedExpr(Kql(c), OneOrMore(NoneOf(" :()\"")))
    ensures var o := Eval(Kql(c), q, NodeRule, OneOrMore(NoneOf(" :()\"")), pos, map[], []);
      o.Success? && o.pos == pos + |t| && ToString(o.val) == Some(t) && o.errs == []
  {
    var e := NoneOf(" :()\"");
    hide WellFormed, Kql, WellFormedExpr, MayBeEmpty, ToString;
    ReadsAt(q, pos, t);
    forall k | pos <= k < pos + |t| ensures Takes(c, q, NodeRule, e, k) {
      assert q[k] == t[k - pos];
      NoneOfTakes(c, q, k);
    }
    CannotStartFails(c, q, NodeRule, e, pos + |t|, map[], []);
    SomeOf(c, q, NodeRule, e, pos, |t|, map[]);
    TextOf(c, q, NodeRule, OneOrMore(e), pos, map[], []);
  }

  lemma NoneOfTakes(c: Conversions, q: string, pos: nat)
    requires WellFormed(Kql(c)) && WellFormedExpr(Kql(c), NoneOf(" :()\"")) && pos < |q| && q[pos] !in " :()\""
    ensures Takes(c, q, NodeRule, NoneOf(" :()\""), pos)
  {
    hide WellFormed, Kql;
  }

  /** A word and the blanks behind it. */
  lemma WordMatches(c: Conversions, q: string, pos: nat, t: string, b: string)
    requires WellFormed(Kql(c)) && Reads(q, pos, t) && Free(t, " :()\"") && t[0] != '\t' && WordEnd(At(q, pos + |t|))
    requires var p2 := pos + |t|; Reads(q, p2, b) && Blanks(b) && NotBlank(At(q, p2 + |b|)) && At(q, p2 + |b|) != Some(':')
    ensures WellFormedExpr(Kql(c), Word())
    ensures var o := Eval(Kql(c), q, NodeRule, Word(), pos, map[], []);
      o.Success? && o.val == Built(One(StringNode("", t, false))) && o.errs == [] && o.pos == pos + |t| + |b|
  {
    FreeTextIsWellFormed(c);
    ReadsAt(q, pos, t);
    hide WellFormed, WellFormedExpr, MayBeEmpty, Kql, Eval, ToString, Blanks, NoneOf;
    WordRun(c, q, pos, t);
    FreeTextMatches(c, q, OneOrMore(NoneOf(" :()\"")), pos, pos + |t|, b, t);
  }

  // ----- sequences and choices -----

  lemma LitFails(g: Grammar<Rule, Built>, q: string, rule: Rule, t: string, pos: nat, env: Env<Built>)
    requires WellFormed(g) && pos <= |q| && WellFormedExpr(g, Lit(t)) && !Reads(q, pos, t)
    ensures Eval(g, q, rule, Lit(t), pos, env, []) == Failure([])
  {
    hide WellFormed;
  }

  lemma NoneMatches(c: Conversions, q: string, es: seq<KqlExpr>, pos: nat)
    requires WellFormed(Kql(c)) && pos <= |q| && |es| == 2 && WellFormedExpr(Kql(c), es[0]) && WellFormedExpr(Kql(c), es[1])
    requires forall k :: 0 <= k < |es| ==> WellFormedExpr(Kql(c), es[k])
    requires Eval(Kql(c), q, NodeRule, es[0], pos, map[], []) == Failure([])
    requires Eval(Kql(c), q, NodeRule, es[1], pos, map[], []) == Failure([])
    ensures EvalChoice(Kql(c), q, NodeRule, es, pos, map[], []) == Failure([])
  {
    hide WellFormed, WellFormedExpr, Kql, Eval, EvalChoice;
    EvalChoiceStep(Kql(c), q, NodeRule, es, 0, pos, map[], []);
    EvalChoiceStep(Kql(c), q, NodeRule, es, 1, pos, map[], []);
    EvalNoChoice(Kql(c), q, NodeRule, pos, map[], []);
    assert es[0..] == es && es[2..] == [];
  }

  /** A sequence whose third part fails. */
  lemma ThirdFails(c: Conversions, q: string, rule: Rule, a: KqlExpr, b: KqlExpr, d: KqlExpr, rest: seq<KqlExpr>, run: nat, pos: nat)
    requires var es := [a] + ([b] + ([d] + rest));
      && WellFormed(Kql(c)) && pos <= |q| && WellFormedExpr(Kql(c), Action(Seq(es), run))
      && WellFormedExpr(Kql(c), a) && WellFormedExpr(Kql(c), b) && WellFormedExpr(Kql(c), d)
      && forall k :: 0 <= k < |rest| ==> WellFormedExpr(Kql(c), rest[k])
    requires var o1 := Eval(Kql(c), q, rule, a, pos, map[], []);
      && o1.Success? && o1.errs == []
      && var o2 := Eval(Kql(c), q, rule, b, o1.pos, o1.env, []);
         o2.Success? && o2.errs == [] && Eval(Kql(c), q, rule, d, o2.pos, o2.env, []) == Failure([])
    ensures Eval(Kql(c), q, rule, Action(Seq([a] + ([b] + ([d] + rest))), run), pos, map[], []) == Failure([])
  {
    hide *;
    var g, es := Kql(c), [a] + ([b] + ([d] + rest));
    ActionMembers(g, es, run);
    assert es[1..] == [b] + ([d] + rest) && es[2..] == [d] + rest;
    assert forall k :: 0 <= k < |es[1..]| ==> es[1..][k] == es[k + 1];
    assert forall k :: 0 <= k < |es[2..]| ==> es[2..][k] == es[k + 2];
    EvalIsSeq(g, q, rule, es, pos, map[], []);
    KqlStrings.SeqStep(g, q, rule, a, [b] + ([d] + rest), pos, map[], [], []);
    var o1 := Eval(g, q, rule, a, pos, map[], []);
    KqlStrings.SeqStep(g, q, rule, b, [d] + rest, o1.pos, o1.env, [], [] + [o1.val]);
    var o2 := Eval(g, q, rule, b, o1.pos, o1.env, []);
    KqlStrings.SeqStep(g, q, rule, d, rest, o2.pos, o2.env, [], [] + [o1.val] + [o2.val]);
    ActionFails(c, q, rule, Seq(es), run, pos);
  }

  lemma LabeledFails(g: Grammar<Rule, Built>, q: string, rule: Rule, name: string, e: KqlExpr, pos: nat, env: Env<Built>)
    requires WellFormed(g) && pos <= |q| && WellFormedExpr(g, e) && Eval(g, q, rule, e, pos, map[], []) == Failure([])
    ensures WellFormedExpr(g, Labeled(name, e)) && Eval(g, q, rule, Labeled(name, e), pos, env, []) == Failure([])
  {
    hide WellFormed;
  }

  /** One of several operators, behind operators that do not stand there. */
  lemma OneOfMatches(c: Conversions, q: string, rule: Rule, ts: seq<string>, n: nat, pos: nat, env: Env<Built>)
    requires WellFormed(Kql(c)) && n < |ts| && Reads(q, pos, ts[n]) && WellFormedExpr(Kql(c), Choice(OpsOf(ts)))
    requires forall k :: 0 <= k < n ==> !Reads(q, pos, ts[k])
    ensures Eval(Kql(c), q, rule, Choice(OpsOf(ts)), pos, env, []) == Success(Built(One(SignNode(ts[n]))), pos + |ts[n]|, env, [])
  {
    var es := OpsOf(ts);
    assert forall k :: 0 <= k < |es| ==> es[k] == Op(ts[k]);
    hide WellFormed, WellFormedExpr, Kql, Eval, EvalChoice, Op, Reads;
    EvalIsChoice(Kql(c), q, rule, es, pos, env, []);
    ReadsThere(q, pos, ts[n]);
    forall k | 0 <= k < n ensures Eval(Kql(c), q, rule, es[k], pos, map[], []) == Failure([]) {
      OpFails(c, q, rule, ts[k], pos, map[]);
    }
    OpMatches(c, q, rule, ts[n], pos, map[]);
    ChoicePicks(c, q, rule, es, n, pos, env);
  }

  lemma OpFails(c: Conversions, q: string, rule: Rule, t: string, pos: nat, env: Env<Built>)
    requires WellFormed(Kql(c)) && pos <= |q| && WellFormedExpr(Kql(c), Op(t)) && !Reads(q, pos, t)
    ensures Eval(Kql(c), q, rule, Op(t), pos, env, []) == Failure([])
  {
    ActionParts(Kql(c), Lit(t), BUILD_OPERATOR);
    hide WellFormed, WellFormedExpr, Kql;
    LitFails(Kql(c), q, rule, t, pos, env);
  }

  lemma SepsAre()
    ensures ColonOrEqual() == Choice(OpsOf([":", "="])) && EqualOrColon() == Choice(OpsOf(["=", ":"]))
  {
    hide Op;
  }

  /** Three parts, one after the other. */
  lemma ThreeMatch(c: Conversions, q: string, es: seq<KqlExpr>, pos: nat)
    requires WellFormed(Kql(c)) && pos <= |q| && |es| == 3 && WellFormedExpr(Kql(c), Seq(es))
    requires WellFormedExpr(Kql(c), es[0]) && WellFormedExpr(Kql(c), es[1]) && WellFormedExpr(Kql(c), es[2])
    requires var o1 := Eval(Kql(c), q, NodeRule, es[0], pos, map[], []);
      && o1.Success? && o1.errs == []
      && var o2 := Eval(Kql(c), q, NodeRule, es[1], o1.pos, o1.env, []);
         && o2.Success? && o2.errs == []
         && var o3 := Eval(Kql(c), q, NodeRule, es[2], o2.pos, o2.env, []); o3.Success? && o3.errs == []
    ensures var o1 := Eval(Kql(c), q, NodeRule, es[0], pos, map[], []);
      var o2 := Eval(Kql(c), q, NodeRule, es[1], o1.pos, o1.env, []);
      var o3 := Eval(Kql(c), q, NodeRule, es[2], o2.pos, o2.env, []);
      var o := Eval(Kql(c), q, NodeRule, Seq(es), pos, map[], []);
      o.Success? && o.pos == o3.pos && o.env == o3.env && o.errs == []
  {
    hide *;
    SeqMembers(Kql(c), es);
    KqlStrings.SeqOfThree(Kql(c), q, NodeRule, es, pos, map[], []);
  }

  /** Four parts, one after the other. */
  lemma FourMatch(c: Conversions, q: string, es: seq<KqlExpr>, pos: nat)
    requires WellFormed(Kql(c)) && pos <= |q| && |es| == 4 && WellFormedExpr(Kql(c), Seq(es))
    requires forall k :: 0 <= k < |es| ==> WellFormedExpr(Kql(c), es[k])
    requires var o1 := Eval(Kql(c), q, NodeRule, es[0], pos, map[], []);
      && o1.Success? && o1.errs == []
      && var o2 := Eval(Kql(c), q, NodeRule, es[1], o1.pos, o1.env, []);
         && o2.Success? && o2.errs == []
         && var o3 := Eval(Kql(c), q, NodeRule, es[2], o2.pos, o2.env, []);
            && o3.Success? && o3.errs == []
            && var o4 := Eval(Kql(c), q, NodeRule, es[3], o3.pos, o3.env, []); o4.Success? && o4.errs == []
    ensures var o1 := Eval(Kql(c), q, NodeRule, es[0], pos, map[], []);
      var o2 := Eval(Kql(c), q, NodeRule, es[1], o1.pos, o1.env, []);
      var o3 := Eval(Kql(c), q, NodeRule, es[2], o2.pos, o2.env, []);
      var o4 := Eval(Kql(c), q, NodeRule, es[3], o3.pos, o3.env, []);
      var o := Eval(Kql(c), q, NodeRule, Seq(es), pos, map[], []);
      o.Success? && o.pos == o4.pos && o.env == o4.env && o.errs == []
  {
    hide *;
    var g, r := Kql(c), NodeRule;
    assert es == [es[0]] + ([es[1]] + ([es[2]] + ([es[3]] + [])));
    EvalIsSeq(g, q, r, es, pos, map[], []);
    var o1 := Eval(g, q, r, es[0], pos, map[], []);
    var o2 := Eval(g, q, r, es[1], o1.pos, o1.env, []);
    var o3 := Eval(g, q, r, es[2], o2.pos, o2.env, []);
    var o4 := Eval(g, q, r, es[3], o3.pos, o3.env, []);
    EvalNoSeq(g, q, r, o4.pos, o4.env, [], [] + [o1.val] + [o2.val] + [o3.val] + [o4.val]);
    KqlStrings.SeqStep(g, q, r, es[3], [], o3.pos, o3.env, [], [] + [o1.val] + [o2.val] + [o3.val]);
    KqlStrings.SeqStep(g, q, r, es[2], [es[3]] + [], o2.pos, o2.env, [], [] + [o1.val] + [o2.val]);
    KqlStrings.SeqStep(g, q, r, es[1], [es[2]] + ([es[3]] + []), o1.pos, o1.env, [], [] + [o1.val]);
    KqlStrings.SeqStep(g, q, r, es[0], [es[1]] + ([es[2]] + ([es[3]] + [])), pos, map[], [], []);
  }

  /** Five parts, one after the other. */
  lemma FiveMatch(c: Conversions, q: string, rule: Rule, es: seq<KqlExpr>, pos: nat)
    requires WellFormed(Kql(c)) && pos <= |q| && |es| == 5 && WellFormedExpr(Kql(c), Seq(es))
    requires forall k :: 0 <= k < |es| ==> WellFormedExpr(Kql(c), es[k])
    requires var o1 := Eval(Kql(c), q, rule, es[0], pos, map[], []);
      && o1.Success? && o1.errs == []
      && var o2 := Eval(Kql(c), q, rule, es[1], o1.pos, o1.env, []);
         && o2.Success? && o2.errs == []
         && var o3 := Eval(Kql(c), q, rule, es[2], o2.pos, o2.env, []);
            && o3.Success? && o3.errs == []
            && var o4 := Eval(Kql(c), q, rule, es[3], o3.pos, o3.env, []);
               && o4.Success? && o4.errs == []
               && var o5 := Eval(Kql(c), q, rule, es[4], o4.pos, o4.env, []); o5.Success? && o5.errs == []
    ensures var o1 := Eval(Kql(c), q, rule, es[0], pos, map[], []);
      var o2 := Eval(Kql(c), q, rule, es[1], o1.pos, o1.env, []);
      var o3 := Eval(Kql(c), q, rule, es[2], o2.pos, o2.env, []);
      var o4 := Eval(Kql(c), q, rule, es[3], o3.pos, o3.env, []);
      var o5 := Eval(Kql(c), q, rule, es[4], o4.pos, o4.env, []);
      var o := Eval(Kql(c), q, rule, Seq(es), pos, map[], []);
      o.Success? && o.pos == o5.pos && o.env == o5.env && o.errs == []
  {
    hide *;
    var g := Kql(c);
    assert es == [es[0]] + ([es[1]] + ([es[2]] + ([es[3]] + ([es[4]] + []))));
    EvalIsSeq(g, q, rule, es, pos, map[], []);
    var o1 := Eval(g, q, rule, es[0], pos, map[], []);
    var o2 := Eval(g, q, rule, es[1], o1.pos, o1.env, []);
    var o3 := Eval(g, q, rule, es[2], o2.pos, o2.env, []);
    var o4 := Eval(g, q, rule, es[3], o3.pos, o3.env, []);
    var o5 := Eval(g, q, rule, es[4], o4.pos, o4.env, []);
    EvalNoSeq(g, q, rule, o5.pos, o5.env, [], [] + [o1.val] + [o2.val] + [o3.val] + [o4.val] + [o5.val]);
    KqlStrings.SeqStep(g, q, rule, es[4], [], o4.pos, o4.env, [], [] + [o1.val] + [o2.val] + [o3.val] + [o4.val]);
    KqlStrings.SeqStep(g, q, rule, es[3], [es[4]] + [], o3.pos, o3.env, [], [] + [o1.val] + [o2.val] + [o3.val]);
    KqlStrings.SeqStep(g, q, rule, es[2], [es[3]] + ([es[4]] + []), o2.pos, o2.env, [], [] + [o1.val] + [o2.val]);
    KqlStrings.SeqStep(g, q, rule, es[1], [es[2]] + ([es[3]] + ([es[4]] + [])), o1.pos, o1.env, [], [] + [o1.val]);
    KqlStrings.SeqStep(g, q, rule, es[0], [es[1]] + ([es[2]] + ([es[3]] + ([es[4]] + []))), pos, map[], [], []);
  }

  lemma ReadsThere(q: string, pos: nat, t: string)
    requires Reads(q, pos, t)
    ensures pos + |t| <= |q|
  {}
}
