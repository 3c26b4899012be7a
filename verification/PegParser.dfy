/** The runtime of the generated parser (pkg/kql/dictionary_gen.go:5670-6263): a position that
    moves and is restored, and a stack of label scopes whose slots are reused. Every method is
    proved to compute the pure meaning of its expression. */
module PegParser {
  import opened Peg

  class Parser<!R(!new), !N> {
    const g: Grammar<R, N>
    const input: string
    var pt: Savepoint
    // vstack: a Go slice. `slots` is its backing array (so |slots| is its capacity), `depth` its length.
    var slots: seq<Option<Env<N>>>
    var depth: nat
    var rstack: seq<R>
    var errs: seq<Error<R>>

    ghost predicate Valid()
      reads this
    {
      && WellFormed(g)
      && pt.offset <= |input| && pt == Point(input, pt.offset)
      && depth <= |slots|
      && (forall k :: 0 <= k < depth ==> slots[k].Some?)
    }

    /** An action, and any expression, runs inside some rule and some scope. */
    ghost predicate Inside()
      reads this
    {
      Valid() && depth > 0 && rstack != []
    }

    ghost function Scope(): Env<N>
      requires Inside()
      reads this
    {
      slots[depth - 1].value
    }

    ghost function Rule(): R
      requires Inside()
      reads this
    {
      rstack[|rstack| - 1]
    }

    /** The state after parsing: on success it is where the outcome says, with exactly the
        outcome's labels in the current scope; on failure the position is the old one. Outer
        scopes and the rule stack are untouched either way. */
    twostate predicate Agrees(o: Outcome<R, N>, new val: Value<N>, ok: bool)
      requires old(Inside())
      reads this
    {
      && Inside()
      && depth == old(depth) && rstack == old(rstack)
      && slots[..depth - 1] == old(slots[..depth - 1])
      && match o
         case Failure(errs1) => !ok && val == Nil && pt == old(pt) && errs == errs1
         case Success(v, p, env, errs1) => ok && val == v && pt.offset == p && Scope() == env && errs == errs1
    }

    constructor (g: Grammar<R, N>, input: string)
      requires WellFormed(g)
      ensures Valid() && this.g == g && this.input == input
      ensures pt == Point(input, 0) && depth == 0 && rstack == [] && errs == []
    {
      this.g := g;
      this.input := input;
      this.slots := [];
      this.depth := 0;
      this.rstack := [];
      this.errs := [];
      this.pt := Next(input, Savepoint(1, 0, 0, '\0', 0));
    }

    // ----- scopes -----

    /** Every pushed scope starts empty, also when a slot of an earlier scope is reused. */
    method PushV()
      requires Valid()
      modifies this`slots, this`depth
      ensures Valid() && depth == old(depth) + 1
      ensures slots[..old(depth)] == old(slots[..depth]) && slots[old(depth)] == Some(map[])
    {
      if |slots| == depth {
        // append: Go picks how far the capacity grows
        var spare: nat :| true;
        slots := slots + [None] + seq(spare, _ => None);
      }
      depth := depth + 1;
      var m := slots[depth - 1];
      if m.Some? && |m.value| == 0 {
        return;
      }
      slots := slots[depth - 1 := Some(map[])];
    }

    method PopV()
      requires Valid() && depth > 0
      modifies this`slots, this`depth
      ensures Valid() && depth == old(depth) - 1
      ensures slots[..depth] == old(slots[..depth - 1])
    {
      var m := slots[depth - 1];
      if m.Some? && |m.value| > 0 {
        slots := slots[depth - 1 := None];
      }
      depth := depth - 1;
    }

    // ----- position -----

    method Read()
      requires Valid() && pt.offset < |input|
      modifies this`pt
      ensures Valid() && pt == Point(input, old(pt.offset) + 1)
    {
      pt := Next(input, pt);
    }

    /** Equal offsets mean equal savepoints, so skipping the assignment is harmless. */
    method Restore(to: Savepoint)
      requires Valid() && to.offset <= |input| && to == Point(input, to.offset)
      modifies this`pt
      ensures Valid() && pt == to
    {
      if to.offset == pt.offset {
        return;
      }
      pt := to;
    }

    function SliceFrom(start: Savepoint): string
      requires start.offset <= pt.offset <= |input|
      reads this
    {
      input[start.offset..pt.offset]
    }

    // ----- expressions -----

    method ParseRule(r: R) returns (val: Value<N>, ok: bool)
      requires Valid()
      modifies this
      ensures Valid() && depth == old(depth) && rstack == old(rstack) && slots[..depth] == old(slots[..depth])
      ensures match Eval(g, input, r, g.body(r), old(pt.offset), map[], old(errs))
              case Failure(errs1) => !ok && val == Nil && pt == old(pt) && errs == errs1
              case Success(v, p, _, errs1) => ok && val == v && pt.offset == p && errs == errs1
      decreases |input| - pt.offset, g.rank(r), g.body(r), 3
    {
      rstack := rstack + [r];
      PushV();
      val, ok := ParseExpr(g.body(r));
      PopV();
      rstack := rstack[..|rstack| - 1];
    }

    method ParseExpr(e: Expr<R>) returns (val: Value<N>, ok: bool)
      requires Inside() && WellFormedExpr(g, e)
      modifies this
      ensures Agrees(Eval(g, input, old(Rule()), e, old(pt.offset), old(Scope()), old(errs)), val, ok)
      decreases |input| - pt.offset, LeftRank(g, e), e, 2
    {
      match e
      case Action(_, _) => val, ok := ParseActionExpr(e);
      case And(_) => val, ok := ParseAndExpr(e);
      case Not(_) => val, ok := ParseNotExpr(e);
      case Any => val, ok := ParseAnyMatcher();
      case CharClass(_, _, _) => val, ok := ParseCharClassMatcher(e);
      case Choice(_) => val, ok := ParseChoiceExpr(e);
      case Labeled(_, _) => val, ok := ParseLabeledExpr(e);
      case Lit(_) => val, ok := ParseLitMatcher(e);
      case OneOrMore(_) => val, ok := ParseOneOrMoreExpr(e);
      case ZeroOrMore(_) => val, ok := ParseZeroOrMoreExpr(e);
      case ZeroOrOne(_) => val, ok := ParseZeroOrOneExpr(e);
      case RuleRef(r) => val, ok := ParseRule(r);
      case Seq(_) => val, ok := ParseSeqExpr(e);
    }

    /** Parses an expression in a new scope, which is then dropped with whatever was bound in it. */
    method ParseScoped(e: Expr<R>) returns (val: Value<N>, ok: bool)
      requires Inside() && WellFormedExpr(g, e)
      modifies this
      ensures Inside() && depth == old(depth) && rstack == old(rstack) && slots[..depth] == old(slots[..depth])
      ensures match Eval(g, input, old(Rule()), e, old(pt.offset), map[], old(errs))
              case Failure(errs1) => !ok && val == Nil && pt == old(pt) && errs == errs1
              case Success(v, p, _, errs1) => ok && val == v && pt.offset == p && errs == errs1
      decreases |input| - pt.offset, LeftRank(g, e), e, 3
    {
      PushV();
      val, ok := ParseExpr(e);
      PopV();
    }

    method ParseActionExpr(e: Expr<R>) returns (val: Value<N>, ok: bool)
      requires Inside() && e.Action? && WellFormedExpr(g, e)
      modifies this
      ensures Agrees(Eval(g, input, old(Rule()), e, old(pt.offset), old(Scope()), old(errs)), val, ok)
      decreases |input| - pt.offset, LeftRank(g, e), e, 1
    {
      var start := pt;
      val, ok := ParseExpr(e.expr);
      if ok {
        var r := g.run(e.run, slots[depth - 1].value, SliceFrom(start), start);
        if r.err.Some? {
          errs := errs + [Error(r.err.value, start.line, start.col, start.offset, rstack[|rstack| - 1])];
        }
        val := r.val;
      }
    }

    method ParseAndExpr(e: Expr<R>) returns (val: Value<N>, ok: bool)
      requires Inside() && e.And? && WellFormedExpr(g, e)
      modifies this
      ensures Agrees(Eval(g, input, old(Rule()), e, old(pt.offset), old(Scope()), old(errs)), val, ok)
      decreases |input| - pt.offset, LeftRank(g, e), e, 1
    {
      var start := pt;
      val, ok := ParseScoped(e.expr);
      Restore(start);
      val := Nil;
    }

    method ParseNotExpr(e: Expr<R>) returns (val: Value<N>, ok: bool)
      requires Inside() && e.Not? && WellFormedExpr(g, e)
      modifies this
      ensures Agrees(Eval(g, input, old(Rule()), e, old(pt.offset), old(Scope()), old(errs)), val, ok)
      decreases |input| - pt.offset, LeftRank(g, e), e, 1
    {
      var start := pt;
      val, ok := ParseScoped(e.expr);
      Restore(start);
      val, ok := Nil, !ok;
    }

    method ParseAnyMatcher() returns (val: Value<N>, ok: bool)
      requires Inside()
      modifies this
      ensures Agrees(Eval(g, input, old(Rule()), Any, old(pt.offset), old(Scope()), old(errs)), val, ok)
    {
      if pt.rn == EOF_RUNE && pt.w == 0 {
        return Nil, false;
      }
      var start := pt;
      Read();
      return Text(SliceFrom(start)), true;
    }

    method ParseCharClassMatcher(e: Expr<R>) returns (val: Value<N>, ok: bool)
      requires Inside() && e.CharClass?
      modifies this
      ensures Agrees(Eval(g, input, old(Rule()), e, old(pt.offset), old(Scope()), old(errs)), val, ok)
    {
      var cur := pt.rn;
      var start := pt;
      if cur == EOF_RUNE && pt.w == 0 {
        return Nil, false;
      }
      for i := 0 to |e.chars|
        invariant forall k :: 0 <= k < i ==> e.chars[k] != cur
        invariant pt == old(pt) && slots == old(slots) && depth == old(depth) && rstack == old(rstack) && errs == old(errs)
      {
        if e.chars[i] == cur {
          if e.inverted {
            return Nil, false;
          }
          Read();
          return Text(SliceFrom(start)), true;
        }
      }
      for i := 0 to |e.ranges|
        invariant forall k :: 0 <= k < i ==> !(e.ranges[k].0 <= cur <= e.ranges[k].1)
        invariant pt == old(pt) && slots == old(slots) && depth == old(depth) && rstack == old(rstack) && errs == old(errs)
      {
        if cur >= e.ranges[i].0 && cur <= e.ranges[i].1 {
          if e.inverted {
            return Nil, false;
          }
          Read();
          return Text(SliceFrom(start)), true;
        }
      }
      if e.inverted {
        Read();
        return Text(SliceFrom(start)), true;
      }
      return Nil, false;
    }

    method ParseChoiceExpr(e: Expr<R>) returns (val: Value<N>, ok: bool)
      requires Inside() && e.Choice? && WellFormedExpr(g, e)
      modifies this
      ensures Agrees(Eval(g, input, old(Rule()), e, old(pt.offset), old(Scope()), old(errs)), val, ok)
      decreases |input| - pt.offset, LeftRank(g, e), e, 1
    {
      hide Eval, EvalChoice, WellFormed, WellFormedExpr, ChoiceRank, LeftRank;
      var es := e.alternatives;
      EvalIsChoice(g, input, rstack[|rstack| - 1], es, pt.offset, Scope(), errs);
      assert es[0..] == es;
      for i := 0 to |es|
        invariant Inside() && depth == old(depth) && rstack == old(rstack) && slots[..depth] == old(slots[..depth])
        invariant pt == old(pt)
        invariant ChoiceRank(g, es[i..]) <= ChoiceRank(g, es)
        invariant Eval(g, input, Rule(), e, pt.offset, Scope(), old(errs))
               == EvalChoice(g, input, Rule(), es[i..], pt.offset, Scope(), errs)
      {
        EvalChoiceStep(g, input, rstack[|rstack| - 1], es, i, pt.offset, Scope(), errs);
        val, ok := ParseScoped(es[i]);
        if ok {
          return;
        }
      }
      assert es[|es|..] == [];
      EvalNoChoice(g, input, rstack[|rstack| - 1], pt.offset, Scope(), errs);
      return Nil, false;
    }

    method ParseLabeledExpr(e: Expr<R>) returns (val: Value<N>, ok: bool)
      requires Inside() && e.Labeled? && WellFormedExpr(g, e)
      modifies this
      ensures Agrees(Eval(g, input, old(Rule()), e, old(pt.offset), old(Scope()), old(errs)), val, ok)
      decreases |input| - pt.offset, LeftRank(g, e), e, 1
    {
      val, ok := ParseScoped(e.expr);
      if ok && e.name != "" {
        slots := slots[depth - 1 := Some(slots[depth - 1].value[e.name := val])];
      }
    }

    method ParseLitMatcher(e: Expr<R>) returns (val: Value<N>, ok: bool)
      requires Inside() && e.Lit? && WellFormedExpr(g, e)
      modifies this
      ensures Agrees(Eval(g, input, old(Rule()), e, old(pt.offset), old(Scope()), old(errs)), val, ok)
    {
      var start := pt;
      for i := 0 to |e.val|
        invariant Inside() && depth == old(depth) && rstack == old(rstack) && slots == old(slots) && errs == old(errs)
        invariant pt.offset == start.offset + i && input[start.offset..pt.offset] == e.val[..i]
      {
        if pt.rn != e.val[i] {
          Restore(start);
          return Nil, false;
        }
        Read();
        assert input[start.offset..pt.offset] == input[start.offset..start.offset + i] + [e.val[i]];
      }
      return Text(SliceFrom(start)), true;
    }

    method ParseOneOrMoreExpr(e: Expr<R>) returns (val: Value<N>, ok: bool)
      requires Inside() && e.OneOrMore? && WellFormedExpr(g, e)
      modifies this
      ensures Agrees(Eval(g, input, old(Rule()), e, old(pt.offset), old(Scope()), old(errs)), val, ok)
      decreases |input| - pt.offset, LeftRank(g, e), e, 1
    {
      var vals := [];
      while true
        invariant Inside() && depth == old(depth) && rstack == old(rstack) && slots[..depth] == old(slots[..depth])
        invariant old(pt.offset) <= pt.offset
        invariant vals == [] ==> pt == old(pt) && errs == old(errs)
        invariant vals != [] ==>
          Eval(g, input, Rule(), e, old(pt.offset), Scope(), old(errs))
          == EvalLoop(g, input, Rule(), e.expr, pt.offset, Scope(), errs, vals)
        decreases |input| - pt.offset
      {
        var v, matched := ParseScoped(e.expr);
        if !matched {
          if vals == [] {
            return Nil, false;
          }
          return List(vals), true;
        }
        assert vals == [] ==> vals + [v] == [v];
        vals := vals + [v];
      }
    }

    method ParseZeroOrMoreExpr(e: Expr<R>) returns (val: Value<N>, ok: bool)
      requires Inside() && e.ZeroOrMore? && WellFormedExpr(g, e)
      modifies this
      ensures Agrees(Eval(g, input, old(Rule()), e, old(pt.offset), old(Scope()), old(errs)), val, ok)
      decreases |input| - pt.offset, LeftRank(g, e), e, 1
    {
      var vals := [];
      while true
        invariant Inside() && depth == old(depth) && rstack == old(rstack) && slots[..depth] == old(slots[..depth])
        invariant old(pt.offset) <= pt.offset
        invariant Eval(g, input, Rule(), e, old(pt.offset), Scope(), old(errs))
               == EvalLoop(g, input, Rule(), e.expr, pt.offset, Scope(), errs, vals)
        decreases |input| - pt.offset
      {
        var v, matched := ParseScoped(e.expr);
        if !matched {
          return List(vals), true;
        }
        vals := vals + [v];
      }
    }

    method ParseZeroOrOneExpr(e: Expr<R>) returns (val: Value<N>, ok: bool)
      requires Inside() && e.ZeroOrOne? && WellFormedExpr(g, e)
      modifies this
      ensures Agrees(Eval(g, input, old(Rule()), e, old(pt.offset), old(Scope()), old(errs)), val, ok)
      decreases |input| - pt.offset, LeftRank(g, e), e, 1
    {
      val, ok := ParseScoped(e.expr);
      ok := true;
    }

    method ParseSeqExpr(e: Expr<R>) returns (val: Value<N>, ok: bool)
      requires Inside() && e.Seq? && WellFormedExpr(g, e)
      modifies this
      ensures Agrees(Eval(g, input, old(Rule()), e, old(pt.offset), old(Scope()), old(errs)), val, ok)
      decreases |input| - pt.offset, LeftRank(g, e), e, 1
    {
      hide Eval, EvalSeq, WellFormed, WellFormedExpr, SeqRank, LeftRank, MayBeEmpty;
      var es := e.exprs;
      var vals := [];
      var start := pt;
      EvalIsSeq(g, input, rstack[|rstack| - 1], es, pt.offset, Scope(), errs);
      assert es[0..] == es;
      for i := 0 to |es|
        invariant Inside() && depth == old(depth) && rstack == old(rstack)
        invariant slots[..depth - 1] == old(slots[..depth - 1])
        invariant start.offset <= pt.offset
        invariant start.offset == pt.offset ==> SeqRank(g, es[i..]) <= SeqRank(g, es)
        invariant Eval(g, input, Rule(), e, start.offset, old(Scope()), old(errs))
               == EvalSeq(g, input, Rule(), es[i..], pt.offset, Scope(), errs, vals)
      {
        EvalSeqStep(g, input, rstack[|rstack| - 1], es, i, pt.offset, Scope(), errs, vals);
        var v, matched := ParseExpr(es[i]);
        if !matched {
          Restore(start);
          return Nil, false;
        }
        vals := vals + [v];
      }
      assert es[|es|..] == [];
      EvalNoSeq(g, input, rstack[|rstack| - 1], pt.offset, Scope(), errs, vals);
      return List(vals), true;
    }

    /** The whole parse from the entry rule: the value and the reported errors are those of the
        pure meaning, and the parse ends. */
    method Parse(entry: R) returns (val: Value<N>, ok: bool)
      requires Valid() && pt == Point(input, 0) && errs == []
      modifies this
      ensures Valid() && depth == old(depth) && rstack == old(rstack)
      ensures match Eval(g, input, entry, g.body(entry), 0, map[], [])
              case Failure(errs1) => !ok && val == Nil && pt == old(pt) && errs == errs1
              case Success(v, p, _, errs1) => ok && val == v && pt == Point(input, p) && errs == errs1
    {
      val, ok := ParseRule(entry);
    }
  }
}
