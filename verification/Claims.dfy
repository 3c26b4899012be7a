/** Paths into nested claims (pkg/oidc/claims.go). */
module Claims {
  import opened Text

  datatype Result<+T> = Ok(value: T) | Err

  // ----- SplitWithEscaping -----

  function Strip(s: string, suffix: string): string
    requires HasSuffix(s, suffix)
  {
    s[..|s| - |suffix|]
  }

  /** A piece that ends in the escape swallows the separator and the segment after it. */
  function Attach(p: string, segments: seq<string>, sep: string, esc: string): seq<string>
    requires segments != []
  {
    if HasSuffix(p, esc) then [Strip(p, esc) + sep + segments[0]] + segments[1..] else [p] + segments
  }

  function Merged(pieces: seq<string>, sep: string, esc: string): (r: seq<string>)
    ensures r != [] <==> pieces != []
  {
    if |pieces| <= 1 then pieces else Attach(pieces[0], Merged(pieces[1..], sep, esc), sep, esc)
  }

  method SplitWithEscaping(s: string, separator: string, escapeString: string) returns (a: seq<string>)
    ensures a == Merged(Split(s, separator), separator, escapeString)
  {
    hide Split, Merged, HasSuffix;
    a := Split(s, separator);
    ghost var pieces := a;
    var i := |a| - 2;
    if i >= -1 {
      MergedLastPiece(pieces, separator, escapeString);
    } else {
      assert Merged(pieces, separator, escapeString) == [];
    }
    while i >= 0
      invariant -2 <= i <= |pieces| - 2
      invariant i == -2 ==> a == pieces == []
      invariant i >= -1 ==> Merged(pieces[i + 1..], separator, escapeString) != []
      invariant i >= -1 ==> a == pieces[..i + 1] + Merged(pieces[i + 1..], separator, escapeString)
    {
      ghost var rest := Merged(pieces[i + 1..], separator, escapeString);
      MergedStep(pieces, i, separator, escapeString);
      Spliced(pieces[..i], pieces[i], rest);
      assert pieces[..i + 1] == pieces[..i] + [pieces[i]];
      if HasSuffix(a[i], escapeString) {
        Shortened(pieces[..i], pieces[i], rest, Strip(a[i], escapeString) + separator + a[i + 1]);
        a := a[i := Strip(a[i], escapeString) + separator + a[i + 1]];
        a := a[..i + 1] + a[i + 2..];
      }
      i := i - 1;
    }
    if i == -1 {
      assert pieces[..0] == [] && pieces[0..] == pieces;
      assert [] + Merged(pieces, separator, escapeString) == Merged(pieces, separator, escapeString);
    }
  }

  lemma MergedLastPiece(pieces: seq<string>, sep: string, esc: string)
    requires pieces != []
    ensures var i := |pieces| - 1; Merged(pieces[i..], sep, esc) == pieces[i..] && pieces == pieces[..i] + pieces[i..]
  {
  }

  lemma MergedStep(pieces: seq<string>, i: nat, sep: string, esc: string)
    requires i + 1 < |pieces|
    ensures Merged(pieces[i + 1..], sep, esc) != []
    ensures Merged(pieces[i..], sep, esc) == Attach(pieces[i], Merged(pieces[i + 1..], sep, esc), sep, esc)
  {
    hide Attach;
    assert pieces[i..][0] == pieces[i] && pieces[i..][1..] == pieces[i + 1..];
  }

  lemma Spliced(front: seq<string>, p: string, rest: seq<string>)
    requires rest != []
    ensures var a := front + [p] + rest; a[|front|] == p && a[|front| + 1] == rest[0] && a == front + ([p] + rest)
  {
  }

  lemma Shortened(front: seq<string>, p: string, rest: seq<string>, x: string)
    requires rest != []
    ensures var a, n := front + [p] + rest, |front|; a[n := x][..n + 1] + a[n := x][n + 2..] == front + ([x] + rest[1..])
  {
    var a, n := front + [p] + rest, |front|;
    assert a[n := x][..n + 1] == front + [x];
    assert a[n := x][n + 2..] == rest[1..];
  }

  /** The reading from left to right: `open` is the segment under way. */
  function Grouped(open: string, pieces: seq<string>, sep: string, esc: string): seq<string>
    requires pieces != []
    decreases |pieces|
  {
    if |pieces| == 1 then [open + pieces[0]]
    else if HasSuffix(pieces[0], esc) then Grouped(open + Strip(pieces[0], esc) + sep, pieces[1..], sep, esc)
    else [open + pieces[0]] + Grouped("", pieces[1..], sep, esc)
  }

  /** Merging backwards in place is grouping the raw pieces from left to right. */
  lemma {:induction false} MergedIsGrouped(open: string, pieces: seq<string>, sep: string, esc: string)
    requires pieces != []
    ensures var m := Merged(pieces, sep, esc); Grouped(open, pieces, sep, esc) == [open + m[0]] + m[1..]
    decreases |pieces|
  {
    if |pieces| > 1 {
      var m := Merged(pieces[1..], sep, esc);
      if HasSuffix(pieces[0], esc) {
        MergedIsGrouped(open + Strip(pieces[0], esc) + sep, pieces[1..], sep, esc);
        assert open + Strip(pieces[0], esc) + sep + m[0] == open + (Strip(pieces[0], esc) + sep + m[0]);
      } else {
        MergedIsGrouped("", pieces[1..], sep, esc);
        assert "" + m[0] == m[0];
        assert [m[0]] + m[1..] == m;
      }
    }
  }

  /** The result is empty only for an empty text cut by an empty separator, so that the last index
      `WalkSegments` reads exists for every path of `ReadStringClaim`. */
  lemma EmptyIff(s: string, sep: string, esc: string)
    ensures Merged(Split(s, sep), sep, esc) == [] <==> s == "" && sep == ""
  {
  }

  // ----- escaping a path and splitting it again -----

  function Escape(x: string, sep: char, esc: char): string {
    if x == "" then ""
    else (if x[0] == sep then [esc, sep] else [x[0]]) + Escape(x[1..], sep, esc)
  }

  function PathOf(segments: seq<string>, sep: char, esc: char): string
    requires segments != []
  {
    if |segments| == 1 then Escape(segments[0], sep, esc)
    else Escape(segments[0], sep, esc) + [sep] + PathOf(segments[1..], sep, esc)
  }

  lemma SplitAtSep(y: string, sep: char)
    ensures Split([sep] + y, [sep]) == [""] + Split(y, [sep])
  {
    assert ([sep] + y)[1..] == y;
  }

  lemma SplitAtOther(c: char, y: string, sep: char)
    requires c != sep
    ensures Split([c] + y, [sep]) == OnHead(c, Split(y, [sep]))
  {
    assert ([c] + y)[1..] == y;
    assert !([sep] <= [c] + y) by {
      assert ([c] + y)[0] == c;
    }
  }

  predicate Ends(s: string, c: char) {
    s != "" && s[|s| - 1] == c
  }

  /** `Attach` for a separator and an escape of one character. */
  lemma AttachChar(p: string, m: seq<string>, sep: char, esc: char)
    requires m != []
    ensures Attach(p, m, [sep], [esc]) == if Ends(p, esc) then [p[..|p| - 1] + [sep] + m[0]] + m[1..] else [p] + m
    ensures HasSuffix(p, [esc]) == Ends(p, esc)
  {
    if p != "" {
      assert p[|p| - 1..] == [p[|p| - 1]];
    }
  }

  lemma MergedCons(p: string, pieces: seq<string>, sep: char, esc: char)
    requires pieces != []
    ensures Merged([p] + pieces, [sep], [esc]) == Attach(p, Merged(pieces, [sep], [esc]), [sep], [esc])
  {
    assert ([p] + pieces)[1..] == pieces;
  }

  lemma AttachOnHead(c: char, x: string, m: seq<string>, sep: char, esc: char)
    requires m != [] && (x != "" || c != esc)
    ensures Attach([c] + x, m, [sep], [esc]) == OnHead(c, Attach(x, m, [sep], [esc]))
  {
    AttachChar(x, m, sep, esc);
    AttachChar([c] + x, m, sep, esc);
    hide Attach;
    if Ends(x, esc) {
      assert ([c] + x)[..|x|] + [sep] + m[0] == [c] + (x[..|x| - 1] + [sep] + m[0]);
    }
  }

  /** What merging does to a character in front of the first piece. */
  lemma MergedOnHead(c: char, pieces: seq<string>, sep: char, esc: char)
    requires pieces != [] && (pieces[0] != "" || |pieces| == 1 || c != esc)
    ensures Merged(OnHead(c, pieces), [sep], [esc]) == OnHead(c, Merged(pieces, [sep], [esc]))
  {
    hide Attach;
    if |pieces| > 1 {
      MergedCons([c] + pieces[0], pieces[1..], sep, esc);
      AttachOnHead(c, pieces[0], Merged(pieces[1..], [sep], [esc]), sep, esc);
    }
  }

  /** A text that begins with an escaped segment: its first piece is empty only if the segment is. */
  lemma FirstPiece(x: string, y: string, sep: char, esc: char)
    requires sep != esc && x != ""
    ensures Split(Escape(x, sep, esc) + y, [sep])[0] != ""
  {
    var c := if x[0] == sep then esc else x[0];
    var rest := (Escape(x, sep, esc) + y)[1..];
    assert Escape(x, sep, esc) + y == [c] + rest;
    SplitAtOther(c, rest, sep);
  }

  lemma EscapeCons(x: string, sep: char, esc: char)
    requires x != ""
    ensures Escape(x, sep, esc) == (if x[0] == sep then [esc, sep] else [x[0]]) + Escape(x[1..], sep, esc)
  {
  }

  lemma OnHeadEmpty(c: char, pieces: seq<string>)
    ensures OnHead(c, [""] + pieces) == [[c]] + pieces
  {
    assert [c] + "" == [c];
  }

  /** An escaped separator in front of a text: the piece before it is merged with the first one. */
  lemma MergedSep(y: string, sep: char, esc: char)
    requires sep != esc
    ensures var m := Merged(Split(y, [sep]), [sep], [esc]);
      Merged(Split([esc, sep] + y, [sep]), [sep], [esc]) == OnHead(sep, m)
  {
    hide Attach, Split, Merged;
    var pieces := Split(y, [sep]);
    var m := Merged(pieces, [sep], [esc]);
    SplitAtSep(y, sep);
    SplitAtOther(esc, [sep] + y, sep);
    assert [esc, sep] + y == [esc] + ([sep] + y);
    OnHeadEmpty(esc, pieces);
    MergedCons([esc], pieces, sep, esc);
    AttachChar([esc], m, sep, esc);
    assert [esc][..0] + [sep] + m[0] == [sep] + m[0];
  }

  /** Any other character in front of a text. */
  lemma MergedOther(c: char, y: string, sep: char, esc: char)
    requires c != sep && (c != esc || Split(y, [sep])[0] != "" || |Split(y, [sep])| == 1)
    ensures Merged(Split([c] + y, [sep]), [sep], [esc]) == OnHead(c, Merged(Split(y, [sep]), [sep], [esc]))
  {
    hide Attach, Split, Merged;
    SplitAtOther(c, y, sep);
    MergedOnHead(c, Split(y, [sep]), sep, esc);
  }

  /** One segment in front of the rest `y` of a path. */
  lemma {:induction false} MergedSegment(x: string, y: string, sep: char, esc: char)
    requires sep != esc
    ensures Merged(Split(Escape(x, sep, esc) + ([sep] + y), [sep]), [sep], [esc])
         == Attach(x, Merged(Split(y, [sep]), [sep], [esc]), [sep], [esc])
    decreases |x|
  {
    hide Attach, Split, Merged, Escape;
    var m := Merged(Split(y, [sep]), [sep], [esc]);
    if x == "" {
      EscapeNone(sep, esc);
      SplitAtSep(y, sep);
      assert Escape(x, sep, esc) + ([sep] + y) == [sep] + y;
      MergedCons("", Split(y, [sep]), sep, esc);
    } else {
      var y' := Escape(x[1..], sep, esc) + ([sep] + y);
      MergedSegment(x[1..], y, sep, esc);
      EscapeCons(x, sep, esc);
      assert [x[0]] + x[1..] == x;
      if x[0] == sep {
        assert Escape(x, sep, esc) + ([sep] + y) == [esc, sep] + y';
        MergedSep(y', sep, esc);
        AttachOnHead(x[0], x[1..], m, sep, esc);
      } else if x[1..] == "" && x[0] == esc {
        assert Escape(x, sep, esc) + ([sep] + y) == [esc] + y';
        EscapeNone(sep, esc);
        assert x == [esc] && y' == "" + ([sep] + y);
        LoneEscape(y, sep, esc);
      } else {
        assert Escape(x, sep, esc) + ([sep] + y) == [x[0]] + y';
        if x[1..] != "" {
          FirstPiece(x[1..], [sep] + y, sep, esc);
        }
        MergedOther(x[0], y', sep, esc);
        AttachOnHead(x[0], x[1..], m, sep, esc);
      }
    }
  }

  /** The segment that is just an escape swallows the next one. */
  lemma LoneEscape(y: string, sep: char, esc: char)
    requires sep != esc
    ensures Merged(Split([esc] + ("" + ([sep] + y)), [sep]), [sep], [esc])
         == Attach([esc], Merged(Split(y, [sep]), [sep], [esc]), [sep], [esc])
  {
    hide Attach, Merged, Split;
    assert "" + ([sep] + y) == [sep] + y;
    SplitAtSep(y, sep);
    SplitAtOther(esc, [sep] + y, sep);
    OnHeadEmpty(esc, Split(y, [sep]));
    MergedCons([esc], Split(y, [sep]), sep, esc);
  }

  lemma EscapeNone(sep: char, esc: char)
    ensures Escape("", sep, esc) == ""
  {
  }

  lemma {:induction false} MergedLast(x: string, sep: char, esc: char)
    requires sep != esc
    ensures Merged(Split(Escape(x, sep, esc), [sep]), [sep], [esc]) == [x]
    decreases |x|
  {
    if x != "" {
      var y := Escape(x[1..], sep, esc);
      MergedLast(x[1..], sep, esc);
      assert [x[0]] + x[1..] == x;
      hide Split, Merged;
      if x[0] == sep {
        MergedSep(y, sep, esc);
      } else {
        if x[1..] != "" {
          FirstPiece(x[1..], "", sep, esc);
          assert y + "" == y;
        } else {
          SplitNothing(sep);
        }
        MergedOther(x[0], y, sep, esc);
      }
    }
  }

  lemma SplitNothing(sep: char)
    ensures Split("", [sep]) == [""]
  {
  }

  /** Splitting an escaped path gives its segments, each one that ends in the escape merged with
      the next. */
  lemma {:induction false} SplitPath(segments: seq<string>, sep: char, esc: char)
    requires segments != [] && sep != esc
    ensures Merged(Split(PathOf(segments, sep, esc), [sep]), [sep], [esc]) == Merged(segments, [sep], [esc])
    decreases |segments|
  {
    if |segments| == 1 {
      MergedLast(segments[0], sep, esc);
    } else {
      SplitPath(segments[1..], sep, esc);
      var y := PathOf(segments[1..], sep, esc);
      MergedSegment(segments[0], y, sep, esc);
      assert Escape(segments[0], sep, esc) + ([sep] + y) == Escape(segments[0], sep, esc) + [sep] + y;
    }
  }

  predicate NoneButLastEscapes(segments: seq<string>, esc: char) {
    forall i :: 0 <= i < |segments| - 1 ==> !HasSuffix(segments[i], [esc])
  }

  lemma {:induction false} MergedIsSameIff(segments: seq<string>, sep: char, esc: char)
    ensures |Merged(segments, [sep], [esc])| <= |segments|
    ensures Merged(segments, [sep], [esc]) == segments <==> NoneButLastEscapes(segments, esc)
    ensures !NoneButLastEscapes(segments, esc) ==> |Merged(segments, [sep], [esc])| < |segments|
    decreases |segments|
  {
    if |segments| > 1 {
      MergedIsSameIff(segments[1..], sep, esc);
      var m := Merged(segments[1..], [sep], [esc]);
      if !HasSuffix(segments[0], [esc]) {
        assert segments == [segments[0]] + segments[1..];
        if NoneButLastEscapes(segments[1..], esc) {
          forall i | 0 <= i < |segments| - 1
            ensures !HasSuffix(segments[i], [esc])
          {
            assert i > 0 ==> segments[i] == segments[1..][i - 1];
          }
        } else {
          var i :| 0 <= i < |segments[1..]| - 1 && HasSuffix(segments[1..][i], [esc]);
          assert segments[i + 1] == segments[1..][i];
        }
      }
    }
  }

  /** The round trip: a list of segments survives escaping, joining and splitting exactly when no
      segment but the last ends in the escape. */
  lemma RoundTripIff(segments: seq<string>, sep: char, esc: char)
    requires segments != [] && sep != esc
    ensures Merged(Split(PathOf(segments, sep, esc), [sep]), [sep], [esc]) == segments <==> NoneButLastEscapes(segments, esc)
  {
    SplitPath(segments, sep, esc);
    MergedIsSameIff(segments, sep, esc);
  }

  // ----- WalkSegments and ReadStringClaim -----

  datatype Key = Name(name: string) | OtherKey(id: int)

  /** A claim: a string, a map[string]any, a map[any]any, or anything else (nil is no value). */
  datatype Value = Str(s: string) | Object(fields: map<string, Value>) | AnyMap(items: map<Key, Value>) | Other(id: int)

  /** The maps that can be walked into. */
  function AsObject(v: Value): Result<map<string, Value>> {
    match v
    case Object(fields) => Ok(fields)
    case AnyMap(items) =>
      if forall k <- items :: k.Name? then Ok(map s | s in NamesOf(items) :: items[Name(s)]) else Err
    case _ => Err
  }

  function NamesOf(items: map<Key, Value>): (r: set<string>)
    ensures forall s :: s in r <==> Name(s) in items
  {
    set k <- items | k.Name? :: k.name
  }

  datatype Found = Nothing | Found(value: Value)

  function Get(claims: map<string, Value>, key: string): Found {
    if key in claims then Found(claims[key]) else Nothing
  }

  /** The value at a path: every segment but the last leads into an object. */
  function At(claims: map<string, Value>, segments: seq<string>): Result<Found>
    requires segments != []
    decreases |segments|
  {
    if |segments| == 1 then Ok(Get(claims, segments[0]))
    else if segments[0] !in claims then Err
    else match AsObject(claims[segments[0]])
      case Ok(inner) => At(inner, segments[1..])
      case Err => Err
  }

  method WalkSegments(segments: seq<string>, claims: map<string, Value>) returns (r: Result<Found>)
    requires segments != []
    ensures r == At(claims, segments)
  {
    var current := claims;
    var i := 0;
    while i < |segments| - 1
      invariant 0 <= i <= |segments| - 1
      invariant At(current, segments[i..]) == At(claims, segments)
    {
      assert segments[i..][0] == segments[i] && segments[i..][1..] == segments[i + 1..];
      if segments[i] !in current {
        return Err;
      }
      var inner := AsObject(current[segments[i]]);
      if inner.Err? {
        return Err;
      }
      current := inner.value;
      i := i + 1;
    }
    return Ok(Get(current, segments[i]));
  }

  /** A path reaches exactly what its first part and then its second part reach. */
  lemma {:induction false} AtConcat(claims: map<string, Value>, a: seq<string>, b: seq<string>)
    requires a != [] && b != []
    ensures At(claims, a + b) ==
      match At(claims, a)
      case Ok(Found(v)) => (match AsObject(v) case Ok(inner) => At(inner, b) case Err => Err)
      case _ => Err
    decreases |a|
  {
    assert (a + b)[0] == a[0];
    if |a| == 1 {
      assert (a + b)[1..] == b;
    } else {
      assert (a + b)[1..] == a[1..] + b;
      if a[0] in claims && AsObject(claims[a[0]]).Ok? {
        AtConcat(AsObject(claims[a[0]]).value, a[1..], b);
      }
    }
  }

  function StringOf(f: Found): string {
    if f.Found? && f.value.Str? then f.value.s else ""
  }

  /** The claim under the whole path as one name, else the one the path leads to. */
  function StringClaim(path: string, claims: map<string, Value>): Result<string> {
    var segments := Merged(Split(path, "."), ".", "\\");
    if StringOf(Get(claims, path)) != "" then Ok(StringOf(Get(claims, path)))
    else match At(claims, segments)
      case Ok(f) => if StringOf(f) != "" then Ok(StringOf(f)) else Err
      case Err => Err
  }

  method ReadStringClaim(path: string, claims: map<string, Value>) returns (r: Result<string>)
    ensures r == StringClaim(path, claims)
  {
    var value := StringOf(Get(claims, path));
    if value != "" {
      return Ok(value);
    }
    var segments := SplitWithEscaping(path, ".", "\\");
    EmptyIff(path, ".", "\\");
    var claim := WalkSegments(segments, claims);
    if claim.Err? {
      return Err;
    }
    value := StringOf(claim.value);
    if value != "" {
      return Ok(value);
    }
    return Err;
  }

  /** A non-empty string at any segments can be read by writing them as a path, unless the whole
      path is itself the name of another one. */
  lemma ReadsAnyPath(segments: seq<string>, claims: map<string, Value>)
    requires segments != [] && NoneButLastEscapes(segments, '\\')
    ensures var path := PathOf(segments, '.', '\\');
      StringClaim(path, claims) ==
        if StringOf(Get(claims, path)) != "" then Ok(StringOf(Get(claims, path)))
        else if At(claims, segments).Ok? && StringOf(At(claims, segments).value) != "" then Ok(StringOf(At(claims, segments).value))
        else Err
  {
    hide At, Split, Merged, PathOf, NoneButLastEscapes, Get;
    RoundTripIff(segments, '.', '\\');
  }

  // ----- what is read from nested claims -----

  lemma {:induction false} AnyMapByName(items: map<Key, Value>)
    ensures AsObject(AnyMap(items)).Ok? <==> forall k <- items :: k.Name?
    ensures AsObject(AnyMap(items)).Ok? ==>
      var o := AsObject(AnyMap(items)).value;
      forall n :: (n in o <==> Name(n) in items) && (n in o ==> o[n] == items[Name(n)])
  {}

  /** Claims in which only the segments lead to a string; at each level it is a map[any]any or a
      map[string]any. */
  function Nested(segments: seq<string>, inAny: string -> bool, s: string): map<string, Value>
    requires segments != []
    decreases |segments|
  {
    if |segments| == 1 then map[segments[0] := Str(s)]
    else
      var inner := Nested(segments[1..], inAny, s);
      map[segments[0] := if inAny(segments[0]) then AnyMap(map[Name(segments[1]) := inner[segments[1]]]) else Object(inner)]
  }

  lemma {:induction false} NestedKeys(segments: seq<string>, inAny: string -> bool, s: string)
    requires segments != []
    ensures Nested(segments, inAny, s).Keys == {segments[0]}
    ensures |segments| > 1 ==> !Nested(segments, inAny, s)[segments[0]].Str?
  {}

  lemma {:induction false} NestedIsFound(segments: seq<string>, inAny: string -> bool, s: string)
    requires segments != []
    ensures At(Nested(segments, inAny, s), segments) == Ok(Found(Str(s)))
    decreases |segments|
  {
    if |segments| > 1 {
      var inner := Nested(segments[1..], inAny, s);
      NestedKeys(segments[1..], inAny, s);
      NestedIsFound(segments[1..], inAny, s);
      var items := map[Name(segments[1]) := inner[segments[1]]];
      AnyMapByName(items);
      if inAny(segments[0]) {
        assert AsObject(AnyMap(items)).value == inner;
      }
    }
  }

  /** A string that is nested in claims under some segments is read by their escaped path. */
  lemma NestedIsRead(segments: seq<string>, inAny: string -> bool, s: string)
    requires segments != [] && NoneButLastEscapes(segments, '\\') && s != ""
    ensures StringClaim(PathOf(segments, '.', '\\'), Nested(segments, inAny, s)) == Ok(s)
  {
    hide At, Split, Merged, PathOf, NoneButLastEscapes, Nested;
    var path, claims := PathOf(segments, '.', '\\'), Nested(segments, inAny, s);
    NestedIsFound(segments, inAny, s);
    NestedKeys(segments, inAny, s);
    ReadsAnyPath(segments, claims);
    if |segments| == 1 {
      OneIsNested(segments, inAny, s);
    }
  }

  lemma OneIsNested(segments: seq<string>, inAny: string -> bool, s: string)
    requires |segments| == 1
    ensures Nested(segments, inAny, s) == map[segments[0] := Str(s)]
  {}
}
