/** The Markdown reader and writer (pkg/markdown/markdown.go). A document is a string of bytes. */
module Markdown {
  import opened Text

  datatype Heading = Heading(level: nat, content: string, header: string)

  type MD = seq<Heading>

  // ----- writing -----

  function Line(h: Heading): string {
    Repeat('#', h.level) + " " + h.header + "\n"
  }

  function Bytes(md: MD): string {
    if md == [] then "" else Line(md[0]) + md[0].content + Bytes(md[1..])
  }

  method WriteContent(md: MD) returns (out: string, written: nat)
    ensures out == Bytes(md) && written == |out|
  {
    hide Bytes, Line;
    out, written := "", 0;
    NoBytes();
    assert md[..0] == [];
    for i := 0 to |md|
      invariant out == Bytes(md[..i]) && written == |out|
    {
      var h := md[i];
      BytesMore(md, i);
      var line := Line(h);
      out := out + line;
      written := written + |line|;
      if |h.content| > 0 {
        out := out + h.content;
        written := written + |h.content|;
      } else {
        assert line + h.content == line;
      }
    }
    assert md[..|md|] == md;
  }

  lemma {:induction false} BytesConcat(a: MD, b: MD)
    ensures Bytes(a + b) == Bytes(a) + Bytes(b)
    decreases |a|
  {
    hide Line;
    if a == [] {
      assert a + b == b;
    } else {
      BytesConcat(a[1..], b);
      assert (a + b)[1..] == a[1..] + b;
    }
  }

  lemma BytesMore(md: MD, i: nat)
    requires i < |md|
    ensures Bytes(md[..i + 1]) == Bytes(md[..i]) + Line(md[i]) + md[i].content
  {
    hide Line;
    assert md[..i + 1] == md[..i] + [md[i]];
    BytesConcat(md[..i], [md[i]]);
    assert [md[i]][1..] == [];
    var x := Line(md[i]) + md[i].content;
    assert x + "" == x;
    assert Bytes(md[..i]) + x == Bytes(md[..i]) + Line(md[i]) + md[i].content;
  }

  lemma NoBytes()
    ensures Bytes([]) == ""
  {
  }

  // ----- reading -----

  function HeadingFromString(s: string): Heading {
    var i := AfterLast(s, '#');
    var con := s[i..];
    Heading(i, "", if " " <= con then con[1..] else con)
  }

  /** What is left of a part that has a second line. */
  function Content(p: string): string
    requires IndexOf(p, '\n') < |p|
  {
    p[IndexOf(p, '\n') + 1..]
  }

  function HeadingOf(p: string): Heading
    requires IndexOf(p, '\n') < |p|
  {
    HeadingFromString("#" + p[..IndexOf(p, '\n')])
  }

  /** The headings of the parts behind the first heading mark; `content` is what has been collected
      and not yet been given to a heading. */
  function Headings(parts: seq<string>, content: string): MD
    decreases |parts|
  {
    if parts == [] then []
    else if IndexOf(parts[0], '\n') == |parts[0]| then Headings(parts[1..], content)
    else
      var h := HeadingOf(parts[0]);
      var collected := content + Content(parts[0]) + if |parts| > 1 then "\n" else "";
      if h.header == "" then Headings(parts[1..], collected)
      else [h.(content := collected)] + Headings(parts[1..], "")
  }

  function Parts(b: string): (r: seq<string>)
    ensures r != []
  {
    Split("\n" + b, "\n#")
  }

  function Parse(b: string): MD {
    Headings(Parts(b)[1..], "")
  }

  method NewMD(b: string) returns (md: MD)
    ensures md == Parse(b)
  {
    hide Split, Headings, HeadingFromString, IndexOf, Parts;
    md := [];
    var content := "";
    var parts := Parts(b);
    var numparts := |parts| - 1;
    for i := 0 to |parts|
      invariant i == 0 ==> md == [] && content == ""
      invariant i > 0 ==> Parse(b) == md + Headings(parts[i..], content)
    {
      if i > 0 {
        var p := parts[i];
        HeadingsStep(parts, i, content);
        var eol := IndexOf(p, '\n');
        if eol < |p| {
          var heading := HeadingFromString("#" + p[..eol]);
          content := content + p[eol + 1..];
          if i < numparts {
            content := content + "\n";
          } else {
            assert content + "" == content;
          }
          if heading.header != "" {
            heading := heading.(content := content);
            md := md + [heading];
            content := "";
          }
        }
      }
    }
    NoHeadings(parts, content);
    assert md + [] == md;
  }

  lemma NoHeadings(parts: seq<string>, content: string)
    ensures Headings(parts[|parts|..], content) == []
  {
  }

  lemma HeadingsStep(parts: seq<string>, i: nat, content: string)
    requires i < |parts|
    ensures Headings(parts[i..], content) ==
      if IndexOf(parts[i], '\n') == |parts[i]| then Headings(parts[i + 1..], content)
      else
        var h := HeadingOf(parts[i]);
        var collected := content + Content(parts[i]) + if i + 1 < |parts| then "\n" else "";
        if h.header == "" then Headings(parts[i + 1..], collected) else [h.(content := collected)] + Headings(parts[i + 1..], "")
  {
    hide HeadingOf, Content, IndexOf;
    assert parts[i..][0] == parts[i] && parts[i..][1..] == parts[i + 1..];
  }

  // ----- what the reader produces -----

  predicate Mark(s: string, i: nat) {
    i + 1 < |s| && s[i] == '\n' && s[i + 1] == '#'
  }

  /** No line but the first begins with a heading mark. */
  ghost predicate NoMark(s: string) {
    forall i: nat :: !Mark(s, i)
  }

  /** No line begins with a heading mark. */
  ghost predicate Plain(content: string) {
    NoMark("\n" + content)
  }

  predicate Ended(content: string) {
    content != "" && content[|content| - 1] == '\n'
  }

  ghost predicate NormalHeading(h: Heading) {
    h.level >= 1 && h.header != "" && '#' !in h.header && '\n' !in h.header && Plain(h.content)
  }

  ghost predicate Normal(md: MD) {
    md == [] || (NormalHeading(md[0]) && (|md| > 1 ==> Ended(md[0].content)) && Normal(md[1..]))
  }

  lemma MarkOccurs(p: string, q: string, i: nat)
    ensures Mark(p, i) ==> OccursAt(p + q, "\n#", i) && i < |p|
  {
    if Mark(p, i) {
      assert (p + q)[i..i + 2] == [p[i], p[i + 1]];
    }
  }

  lemma PartsHaveNoMark(s: string, k: nat)
    requires k < |Split(s, "\n#")|
    ensures NoMark(Split(s, "\n#")[k])
  {
    hide Split, Mark, OccursAt;
    var p := Split(s, "\n#")[k];
    PiecesAreLeftmost(s, "\n#", k);
    forall i: nat
      ensures !Mark(p, i)
    {
      MarkOccurs(p, if k + 1 < |Split(s, "\n#")| then "\n#" else "", i);
    }
  }

  lemma PlainConcat(a: string, b: string)
    requires Plain(a) && Plain(b) && (a == "" || Ended(a))
    ensures Plain(a + b)
  {
    var s := "\n" + (a + b);
    forall i: nat
      ensures !Mark(s, i)
    {
      if i < |a| {
        assert Mark(s, i) ==> Mark("\n" + a, i);
      } else {
        assert Mark(s, i) ==> Mark("\n" + b, i - |a|);
      }
    }
  }

  lemma PlainNewline(a: string)
    requires Plain(a)
    ensures Plain(a + "\n") && Ended(a + "\n")
  {
    forall i: nat
      ensures !Mark("\n" + (a + "\n"), i)
    {
      assert Mark("\n" + (a + "\n"), i) ==> Mark("\n" + a, i);
    }
  }

  lemma NoMarkSuffix(p: string, n: nat)
    requires n <= |p| && NoMark(p)
    ensures NoMark(p[n..])
  {
    forall i: nat
      ensures !Mark(p[n..], i)
    {
      assert Mark(p[n..], i) == Mark(p, n + i);
    }
  }

  lemma ContentIsPlain(p: string)
    requires NoMark(p) && IndexOf(p, '\n') < |p|
    ensures Plain(Content(p))
  {
    hide NoMark;
    NoMarkSuffix(p, IndexOf(p, '\n'));
    assert p[IndexOf(p, '\n')..] == "\n" + Content(p);
  }

  lemma HeaderIsOneLine(p: string)
    requires IndexOf(p, '\n') < |p|
    ensures var h := HeadingOf(p); h.level >= 1 && '#' !in h.header && '\n' !in h.header
  {
    var head := p[..IndexOf(p, '\n')];
    var s := "#" + head;
    assert s[0] == '#';
    assert '\n' !in s;
  }

  /** Every document that is read is normal: whatever headings were dropped, its headers are single
      lines without '#', no line of a content reads as a heading, and every content but the last
      ends its line. */
  lemma {:induction false} HeadingsAreNormal(parts: seq<string>, content: string)
    requires forall k :: 0 <= k < |parts| ==> NoMark(parts[k])
    requires Plain(content) && (content == "" || Ended(content))
    ensures Normal(Headings(parts, content))
    ensures |parts| == 0 ==> Headings(parts, content) == []
    decreases |parts|
  {
    hide Plain, NoMark, HeadingOf, Content, IndexOf;
    if parts != [] {
      var p := parts[0];
      var rest := parts[1..];
      if IndexOf(p, '\n') == |p| {
        HeadingsAreNormal(rest, content);
      } else {
        HeaderIsOneLine(p);
        ContentIsPlain(p);
        PlainConcat(content, Content(p));
        var collected := content + Content(p) + if |parts| > 1 then "\n" else "";
        if |parts| > 1 {
          PlainNewline(content + Content(p));
        } else {
          assert content + Content(p) + "" == content + Content(p);
          assert rest == [];
        }
        if HeadingOf(p).header == "" {
          if |parts| > 1 {
            HeadingsAreNormal(rest, collected);
          }
        } else {
          NothingIsPlain();
          HeadingsAreNormal(rest, "");
          assert [HeadingOf(p).(content := collected)] + Headings(rest, "") == Headings(parts, content);
          assert Headings(parts, content)[1..] == Headings(rest, "");
        }
      }
    }
  }

  lemma NothingIsPlain()
    ensures Plain("")
  {
  }

  lemma ParseIsNormal(b: string)
    ensures Normal(Parse(b))
  {
    forall k | 0 <= k < |Parts(b)[1..]|
      ensures NoMark(Parts(b)[1..][k])
    {
      PartsHaveNoMark("\n" + b, k + 1);
    }
    NothingIsPlain();
    HeadingsAreNormal(Parts(b)[1..], "");
  }

  // ----- reading what was written -----

  lemma {:induction false} SplitBefore(x: string, y: string)
    requires NoMark(x)
    ensures Split(x + "\n#" + y, "\n#") == [x] + Split(y, "\n#")
    decreases |x|
  {
    var s := x + "\n#" + y;
    if x == "" {
      assert s == "\n#" + y;
      assert s[2..] == y;
    } else {
      assert s[1..] == x[1..] + "\n#" + y;
      NoMarkSuffix(x, 1);
      SplitBefore(x[1..], y);
      assert !("\n#" <= s) by {
        assert !Mark(x, 0);
        assert s[0] == x[0];
        assert s[1] == if |x| > 1 then x[1] else '\n';
      }
      assert [x[0]] + x[1..] == x;
    }
  }

  lemma {:induction false} SplitWithout(x: string)
    requires NoMark(x)
    ensures Split(x, "\n#") == [x]
    decreases |x|
  {
    if x != "" {
      NoMarkSuffix(x, 1);
      SplitWithout(x[1..]);
      assert !Mark(x, 0);
      assert [x[0]] + x[1..] == x;
    }
  }

  /** A heading as it is written, without its first '#'. */
  function Body(h: Heading): string
    requires h.level >= 1
  {
    Repeat('#', h.level - 1) + " " + h.header + "\n" + h.content
  }

  /** Without the last newline, which the next heading's mark begins with. */
  function Part(h: Heading, last: bool): string
    requires h.level >= 1 && (last || Ended(h.content))
  {
    if last then Body(h) else Body(h)[..|Body(h)| - 1]
  }

  ghost function PartsOf(md: MD): seq<string>
    requires Normal(md)
  {
    if md == [] then [] else [Part(md[0], |md| == 1)] + PartsOf(md[1..])
  }

  lemma BodyHasNoMark(h: Heading)
    requires NormalHeading(h)
    ensures NoMark(Body(h))
  {
    var head := Repeat('#', h.level - 1) + " " + h.header;
    assert Body(h) == head + ("\n" + h.content);
    forall i: nat
      ensures !Mark(Body(h), i)
    {
      if i >= |head| {
        assert Mark(Body(h), i) ==> Mark("\n" + h.content, i - |head|);
      } else {
        assert Body(h)[i] == head[i];
      }
    }
  }

  lemma PartHasNoMark(h: Heading, last: bool)
    requires NormalHeading(h) && (last || Ended(h.content))
    ensures NoMark(Part(h, last))
  {
    BodyHasNoMark(h);
    forall i: nat
      ensures !Mark(Part(h, last), i)
    {
      assert Mark(Part(h, last), i) ==> Mark(Body(h), i);
    }
  }

  lemma LineStart(h: Heading)
    requires h.level >= 1
    ensures Line(h) + h.content == "#" + Body(h)
  {
    assert Repeat('#', h.level) == "#" + Repeat('#', h.level - 1);
  }

  lemma BytesStart(md: MD)
    requires md != [] && md[0].level >= 1
    ensures Bytes(md) == "#" + (Body(md[0]) + Bytes(md[1..]))
  {
    var h := md[0];
    LineStart(h);
    assert "#" + Body(h) + Bytes(md[1..]) == "#" + (Body(h) + Bytes(md[1..]));
  }

  /** Splitting what was written gives the written headings. */
  lemma {:induction false} SplitBytes(md: MD)
    requires Normal(md) && md != []
    ensures Split(Body(md[0]) + Bytes(md[1..]), "\n#") == PartsOf(md)
    decreases |md|
  {
    hide NoMark, Plain, Body, Split, Bytes;
    var h := md[0];
    PartHasNoMark(h, |md| == 1);
    if |md| == 1 {
      NoBytes();
      assert md[1..] == [];
      assert Body(h) + "" == Body(h);
      SplitWithout(Body(h));
    } else {
      SplitBytes(md[1..]);
      BytesStart(md[1..]);
      var y := Body(md[1]) + Bytes(md[1..][1..]);
      BodyEnds(h);
      assert Body(h) + ("#" + y) == Part(h, false) + "\n#" + y by {
        assert "\n" + "#" == "\n#";
        assert Part(h, false) + "\n" == Body(h);
        assert Part(h, false) + ("\n" + "#") + y == (Part(h, false) + "\n") + ("#" + y);
      }
      SplitBefore(Part(h, false), y);
    }
  }

  lemma BodyEnds(h: Heading)
    requires h.level >= 1 && Ended(h.content)
    ensures |Body(h)| > 0 && Body(h)[|Body(h)| - 1] == '\n'
  {
  }

  /** The first line of a part. */
  function Head(h: Heading): string
    requires h.level >= 1
  {
    Repeat('#', h.level - 1) + " " + h.header
  }

  lemma PartLines(h: Heading, last: bool)
    requires NormalHeading(h) && (last || Ended(h.content))
    ensures var p := Part(h, last);
      IndexOf(p, '\n') < |p| && p[..IndexOf(p, '\n')] == Head(h) && Content(p) + (if last then "" else "\n") == h.content
  {
    var p := Part(h, last);
    var head := Head(h);
    assert Body(h) == head + ("\n" + h.content);
    assert p[|head|] == '\n';
    assert p[..|head|] == head;
    forall k | 0 <= k < |head|
      ensures p[k] != '\n'
    {
      assert p[k] == head[k];
    }
    IndexIs(p, '\n', |head|);
    if last {
      assert p == head + ("\n" + h.content);
      assert p[|head| + 1..] == h.content;
      assert Content(p) + "" == Content(p);
    } else {
      var rest := h.content[..|h.content| - 1];
      assert p == head + ("\n" + rest);
      assert p[|head| + 1..] == rest;
      assert rest + "\n" == h.content;
    }
  }

  lemma HeadIsHeading(h: Heading)
    requires NormalHeading(h)
    ensures HeadingFromString("#" + Head(h)) == h.(content := "")
  {
    var s := "#" + Head(h);
    var con := " " + h.header;
    assert "#" + Repeat('#', h.level - 1) == Repeat('#', h.level);
    assert s == Repeat('#', h.level) + con;
    forall k | h.level <= k < |s|
      ensures s[k] != '#'
    {
      assert s[k] == con[k - h.level];
    }
    AfterLastIs(s, '#', h.level);
    assert s[h.level..] == con;
    assert con[1..] == h.header;
  }

  lemma {:induction false} HeadingsOfParts(md: MD)
    requires Normal(md)
    ensures Headings(PartsOf(md), "") == md
    decreases |md|
  {
    hide NoMark, Plain, Part, HeadingFromString, Content, Head, IndexOf;
    if md != [] {
      var h := md[0];
      var parts := PartsOf(md);
      PartLines(h, |md| == 1);
      HeadIsHeading(h);
      HeadingsOfParts(md[1..]);
      assert parts[0] == Part(h, |md| == 1) && parts[1..] == PartsOf(md[1..]);
      assert |parts| > 1 <==> |md| > 1;
      assert "" + Content(parts[0]) == Content(parts[0]);
      assert [h] + md[1..] == md;
    }
  }

  /** Every normal document is read back as it was written. */
  lemma NormalRoundTrip(md: MD)
    requires Normal(md)
    ensures Parse(Bytes(md)) == md
  {
    hide NormalHeading, Part, Body, Headings, Split, Bytes, PartsOf;
    HeadingsOfParts(md);
    if md == [] {
      NoBytes();
      NothingToSplit();
      assert PartsOf(md) == [] by { NoParts(); }
      assert ["\n"][1..] == [];
    } else {
      NormalHead(md);
      SplitBytes(md);
      BytesStart(md);
      var y := Body(md[0]) + Bytes(md[1..]);
      assert "\n" + ("#" + y) == "" + "\n#" + y;
      NothingHasNoMark();
      SplitBefore("", y);
      assert ([""] + PartsOf(md))[1..] == PartsOf(md);
    }
  }

  lemma NoParts()
    ensures PartsOf([]) == []
  {
  }

  lemma NormalHead(md: MD)
    requires Normal(md) && md != []
    ensures md[0].level >= 1
  {
  }

  lemma NothingHasNoMark()
    ensures NoMark("")
  {
  }

  lemma NothingToSplit()
    ensures Split("\n" + "", "\n#") == ["\n"]
  {
    SplitWithout("\n");
    assert "\n" + "" == "\n";
  }

  /** Reading, writing and reading again gives what was read first, whatever the document. */
  lemma ReadWriteRead(b: string)
    ensures Parse(Bytes(Parse(b))) == Parse(b)
  {
    ParseIsNormal(b);
    NormalRoundTrip(Parse(b));
  }

  /** The documents that reading and writing leaves as they are: those that were written from a
      normal one. */
  lemma UnchangedIff(b: string)
    ensures Bytes(Parse(b)) == b <==> exists md :: Normal(md) && Bytes(md) == b
  {
    ParseIsNormal(b);
    if md :| Normal(md) && Bytes(md) == b {
      NormalRoundTrip(md);
    }
  }

  function LeadingMarks(s: string): (n: nat)
    ensures n <= |s| && (n < |s| ==> s[n] != '#') && forall k :: 0 <= k < n ==> s[k] == '#'
  {
    if s == "" || s[0] != '#' then 0 else 1 + LeadingMarks(s[1..])
  }

  /** The level is the number of leading marks only if the heading has no other mark: a later '#'
      makes everything before it part of the level. */
  lemma LevelIsLeadingMarksIff(s: string)
    ensures HeadingFromString(s).level == LeadingMarks(s) <==> '#' !in s[LeadingMarks(s)..]
  {
    var k := LeadingMarks(s);
    hide AfterLast, LeadingMarks;
    if '#' !in s[k..] {
      NoneAfter(s, '#', k);
      AfterLastIs(s, '#', k);
    }
  }

  lemma NoneAfter(s: string, c: char, k: nat)
    requires k <= |s| && c !in s[k..]
    ensures forall i :: k <= i < |s| ==> s[i] != c
  {
    forall i | k <= i < |s|
      ensures s[i] != c
    {
      assert s[i] == s[k..][i - k];
    }
  }

  // ----- where the contents go -----

  /** A part that has a second line and whose first line has a header. */
  predicate IsHeaded(p: string) {
    IndexOf(p, '\n') < |p| && HeadingOf(p).header != ""
  }

  /** The position, from `i` on, of the next part that has a header. */
  function NextHeaded(parts: seq<string>, i: nat): (j: nat)
    requires i <= |parts|
    ensures i <= j <= |parts| && (j < |parts| ==> IsHeaded(parts[j])) && forall k :: i <= k < j ==> !IsHeaded(parts[k])
    decreases |parts| - i
  {
    if i == |parts| || IsHeaded(parts[i]) then i else NextHeaded(parts, i + 1)
  }

  /** What stands between the first line of a part and the next part. */
  function TextOf(parts: seq<string>, j: nat): string
    requires j < |parts|
  {
    if IndexOf(parts[j], '\n') == |parts[j]| then ""
    else Content(parts[j]) + if j + 1 < |parts| then "\n" else ""
  }

  /** The texts of the parts from `i` to before `j`. */
  function Texts(parts: seq<string>, i: nat, j: nat): string
    requires i <= j <= |parts|
    decreases j - i
  {
    if i == j then "" else TextOf(parts, i) + Texts(parts, i + 1, j)
  }

  lemma HeadingsNext(parts: seq<string>, i: nat, content: string)
    requires i < |parts|
    ensures Headings(parts[i..], content) ==
      if IsHeaded(parts[i]) then [HeadingOf(parts[i]).(content := content + TextOf(parts, i))] + Headings(parts[i + 1..], "")
      else Headings(parts[i + 1..], content + TextOf(parts, i))
  {
    hide HeadingOf, Content, IndexOf, Headings;
    HeadingsStep(parts, i, content);
    var p := parts[i];
    if IndexOf(p, '\n') < |p| {
      var end := if i + 1 < |parts| then "\n" else "";
      assert content + (Content(p) + end) == content + Content(p) + end;
    } else {
      assert content + "" == content;
    }
  }

  /** Nothing is lost and nothing moves past a header: the next heading that is read is that of the
      next part with a header, and it holds all the text up to the part behind it, also that of the
      parts without a header in between; without such a part there is no other heading. */
  lemma {:induction false} HeadingsCollect(parts: seq<string>, i: nat, content: string)
    requires i <= |parts|
    ensures var j := NextHeaded(parts, i);
      Headings(parts[i..], content) ==
      if j == |parts| then []
      else [HeadingOf(parts[j]).(content := content + Texts(parts, i, j + 1))] + Headings(parts[j + 1..], "")
    decreases |parts| - i
  {
    hide HeadingOf, IndexOf, Headings, TextOf, IsHeaded;
    if i == |parts| {
      NoHeadings(parts, content);
    } else {
      HeadingsNext(parts, i, content);
      var t, j := TextOf(parts, i), NextHeaded(parts, i);
      if IsHeaded(parts[i]) {
        assert t + "" == t;
      } else {
        HeadingsCollect(parts, i + 1, content + t);
        if j < |parts| {
          assert (content + t) + Texts(parts, i + 1, j + 1) == content + (t + Texts(parts, i + 1, j + 1));
        }
      }
    }
  }
}
