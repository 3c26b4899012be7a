/** The parts of Go's `strings` package that the parsers below rely on. A character stands for a
    byte. */
module Text {

  function OnHead(c: char, xs: seq<string>): (r: seq<string>)
    requires xs != []
    ensures |r| == |xs| && r[0] == [c] + xs[0] && r[1..] == xs[1..]
  {
    [[c] + xs[0]] + xs[1..]
  }

  /** Cuts at every occurrence of a separator, leftmost first and without overlaps; an empty
      separator cuts between all characters. */
  function Split(s: string, sep: string): (r: seq<string>)
    ensures sep != "" ==> r != []
    ensures sep == "" ==> |r| == |s|
    decreases |s|
  {
    if sep == "" then seq(|s|, i requires 0 <= i < |s| => [s[i]])
    else if s == "" then [""]
    else if sep <= s then [""] + Split(s[|sep|..], sep)
    else OnHead(s[0], Split(s[1..], sep))
  }

  function Join(xs: seq<string>, sep: string): string {
    if xs == [] then ""
    else if |xs| == 1 then xs[0]
    else xs[0] + sep + Join(xs[1..], sep)
  }

  lemma JoinCons(x: string, xs: seq<string>, sep: string)
    requires xs != []
    ensures Join([x] + xs, sep) == x + sep + Join(xs, sep)
  {
    assert ([x] + xs)[1..] == xs;
  }

  /** Splitting loses nothing. */
  lemma {:induction false} JoinSplit(s: string, sep: string)
    requires sep != ""
    ensures Join(Split(s, sep), sep) == s
    decreases |s|
  {
    hide Join, OnHead;
    if s == "" {
      assert Join([""], sep) == "" by { JoinOne("", sep); }
    } else if sep <= s {
      var rest := s[|sep|..];
      JoinSplit(rest, sep);
      JoinCons("", Split(rest, sep), sep);
      assert sep + rest == s;
      assert "" + sep == sep;
    } else {
      JoinSplit(s[1..], sep);
      JoinOnHead(s[0], Split(s[1..], sep), sep);
    }
  }

  lemma JoinOne(x: string, sep: string)
    ensures Join([x], sep) == x
  {
  }

  lemma JoinOnHead(c: char, xs: seq<string>, sep: string)
    requires xs != []
    ensures Join(OnHead(c, xs), sep) == [c] + Join(xs, sep)
  {
    if |xs| > 1 {
      assert Join(OnHead(c, xs), sep) == ([c] + xs[0]) + sep + Join(xs[1..], sep);
      assert ([c] + xs[0]) + sep + Join(xs[1..], sep) == [c] + (xs[0] + sep + Join(xs[1..], sep));
    }
  }

  lemma {:induction false} FirstPieceIsPrefix(s: string, sep: string)
    requires sep != ""
    ensures Split(s, sep)[0] <= s
    ensures |Split(s, sep)| > 1 ==> Split(s, sep)[0] + sep <= s
    decreases |s|
  {
    if s != "" && !(sep <= s) {
      FirstPieceIsPrefix(s[1..], sep);
      SplitCons(s, sep);
      hide Split, OnHead;
      PrefixCons(s, Split(s[1..], sep)[0]);
      if |Split(s, sep)| > 1 {
        PrefixCons(s, Split(s[1..], sep)[0] + sep);
        Associative([s[0]], Split(s[1..], sep)[0], sep);
      }
    }
  }

  lemma PrefixCons(s: string, p: string)
    requires s != "" && p <= s[1..]
    ensures [s[0]] + p <= s
  {
  }

  predicate OccursAt(s: string, sep: string, j: nat) {
    j + |sep| <= |s| && s[j..j + |sep|] == sep
  }

  /** The separator does not occur in `s` at any of the first `n` positions. */
  predicate NotBefore(s: string, sep: string, n: nat) {
    forall j: nat :: j < n ==> !OccursAt(s, sep, j)
  }

  /** The cuts are leftmost: no piece contains the separator, and a piece with the separator behind
      it contains it only there. */
  lemma {:induction false} PiecesAreLeftmost(s: string, sep: string, k: nat)
    requires sep != "" && k < |Split(s, sep)|
    ensures NotBefore(Piece(s, sep, k), sep, |Split(s, sep)[k]|)
    decreases |s|
  {
    hide NotBefore;
    if s == "" {
      NoneBefore(Piece(s, sep, k), sep);
    } else if sep <= s {
      if k == 0 {
        NoneBefore(Piece(s, sep, k), sep);
      } else {
        PiecesAreLeftmost(s[|sep|..], sep, k - 1);
        assert Split(s, sep)[k] == Split(s[|sep|..], sep)[k - 1];
      }
    } else {
      PiecesAreLeftmost(s[1..], sep, k);
      if k == 0 {
        FirstIsLeftmost(s, sep);
      } else {
        assert Split(s, sep)[k] == Split(s[1..], sep)[k];
      }
    }
  }

  /** A piece, with the separator behind it unless it is the last one. */
  function Piece(s: string, sep: string, k: nat): string
    requires sep != "" && k < |Split(s, sep)|
  {
    Split(s, sep)[k] + if k + 1 < |Split(s, sep)| then sep else ""
  }

  lemma FirstIsLeftmost(s: string, sep: string)
    requires sep != "" && s != "" && !(sep <= s) && NotBefore(Piece(s[1..], sep, 0), sep, |Split(s[1..], sep)[0]|)
    ensures NotBefore(Piece(s, sep, 0), sep, |Split(s, sep)[0]|)
  {
    hide *;
    PieceIsPrefix(s[1..], sep);
    PieceCons(s, sep);
    NotBeforeCons(s, Piece(s[1..], sep, 0), sep, |Split(s[1..], sep)[0]|);
  }

  lemma PieceIsPrefix(s: string, sep: string)
    requires sep != ""
    ensures Piece(s, sep, 0) <= s
  {
    FirstPieceIsPrefix(s, sep);
    hide Split;
    assert Split(s, sep)[0] + "" == Split(s, sep)[0];
  }

  lemma SplitCons(s: string, sep: string)
    requires sep != "" && s != "" && !(sep <= s)
    ensures Split(s, sep) == OnHead(s[0], Split(s[1..], sep))
  {
    hide OnHead;
  }

  lemma PieceCons(s: string, sep: string)
    requires sep != "" && s != "" && !(sep <= s)
    ensures Piece(s, sep, 0) == [s[0]] + Piece(s[1..], sep, 0) && |Split(s, sep)[0]| == |Split(s[1..], sep)[0]| + 1
  {
    hide Split, OnHead;
    SplitCons(s, sep);
    Associative([s[0]], Split(s[1..], sep)[0], if 1 < |Split(s[1..], sep)| then sep else "");
  }

  lemma Associative(a: string, b: string, c: string)
    ensures (a + b) + c == a + (b + c)
  {
  }

  lemma NoneBefore(s: string, sep: string)
    ensures NotBefore(s, sep, 0)
  {
  }

  lemma NotBeforeCons(s: string, tail: string, sep: string, n: nat)
    requires sep != "" && s != "" && tail <= s[1..] && !(sep <= s) && NotBefore(tail, sep, n)
    ensures NotBefore([s[0]] + tail, sep, n + 1)
  {
    var t := [s[0]] + tail;
    forall j: nat | j < n + 1
      ensures !OccursAt(t, sep, j)
    {
      if j == 0 {
        assert t <= s;
        assert |sep| <= |t| ==> t[..|sep|] == s[..|sep|];
      } else {
        assert j + |sep| <= |t| ==> t[j..j + |sep|] == tail[j - 1..j - 1 + |sep|];
        assert OccursAt(t, sep, j) == OccursAt(tail, sep, j - 1);
      }
    }
  }

  function Repeat(c: char, n: nat): (s: string)
    ensures |s| == n && forall k :: 0 <= k < n ==> s[k] == c
  {
    if n == 0 then "" else [c] + Repeat(c, n - 1)
  }

  predicate HasSuffix(s: string, suffix: string) {
    |suffix| <= |s| && s[|s| - |suffix|..] == suffix
  }

  /** The position after the last occurrence of a character. */
  function AfterLast(s: string, c: char): (n: nat)
    ensures n <= |s| && c !in s[n..]
    ensures n > 0 ==> s[n - 1] == c
    ensures n == 0 <==> c !in s
  {
    if s == "" then 0
    else if s[|s| - 1] == c then |s|
    else
      var n := AfterLast(s[..|s| - 1], c);
      assert s == s[..|s| - 1] + [s[|s| - 1]];
      n
  }

  /** The position of the first occurrence, the length if there is none. */
  function IndexOf(s: string, c: char): (i: nat)
    ensures i <= |s| && c !in s[..i]
    ensures i < |s| ==> s[i] == c
  {
    if s == "" || s[0] == c then 0
    else
      var i := 1 + IndexOf(s[1..], c);
      assert s[..i] == [s[0]] + s[1..][..i - 1];
      i
  }

  lemma {:induction false} AfterLastIs(s: string, c: char, n: nat)
    requires n <= |s| && (forall k :: n <= k < |s| ==> s[k] != c) && (n == 0 || s[n - 1] == c)
    ensures AfterLast(s, c) == n
    decreases |s|
  {
    if s != "" && s[|s| - 1] != c {
      AfterLastIs(s[..|s| - 1], c, n);
    }
  }

  lemma {:induction false} IndexIs(s: string, c: char, i: nat)
    requires i < |s| && s[i] == c && forall k :: 0 <= k < i ==> s[k] != c
    ensures IndexOf(s, c) == i
    decreases |s|
  {
    if i > 0 {
      IndexIs(s[1..], c, i - 1);
    }
  }
}
