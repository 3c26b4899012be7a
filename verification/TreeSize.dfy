/** The tree size check and repair (opencloud/pkg/command/decomposedfs.go). */
module TreeSize {

  datatype Option<+T> = None | Some(value: T)

  const TWO_64: nat := 0x1_0000_0000_0000_0000

  /** uint64 arithmetic. */
  function Wrap(n: nat): nat {
    n % TWO_64
  }

  function Add(a: nat, b: nat): nat {
    Wrap(a + b)
  }

  type Id = string

  /** A node of the storage; the children of a folder that cannot be listed are not seen. */
  datatype Node = Container(id: Id, listable: bool, children: seq<Node>) | File(id: Id) | Other(id: Id)

  function Children(n: Node): seq<Node> {
    if n.Container? && n.listable then n.children else []
  }

  // ----- what the sizes should be -----

  /** The bytes of all blobs in a subtree. */
  function Total(n: Node, blobs: map<Id, nat>): nat {
    match n
    case File(id) => if id in blobs then blobs[id] else 0
    case Container(_, listable, children) => if listable then TotalAll(children, blobs) else 0
    case Other(_) => 0
  }

  function TotalAll(ns: seq<Node>, blobs: map<Id, nat>): nat {
    if ns == [] then 0 else TotalAll(ns[..|ns| - 1], blobs) + Total(ns[|ns| - 1], blobs)
  }

  /** The containers among the nodes and below them. */
  function Containers(ns: seq<Node>): (r: seq<Node>)
    ensures forall c <- r :: c.Container?
  {
    if ns == [] then []
    else
      var n := ns[|ns| - 1];
      Containers(ns[..|ns| - 1]) + ContainersIn(n)
  }

  function ContainersIn(n: Node): (r: seq<Node>)
    ensures forall c <- r :: c.Container?
  {
    if !n.Container? then [] else if n.listable then Containers(n.children) + [n] else [n]
  }

  /** Everything that a walk from the node reads can be read. */
  predicate Complete(n: Node, blobs: map<Id, nat>, sizes: map<Id, nat>) {
    n.Container? && n.listable && CompleteAll(n.children, blobs, sizes)
  }

  predicate CompleteAll(ns: seq<Node>, blobs: map<Id, nat>, sizes: map<Id, nat>) {
    ns == [] ||
    var n := ns[|ns| - 1];
    CompleteAll(ns[..|ns| - 1], blobs, sizes) && CompleteChild(n, blobs, sizes)
  }

  predicate CompleteChild(n: Node, blobs: map<Id, nat>, sizes: map<Id, nat>) {
    match n
    case Container(id, listable, children) => listable && CompleteAll(children, blobs, sizes) && id in sizes
    case File(id) => id in blobs
    case Other(_) => true
  }

  predicate Right(c: Node, blobs: map<Id, nat>, sizes: map<Id, nat>) {
    c.id in sizes && sizes[c.id] == Wrap(Total(c, blobs))
  }

  predicate AllRight(cs: seq<Node>, blobs: map<Id, nat>, sizes: map<Id, nat>) {
    forall c <- cs :: Right(c, blobs, sizes)
  }

  function WrongCount(cs: seq<Node>, blobs: map<Id, nat>, sizes: map<Id, nat>): nat {
    if cs == [] then 0
    else WrongCount(cs[..|cs| - 1], blobs, sizes) + if Right(cs[|cs| - 1], blobs, sizes) then 0 else 1
  }

  predicate Unique(cs: seq<Node>) {
    forall i, j :: 0 <= i < j < |cs| ==> cs[i].id != cs[j].id
  }

  /** Every size that differs was set to the right size of some container. */
  predicate Repairs(cs: seq<Node>, blobs: map<Id, nat>, before: map<Id, nat>, after: map<Id, nat>) {
    && after.Keys == before.Keys
    && forall id <- after :: after[id] == before[id] || exists c <- cs :: c.id == id && Right(c, blobs, after)
  }

  // ----- one child at a time -----

  lemma OneMore(ns: seq<Node>, i: nat, blobs: map<Id, nat>, sizes: map<Id, nat>)
    requires i < |ns|
    ensures TotalAll(ns[..i + 1], blobs) == TotalAll(ns[..i], blobs) + Total(ns[i], blobs)
    ensures Containers(ns[..i + 1]) == Containers(ns[..i]) + ContainersIn(ns[i])
    ensures CompleteAll(ns[..i + 1], blobs, sizes) <==> CompleteAll(ns[..i], blobs, sizes) && CompleteChild(ns[i], blobs, sizes)
  {
    assert ns[..i + 1][..i] == ns[..i];
  }

  lemma {:induction false} CompleteParts(ns: seq<Node>, i: nat, blobs: map<Id, nat>, sizes: map<Id, nat>)
    requires i < |ns| && CompleteAll(ns, blobs, sizes)
    ensures CompleteChild(ns[i], blobs, sizes)
    decreases |ns|
  {
    if i < |ns| - 1 {
      CompleteParts(ns[..|ns| - 1], i, blobs, sizes);
    }
  }

  /** A walk does not change what it can read. */
  lemma {:induction false} CompleteSame(ns: seq<Node>, blobs: map<Id, nat>, s: map<Id, nat>, t: map<Id, nat>)
    requires s.Keys == t.Keys
    ensures CompleteAll(ns, blobs, s) == CompleteAll(ns, blobs, t)
  {
    if ns != [] {
      CompleteSame(ns[..|ns| - 1], blobs, s, t);
      var n := ns[|ns| - 1];
      if n.Container? {
        CompleteSame(n.children, blobs, s, t);
      }
    }
  }

  lemma {:induction false} WrongConcat(a: seq<Node>, b: seq<Node>, blobs: map<Id, nat>, sizes: map<Id, nat>)
    ensures WrongCount(a + b, blobs, sizes) == WrongCount(a, blobs, sizes) + WrongCount(b, blobs, sizes)
    decreases |b|
  {
    if b == [] {
      assert a + b == a;
    } else {
      assert (a + b)[..|a + b| - 1] == a + b[..|b| - 1];
      WrongConcat(a, b[..|b| - 1], blobs, sizes);
    }
  }

  lemma {:induction false} WrongSame(cs: seq<Node>, blobs: map<Id, nat>, s: map<Id, nat>, t: map<Id, nat>)
    requires s.Keys == t.Keys && forall c <- cs :: c.id in s ==> s[c.id] == t[c.id]
    ensures WrongCount(cs, blobs, s) == WrongCount(cs, blobs, t)
    decreases |cs|
  {
    if cs != [] {
      WrongSame(cs[..|cs| - 1], blobs, s, t);
    }
  }

  lemma {:induction false} NoneWrong(cs: seq<Node>, blobs: map<Id, nat>, sizes: map<Id, nat>)
    ensures WrongCount(cs, blobs, sizes) == 0 <==> AllRight(cs, blobs, sizes)
    decreases |cs|
  {
    if cs != [] {
      NoneWrong(cs[..|cs| - 1], blobs, sizes);
      assert forall c <- cs :: c in cs[..|cs| - 1] || c == cs[|cs| - 1];
    }
  }

  lemma UniqueParts(a: seq<Node>, b: seq<Node>)
    requires Unique(a + b)
    ensures Unique(a) && Unique(b) && forall c <- a, d <- b :: c.id != d.id
  {
    forall i, j | 0 <= i < j < |a|
      ensures a[i].id != a[j].id
    {
      assert (a + b)[i] == a[i] && (a + b)[j] == a[j];
    }
    forall i, j | 0 <= i < j < |b|
      ensures b[i].id != b[j].id
    {
      assert (a + b)[|a| + i] == b[i] && (a + b)[|a| + j] == b[j];
    }
    forall i, j | 0 <= i < |a| && 0 <= j < |b|
      ensures a[i].id != b[j].id
    {
      assert (a + b)[i] == a[i] && (a + b)[|a| + j] == b[j];
    }
  }

  /** Repairing some containers and then others. */
  lemma RepairsConcat(a: seq<Node>, b: seq<Node>, blobs: map<Id, nat>, s0: map<Id, nat>, s1: map<Id, nat>, s2: map<Id, nat>)
    requires Repairs(a, blobs, s0, s1) && Repairs(b, blobs, s1, s2)
    ensures Repairs(a + b, blobs, s0, s2)
  {
    hide Total;
    forall id | id in s2 && s2[id] != s0[id]
      ensures exists c <- a + b :: c.id == id && Right(c, blobs, s2)
    {
      if s2[id] != s1[id] {
        var c :| c in b && c.id == id && Right(c, blobs, s2);
        assert c in a + b;
      } else {
        var c :| c in a && c.id == id && Right(c, blobs, s1);
        assert c in a + b && Right(c, blobs, s2);
      }
    }
  }

  /** With unique ids the second repair leaves alone what the first has repaired, and the first
      what the second will look at. */
  lemma RepairsApart(a: seq<Node>, b: seq<Node>, blobs: map<Id, nat>, s0: map<Id, nat>, s1: map<Id, nat>, s2: map<Id, nat>)
    requires Unique(a + b) && Repairs(a, blobs, s0, s1) && Repairs(b, blobs, s1, s2)
    ensures WrongCount(b, blobs, s1) == WrongCount(b, blobs, s0)
    ensures AllRight(a, blobs, s1) && AllRight(b, blobs, s2) ==> AllRight(a + b, blobs, s2)
  {
    hide Total;
    UniqueParts(a, b);
    WrongSame(b, blobs, s1, s0);
  }

  lemma WrapTwice(n: nat)
    ensures Wrap(Wrap(n)) == Wrap(n)
  {
  }

  /** What is not a container adds its own blob. */
  lemma LeafParts(n: Node, blobs: map<Id, nat>, sizes: map<Id, nat>)
    ensures !n.Container? ==> ContainersIn(n) == []
    ensures n.File? ==> (CompleteChild(n, blobs, sizes) <==> n.id in blobs) && (n.id in blobs ==> Total(n, blobs) == blobs[n.id])
    ensures n.Other? ==> CompleteChild(n, blobs, sizes) && Total(n, blobs) == 0
  {
  }

  lemma WrapZero()
    ensures Wrap(0) == 0
  {
  }

  /** Adding wrapped sizes wraps the sum. */
  lemma AddWraps(a: nat, b: nat, c: nat)
    requires Wrap(c) == Wrap(b)
    ensures Add(Wrap(a), c) == Wrap(a + b)
  {
    var k := a / TWO_64 + b / TWO_64 - c / TWO_64;
    assert a + b == Wrap(a) + c + TWO_64 * k;
    WrapMultiple(Wrap(a) + c, a + b, k);
  }

  lemma WrapMultiple(x: nat, y: nat, k: int)
    requires y == x + TWO_64 * k
    ensures Wrap(x) == Wrap(y)
  {
    var q := x / TWO_64;
    assert y == TWO_64 * (q + k) + Wrap(x);
  }

  /** What a complete walk over some containers does to their sizes, and how many were wrong. */
  predicate Walked(cs: seq<Node>, repair: bool, blobs: map<Id, nat>, before: map<Id, nat>, after: map<Id, nat>, wrong: nat) {
    && Touched(cs, repair, blobs, before, after)
    && ((repair ==> Unique(cs)) ==> wrong == WrongCount(cs, blobs, before))
    && (repair && Unique(cs) ==> AllRight(cs, blobs, after))
  }

  /** What any walk does, even one that fails. */
  predicate Touched(cs: seq<Node>, repair: bool, blobs: map<Id, nat>, before: map<Id, nat>, after: map<Id, nat>) {
    Repairs(cs, blobs, before, after) && (!repair ==> after == before)
  }

  lemma WalkedNothing(repair: bool, blobs: map<Id, nat>, sizes: map<Id, nat>)
    ensures Walked([], repair, blobs, sizes, sizes, 0)
  {
  }

  lemma WalkedConcat(a: seq<Node>, b: seq<Node>, repair: bool, blobs: map<Id, nat>,
                     s0: map<Id, nat>, s1: map<Id, nat>, s2: map<Id, nat>, v: nat, w: nat)
    requires Walked(a, repair, blobs, s0, s1, v) && Walked(b, repair, blobs, s1, s2, w)
    ensures Walked(a + b, repair, blobs, s0, s2, v + w)
  {
    hide Repairs, Unique, AllRight, WrongCount;
    RepairsConcat(a, b, blobs, s0, s1, s2);
    WrongConcat(a, b, blobs, s0);
    if repair && Unique(a + b) {
      UniqueParts(a, b);
      RepairsApart(a, b, blobs, s0, s1, s2);
    }
  }

  lemma TouchedConcat(a: seq<Node>, b: seq<Node>, rest: seq<Node>, repair: bool, blobs: map<Id, nat>,
                      s0: map<Id, nat>, s1: map<Id, nat>, s2: map<Id, nat>)
    requires Touched(a, repair, blobs, s0, s1) && Touched(b, repair, blobs, s1, s2) && a + b <= rest
    ensures Touched(rest, repair, blobs, s0, s2)
  {
    RepairsConcat(a, b, blobs, s0, s1, s2);
    assert forall c <- a + b :: c in rest;
  }

  lemma WalkedTouches(cs: seq<Node>, repair: bool, blobs: map<Id, nat>, before: map<Id, nat>, after: map<Id, nat>, wrong: nat)
    requires Walked(cs, repair, blobs, before, after, wrong)
    ensures Touched(cs, repair, blobs, before, after) && after.Keys == before.Keys
  {
  }

  lemma TouchedKeys(cs: seq<Node>, repair: bool, blobs: map<Id, nat>, before: map<Id, nat>, after: map<Id, nat>)
    requires Touched(cs, repair, blobs, before, after)
    ensures after.Keys == before.Keys
  {
  }

  lemma TouchedNothing(repair: bool, blobs: map<Id, nat>, sizes: map<Id, nat>)
    ensures Touched([], repair, blobs, sizes, sizes)
  {
  }

  lemma Empty(blobs: map<Id, nat>, sizes: map<Id, nat>)
    ensures CompleteAll([], blobs, sizes) && TotalAll([], blobs) == 0 && Containers([]) == []
  {
  }

  lemma CompleteChildSame(n: Node, blobs: map<Id, nat>, s: map<Id, nat>, t: map<Id, nat>)
    requires s.Keys == t.Keys
    ensures CompleteChild(n, blobs, s) == CompleteChild(n, blobs, t)
  {
    if n.Container? {
      CompleteSame(n.children, blobs, s, t);
    }
  }

  lemma Incomplete(ns: seq<Node>, i: nat, blobs: map<Id, nat>, sizes: map<Id, nat>)
    requires i < |ns| && !CompleteChild(ns[i], blobs, sizes)
    ensures !CompleteAll(ns, blobs, sizes)
  {
    if CompleteAll(ns, blobs, sizes) {
      CompleteParts(ns, i, blobs, sizes);
    }
  }

  /** A container's own size, after the walk below it. */
  lemma WalkedOne(c: Node, repair: bool, blobs: map<Id, nat>, sizes: map<Id, nat>)
    requires c.Container? && c.id in sizes
    ensures var total := Wrap(Total(c, blobs));
      Walked([c], repair, blobs, sizes, if repair then sizes[c.id := total] else sizes, if sizes[c.id] == total then 0 else 1)
  {
    var after := sizes[c.id := Wrap(Total(c, blobs))];
    assert Right(c, blobs, after) && c in [c];
    assert after.Keys == sizes.Keys;
    assert [c][..0] == [];
  }

  lemma {:induction false} ContainersPrefix(ns: seq<Node>, i: nat)
    requires i <= |ns|
    ensures Containers(ns[..i]) <= Containers(ns)
    decreases |ns|
  {
    if i < |ns| {
      ContainersPrefix(ns[..|ns| - 1], i);
      assert ns[..|ns| - 1][..i] == ns[..i];
    } else {
      assert ns[..i] == ns;
    }
  }

  lemma TouchedPrefix(ns: seq<Node>, i: nat, repair: bool, blobs: map<Id, nat>, s0: map<Id, nat>, s1: map<Id, nat>, s2: map<Id, nat>, wrong: nat)
    requires i < |ns| && Walked(Containers(ns[..i]), repair, blobs, s0, s1, wrong) && Touched(ContainersIn(ns[i]), repair, blobs, s1, s2)
    ensures Touched(Containers(ns), repair, blobs, s0, s2)
  {
    hide *;
    OneMore(ns, i, blobs, s0);
    ContainersPrefix(ns, i + 1);
    WalkedTouches(Containers(ns[..i]), repair, blobs, s0, s1, wrong);
    TouchedConcat(Containers(ns[..i]), ContainersIn(ns[i]), Containers(ns), repair, blobs, s0, s1, s2);
  }

  // ----- the walk -----

  class Storage {
    var blobs: map<Id, nat>     // the blob size of each file
    var sizes: map<Id, nat>     // the tree size of each container

    constructor (blobs: map<Id, nat>, sizes: map<Id, nat>)
      ensures this.blobs == blobs && this.sizes == sizes
    {
      this.blobs, this.sizes := blobs, sizes;
    }

    /** `wrong` counts the reported mismatches. */
    method WalkTree(root: Node, repair: bool) returns (size: Option<nat>, wrong: nat)
      modifies this`sizes
      ensures size.Some? <==> Complete(root, blobs, old(sizes))
      ensures size.Some? ==> size.value == Wrap(Total(root, blobs))
      ensures size.Some? ==> Walked(Containers(Children(root)), repair, blobs, old(sizes), sizes, wrong)
      ensures Touched(Containers(Children(root)), repair, blobs, old(sizes), sizes)
      decreases root, 1
    {
      hide Walked, Touched, ContainersIn, CompleteChild, Containers, CompleteAll, TotalAll, Right, Wrap, Add;
      wrong := 0;
      WalkedNothing(repair, blobs, sizes);
      Empty(blobs, sizes);
      assert Wrap(0) == 0 by { WrapZero(); }
      WalkedTouches([], repair, blobs, sizes, sizes, 0);
      if !root.Container? || !root.listable {
        TouchedConcat([], [], Containers(Children(root)), repair, blobs, sizes, sizes, sizes);
        return None, wrong;
      }
      var children := root.children;
      var treesize := 0;
      for i := 0 to |children|
        invariant CompleteAll(children[..i], blobs, old(sizes)) && old(sizes).Keys == sizes.Keys
        invariant treesize == Wrap(TotalAll(children[..i], blobs))
        invariant Walked(Containers(children[..i]), repair, blobs, old(sizes), sizes, wrong)
      {
        ghost var before := sizes;
        var child := children[i];
        OneMore(children, i, blobs, old(sizes));
        CompleteChildSame(child, blobs, old(sizes), before);
        var size, more := VisitChild(child, repair);
        if size.None? {
          Incomplete(children, i, blobs, old(sizes));
          TouchedPrefix(children, i, repair, blobs, old(sizes), before, sizes, wrong);
          return None, wrong + more;
        }
        WalkedConcat(Containers(children[..i]), ContainersIn(child), repair, blobs, old(sizes), before, sizes, wrong, more);
        WalkedTouches(ContainersIn(child), repair, blobs, before, sizes, more);
        AddWraps(TotalAll(children[..i], blobs), Total(child, blobs), size.value);
        treesize := Add(treesize, size.value);
        wrong := wrong + more;
      }
      assert children[..|children|] == children;
      WalkedTouches(Containers(children), repair, blobs, old(sizes), sizes, wrong);
      return Some(treesize), wrong;
    }

    /** The loop's switch on the type of a child: what it adds to the tree size. */
    method VisitChild(child: Node, repair: bool) returns (size: Option<nat>, wrong: nat)
      modifies this`sizes
      ensures size.Some? <==> CompleteChild(child, blobs, old(sizes))
      ensures size.Some? ==> Wrap(size.value) == Wrap(Total(child, blobs))
      ensures size.Some? ==> Walked(ContainersIn(child), repair, blobs, old(sizes), sizes, wrong)
      ensures Touched(ContainersIn(child), repair, blobs, old(sizes), sizes)
      decreases child, 3
    {
      hide Walked, Touched, Wrap, Total, TotalAll, Containers, ContainersIn, CompleteAll, CompleteChild;
      WalkedNothing(repair, blobs, sizes);
      TouchedNothing(repair, blobs, sizes);
      LeafParts(child, blobs, sizes);
      match child
      case Container(_, _, _) =>
        size, wrong := VisitContainer(child, repair);
        WrapTwice(Total(child, blobs));
      case File(_) =>
        return if child.id in blobs then Some(blobs[child.id]) else None, 0;
      case Other(_) =>
        return Some(0), 0;
    }

    method VisitContainer(child: Node, repair: bool) returns (size: Option<nat>, wrong: nat)
      requires child.Container?
      modifies this`sizes
      ensures size.Some? <==> CompleteChild(child, blobs, old(sizes))
      ensures size.Some? ==> size.value == Wrap(Total(child, blobs))
      ensures size.Some? ==> Walked(ContainersIn(child), repair, blobs, old(sizes), sizes, wrong)
      ensures Touched(ContainersIn(child), repair, blobs, old(sizes), sizes)
      decreases child, 2
    {
      hide Walked, Touched, Containers, CompleteAll, TotalAll, Total;
      size, wrong := WalkTree(child, repair);
      ghost var before, below := sizes, Containers(Children(child));
      TouchedKeys(below, repair, blobs, old(sizes), before);
      if size.None? || child.id !in sizes {
        TouchedNothing(repair, blobs, before);
        Empty(blobs, before);
        TouchedConcat(below, [], ContainersIn(child), repair, blobs, old(sizes), before, before);
        return None, wrong;
      }
      WalkedOne(child, repair, blobs, before);
      WalkedConcat(below, [child], repair, blobs, old(sizes), before,
                   if repair then before[child.id := size.value] else before, wrong, if before[child.id] == size.value then 0 else 1);
      if sizes[child.id] != size.value {
        wrong := wrong + 1;
        if repair {
          sizes := sizes[child.id := size.value];
        }
      } else if repair {
        assert before[child.id := size.value] == before;
      }
      WalkedTouches(ContainersIn(child), repair, blobs, old(sizes), sizes, wrong);
    }

    function Stored(id: Id): nat
      reads this
    {
      if id in sizes then sizes[id] else 0
    }

    /** The check of a space, after its root was found. A walk that fails counts as size 0 and does
        not end the check: with `repair` the root's size is then set to 0. */
    method Check(root: Node, repair: bool) returns (wrong: nat)
      modifies this`sizes
      ensures !repair ==> sizes == old(sizes)
      ensures repair ==> Stored(root.id) == if Complete(root, blobs, old(sizes)) then Wrap(Total(root, blobs)) else 0
      ensures repair ==>
        (Stored(root.id) == Wrap(Total(root, blobs)) <==>
           Complete(root, blobs, old(sizes)) || Wrap(Total(root, blobs)) == 0)
      ensures Complete(root, blobs, old(sizes)) && root.id in old(sizes) ==>
        Walked(ContainersIn(root), repair, blobs, old(sizes), sizes, wrong)
    {
      hide Walked, Touched, Total;
      var size;
      size, wrong := WalkTree(root, repair);
      ghost var before, below := sizes, Containers(Children(root));
      TouchedKeys(below, repair, blobs, old(sizes), before);
      if !repair {
        TouchedUnchanged(below, repair, blobs, old(sizes), before);
      }
      if size.Some? && root.id in sizes {
        WalkedOne(root, repair, blobs, before);
        WalkedConcat(below, [root], repair, blobs, old(sizes), before,
                     if repair then before[root.id := size.value] else before, wrong, if before[root.id] == size.value then 0 else 1);
      }
      var treeSize := if size.Some? then size.value else 0;
      if Stored(root.id) != treeSize {
        wrong := wrong + 1;
        if repair {
          sizes := sizes[root.id := treeSize];
        }
      } else if repair && root.id in sizes {
        assert before[root.id := treeSize] == before;
      }
    }

    /** After a repair of a space that can be read, every container of it holds the size of its own
        subtree, and another check finds nothing wrong. */
    method RepairAndCheck(root: Node) returns (wrong: nat)
      requires root.id in sizes && Complete(root, blobs, sizes) && Unique(ContainersIn(root))
      modifies this`sizes
      ensures wrong == 0 && AllRight(ContainersIn(root), blobs, sizes)
    {
      hide Unique, ContainersIn, AllRight, Repairs;
      var first := Check(root, true);
      WalkedTouches(ContainersIn(root), true, blobs, old(sizes), sizes, first);
      CompleteRootSame(root, blobs, old(sizes), sizes);
      NoneWrong(ContainersIn(root), blobs, sizes);
      wrong := Check(root, false);
    }
  }

  lemma TouchedUnchanged(cs: seq<Node>, repair: bool, blobs: map<Id, nat>, before: map<Id, nat>, after: map<Id, nat>)
    requires Touched(cs, repair, blobs, before, after) && !repair
    ensures after == before
  {
  }

  lemma CompleteRootSame(root: Node, blobs: map<Id, nat>, s: map<Id, nat>, t: map<Id, nat>)
    requires s.Keys == t.Keys
    ensures Complete(root, blobs, s) == Complete(root, blobs, t)
  {
    if root.Container? {
      CompleteSame(root.children, blobs, s, t);
    }
  }

  /** Every child counts once, in whatever order they are listed. */
  lemma {:induction false} TotalIsSumOfChildren(ns: seq<Node>, i: nat, blobs: map<Id, nat>)
    requires i < |ns|
    ensures TotalAll(ns, blobs) == Total(ns[i], blobs) + TotalAll(ns[..i] + ns[i + 1..], blobs)
    decreases |ns|
  {
    hide Total;
    var front := ns[..|ns| - 1];
    if i < |ns| - 1 {
      TotalIsSumOfChildren(front, i, blobs);
      var rest := ns[..i] + ns[i + 1..];
      assert rest[..|rest| - 1] == front[..i] + front[i + 1..];
      assert rest[|rest| - 1] == ns[|ns| - 1];
    } else {
      assert ns[..i] + ns[i + 1..] == front;
    }
  }

  // ----- by routes -----

  /** The node that a route of positions leads to; a folder that cannot be listed ends every route. */
  function At(ns: seq<Node>, route: seq<nat>): Option<Node>
    decreases |route|
  {
    if route == [] || route[0] >= |ns| then None
    else if |route| == 1 then Some(ns[route[0]])
    else At(Children(ns[route[0]]), route[1..])
  }

  predicate LeadsToFile(ns: seq<Node>, route: seq<nat>) {
    At(ns, route).Some? && At(ns, route).value.File?
  }

  /** All routes to files, each once. */
  ghost predicate ListsFiles(ns: seq<Node>, routes: seq<seq<nat>>) {
    && (forall i, j :: 0 <= i < j < |routes| ==> routes[i] != routes[j])
    && (forall r :: r in routes <==> LeadsToFile(ns, r))
  }

  function BlobAt(ns: seq<Node>, route: seq<nat>, blobs: map<Id, nat>): nat {
    if LeadsToFile(ns, route) && At(ns, route).value.id in blobs then blobs[At(ns, route).value.id] else 0
  }

  function SumAt(ns: seq<Node>, routes: seq<seq<nat>>, blobs: map<Id, nat>): nat {
    if routes == [] then 0 else SumAt(ns, routes[..|routes| - 1], blobs) + BlobAt(ns, routes[|routes| - 1], blobs)
  }

  /** The same routes, one level further down. */
  function Below(k: nat, routes: seq<seq<nat>>): seq<seq<nat>> {
    seq(|routes|, i requires 0 <= i < |routes| => [k] + routes[i])
  }

  lemma AtBelow(ns: seq<Node>, k: nat, route: seq<nat>)
    requires k < |ns|
    ensures At(ns, [k] + route) == if route == [] then Some(ns[k]) else At(Children(ns[k]), route)
  {
    assert ([k] + route)[1..] == route;
  }

  lemma AtFront(ns: seq<Node>, route: seq<nat>)
    requires ns != []
    ensures At(ns[..|ns| - 1], route) == if route != [] && route[0] == |ns| - 1 then None else At(ns, route)
  {
  }

  lemma {:induction false} SumBelow(ns: seq<Node>, k: nat, routes: seq<seq<nat>>, blobs: map<Id, nat>)
    requires k < |ns| && forall r <- routes :: r != []
    ensures SumAt(ns, Below(k, routes), blobs) == SumAt(Children(ns[k]), routes, blobs)
    decreases |routes|
  {
    if routes != [] {
      var n := |routes| - 1;
      assert Below(k, routes)[..n] == Below(k, routes[..n]);
      assert forall r <- routes[..n] :: r in routes;
      SumBelow(ns, k, routes[..n], blobs);
      assert routes[n] in routes;
      AtBelow(ns, k, routes[n]);
    }
  }

  lemma {:induction false} SumFront(ns: seq<Node>, routes: seq<seq<nat>>, blobs: map<Id, nat>)
    requires ns != [] && forall r <- routes :: LeadsToFile(ns[..|ns| - 1], r)
    ensures SumAt(ns, routes, blobs) == SumAt(ns[..|ns| - 1], routes, blobs)
    decreases |routes|
  {
    if routes != [] {
      var n := |routes| - 1;
      assert forall r <- routes[..n] :: r in routes;
      SumFront(ns, routes[..n], blobs);
      assert routes[n] in routes;
      AtFront(ns, routes[n]);
    }
  }

  lemma {:induction false} SumConcat(ns: seq<Node>, a: seq<seq<nat>>, b: seq<seq<nat>>, blobs: map<Id, nat>)
    ensures SumAt(ns, a + b, blobs) == SumAt(ns, a, blobs) + SumAt(ns, b, blobs)
    decreases |b|
  {
    if b == [] {
      assert a + b == a;
    } else {
      assert (a + b)[..|a + b| - 1] == a + b[..|b| - 1];
      SumConcat(ns, a, b[..|b| - 1], blobs);
    }
  }

  lemma BelowLists(ns: seq<Node>, k: nat, routes: seq<seq<nat>>)
    requires k < |ns| && ns[k].Container? && ListsFiles(Children(ns[k]), routes)
    ensures forall i, j :: 0 <= i < j < |routes| ==> Below(k, routes)[i] != Below(k, routes)[j]
    ensures forall r :: r in Below(k, routes) <==> LeadsToFile(ns, r) && r[0] == k
    ensures forall r <- routes :: r != []
  {
    forall i, j | 0 <= i < j < |routes| ensures Below(k, routes)[i] != Below(k, routes)[j] {
      assert ([k] + routes[i])[1..] == routes[i] && ([k] + routes[j])[1..] == routes[j];
    }
    forall r ensures r in Below(k, routes) <==> LeadsToFile(ns, r) && r[0] == k {
      if r != [] && r[0] == k {
        AtBelow(ns, k, r[1..]);
        assert [k] + r[1..] == r;
        if r[1..] in routes {
          var i :| 0 <= i < |routes| && routes[i] == r[1..];
          assert Below(k, routes)[i] == r;
        }
      }
      if r in Below(k, routes) {
        var i :| 0 <= i < |routes| && Below(k, routes)[i] == r;
        assert r[0] == k && r[1..] == routes[i];
      }
    }
  }

  /** The total of some nodes is the sum of the blobs of all files that can be reached from them. */
  lemma {:induction false} TotalIsSumOfFiles(ns: seq<Node>, blobs: map<Id, nat>) returns (routes: seq<seq<nat>>)
    ensures ListsFiles(ns, routes) && TotalAll(ns, blobs) == SumAt(ns, routes, blobs)
  {
    routes := [];
    if ns != [] {
      var k := |ns| - 1;
      var front := TotalIsSumOfFiles(ns[..k], blobs);
      SumFront(ns, front, blobs);
      var last := [];
      if ns[k].Container? && ns[k].listable {
        var inside := TotalIsSumOfFiles(ns[k].children, blobs);
        last := Below(k, inside);
        BelowLists(ns, k, inside);
        SumBelow(ns, k, inside, blobs);
      } else {
        last := LastAlone(ns, blobs);
      }
      routes := front + last;
      SumConcat(ns, front, last, blobs);
      ListsConcat(ns, front, last);
    }
  }

  /** A last node without nodes below it. */
  lemma LastAlone(ns: seq<Node>, blobs: map<Id, nat>) returns (routes: seq<seq<nat>>)
    requires ns != [] && Children(ns[|ns| - 1]) == [] && !(ns[|ns| - 1].Container? && ns[|ns| - 1].listable)
    ensures forall i, j :: 0 <= i < j < |routes| ==> routes[i] != routes[j]
    ensures forall r :: r in routes <==> LeadsToFile(ns, r) && r[0] == |ns| - 1
    ensures SumAt(ns, routes, blobs) == Total(ns[|ns| - 1], blobs)
  {
    var k := |ns| - 1;
    routes := if ns[k].File? then [[k]] else [];
    assert [[k]][..0] == [];
    forall r ensures r in routes <==> LeadsToFile(ns, r) && r[0] == k {
      if r != [] && r[0] == k {
        AtBelow(ns, k, r[1..]);
        assert [k] + r[1..] == r;
        NowhereToGo(r[1..]);
        assert r == [k] <==> r[1..] == [];
      }
      assert r in [[k]] <==> r == [k];
    }
  }

  lemma NowhereToGo(route: seq<nat>)
    ensures At([], route) == None
  {}

  lemma ListsConcat(ns: seq<Node>, a: seq<seq<nat>>, b: seq<seq<nat>>)
    requires ns != [] && ListsFiles(ns[..|ns| - 1], a)
    requires forall i, j :: 0 <= i < j < |b| ==> b[i] != b[j]
    requires forall r :: r in b <==> LeadsToFile(ns, r) && r[0] == |ns| - 1
    ensures ListsFiles(ns, a + b)
  {
    var k := |ns| - 1;
    forall r ensures r in a <==> LeadsToFile(ns, r) && r[0] != k {
      AtFront(ns, r);
    }
    forall i, j | 0 <= i < j < |a + b| ensures (a + b)[i] != (a + b)[j] {
      if i < |a| && j >= |a| {
        assert (a + b)[i] in a && (a + b)[j] in b;
      }
    }
    assert forall r :: r in a + b <==> r in a || r in b;
  }

  /** A walk can read everything exactly when every node on a route can be read: folders can be
      listed and have a size, and files have a blob. */
  predicate Readable(n: Node, blobs: map<Id, nat>, sizes: map<Id, nat>) {
    (n.Container? ==> n.listable && n.id in sizes) && (n.File? ==> n.id in blobs)
  }

  lemma {:induction false} CompleteIsReadable(ns: seq<Node>, blobs: map<Id, nat>, sizes: map<Id, nat>, route: seq<nat>)
    requires CompleteAll(ns, blobs, sizes) && At(ns, route).Some?
    ensures Readable(At(ns, route).value, blobs, sizes)
    decreases |route|
  {
    hide CompleteAll;
    CompleteParts(ns, route[0], blobs, sizes);
    if |route| > 1 {
      CompleteIsReadable(Children(ns[route[0]]), blobs, sizes, route[1..]);
    }
  }

  lemma {:induction false} IncompleteIsUnreadable(ns: seq<Node>, blobs: map<Id, nat>, sizes: map<Id, nat>) returns (route: seq<nat>)
    requires !CompleteAll(ns, blobs, sizes)
    ensures At(ns, route).Some? && !Readable(At(ns, route).value, blobs, sizes)
  {
    var k := |ns| - 1;
    var n := ns[k];
    if !CompleteAll(ns[..k], blobs, sizes) {
      route := IncompleteIsUnreadable(ns[..k], blobs, sizes);
      AtFront(ns, route);
    } else if Readable(n, blobs, sizes) {
      var rest := IncompleteIsUnreadable(n.children, blobs, sizes);
      route := [k] + rest;
      AtBelow(ns, k, rest);
    } else {
      route := [k];
    }
  }

  /** The containers that a repair is about are those that a route leads to. */
  lemma {:induction false} ContainersAreReached(ns: seq<Node>, c: Node) returns (route: seq<nat>)
    requires c in Containers(ns)
    ensures At(ns, route) == Some(c)
  {
    var k := |ns| - 1;
    if c in Containers(ns[..k]) {
      route := ContainersAreReached(ns[..k], c);
      AtFront(ns, route);
    } else if c == ns[k] {
      route := [k];
    } else {
      assert c in ContainersIn(ns[k]);
      var rest := ContainersAreReached(ns[k].children, c);
      route := [k] + rest;
      AtBelow(ns, k, rest);
    }
  }

  lemma {:induction false} ReachedAreContainers(ns: seq<Node>, route: seq<nat>)
    requires At(ns, route).Some? && At(ns, route).value.Container?
    ensures At(ns, route).value in Containers(ns)
    decreases |route|, |ns|
  {
    var k := |ns| - 1;
    if route[0] < k {
      AtFront(ns, route);
      ReachedAreContainers(ns[..k], route);
    } else if |route| > 1 {
      ReachedAreContainers(Children(ns[k]), route[1..]);
    }
  }

  /** Sizes below 2^64 are what they are; larger ones lose their upper bits. */
  lemma WrapIs(n: nat)
    ensures n < TWO_64 ==> Wrap(n) == n
    ensures Wrap(n + TWO_64) == Wrap(n) && Wrap(n) < TWO_64
  {
    WrapMultiple(n, n + TWO_64, 1);
  }
}
