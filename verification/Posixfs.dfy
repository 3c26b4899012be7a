/** The consistency check of a space of the posix file system
    (opencloud/pkg/command/posixfs_consistency.go). Writing an attribute always succeeds. */
module Posixfs {

  datatype Option<+T> = None | Some(value: T)

  type Path = seq<string>

  datatype Attr = ParentId | Name | BlobSize | Id | SpaceId | Other(key: string)

  type Attrs = map<Path, map<Attr, string>>

  /** A directory tree; a file's size and every modification time are as the file system says. */
  datatype Entry = Dir(name: string, mtime: int, entries: seq<Entry>) | File(name: string, mtime: int, size: nat)

  // ----- extended attributes -----

  function Get(attrs: Attrs, p: Path, a: Attr): Option<string> {
    if p in attrs && a in attrs[p] then Some(attrs[p][a]) else None
  }

  function Put(attrs: Attrs, p: Path, a: Attr, v: string): (r: Attrs)
    ensures forall q, b :: Get(r, q, b) == if q == p && b == a then Some(v) else Get(attrs, q, b)
  {
    attrs[p := (if p in attrs then attrs[p] else map[])[a := v]]
  }

  /** The attributes of a path and of everything below it. */
  function RemoveBelow(attrs: Attrs, path: Path): (r: Attrs)
    ensures forall q, b :: Get(r, q, b) == if path <= q then None else Get(attrs, q, b)
  {
    map p | p in attrs :: if path <= p then map[] else attrs[p]
  }

  function Decimal(n: nat): string {
    (if n < 10 then "" else Decimal(n / 10)) + ["0123456789"[n % 10]]
  }

  predicate Digits(s: string) {
    forall k :: 0 <= k < |s| ==> '0' <= s[k] <= '9'
  }

  /** Reads a number from its decimal digits. */
  function Number(digits: string): nat
    requires Digits(digits)
  {
    if digits == "" then 0 else 10 * Number(digits[..|digits| - 1]) + (digits[|digits| - 1] - '0') as nat
  }

  lemma NumberMore(front: string, d: nat)
    requires Digits(front) && d < 10
    ensures var more := front + ["0123456789"[d]]; Digits(more) && Number(more) == 10 * Number(front) + d
  {
    var ch := "0123456789"[d];
    assert '0' <= ch <= '9' && (ch - '0') as nat == d;
    assert (front + [ch])[..|front + [ch]| - 1] == front;
  }

  lemma {:induction false} DecimalIsRead(n: nat)
    ensures Digits(Decimal(n)) && Number(Decimal(n)) == n && Decimal(n) != ""
  {
    hide Number, Digits;
    if n < 10 {
      NoDigits();
      NumberMore("", n);
    } else {
      DecimalIsRead(n / 10);
      NumberMore(Decimal(n / 10), n % 10);
    }
  }

  lemma NoDigits()
    ensures Digits("") && Number("") == 0
  {}

  // ----- the attributes that nodes should have -----

  datatype Want = Want(path: Path, attr: Attr, value: string)

  predicate Has(attrs: Attrs, w: Want) {
    Get(attrs, w.path, w.attr) == Some(w.value)
  }

  function WantsOf(path: Path, e: Entry, parentID: string): seq<Want> {
    [Want(path, ParentId, parentID), Want(path, Name, e.name)]
    + if e.File? then [Want(path, BlobSize, Decimal(e.size))] else []
  }

  /** An attribute that cannot be read counts as an empty one. */
  function IdOf(attrs: Attrs, path: Path): string {
    if Get(attrs, path, Id).Some? then Get(attrs, path, Id).value else ""
  }

  /** What the nodes below a directory should have: those that are not ignored and are reached
      through directories with an ID. */
  function Wants(ignored: Path -> bool, attrs: Attrs, dir: Path, entries: seq<Entry>, parentID: string): seq<Want>
    decreases entries, 2
  {
    if entries == [] then []
    else
      Wants(ignored, attrs, dir, entries[..|entries| - 1], parentID)
      + WantsBelow(ignored, attrs, dir + [entries[|entries| - 1].name], entries[|entries| - 1], parentID)
  }

  function WantsBelow(ignored: Path -> bool, attrs: Attrs, path: Path, e: Entry, parentID: string): seq<Want>
    decreases e, 1
  {
    if ignored(path) then []
    else WantsOf(path, e, parentID) + WantsInside(ignored, attrs, path, e)
  }

  function WantsInside(ignored: Path -> bool, attrs: Attrs, path: Path, e: Entry): seq<Want>
    decreases e, 0
  {
    if e.Dir? && IdOf(attrs, path) != "" then Wants(ignored, attrs, path, e.entries, IdOf(attrs, path)) else []
  }

  // ----- fixing them -----

  function FixOne(attrs: Attrs, w: Want): (r: Attrs)
    ensures forall q, b :: Get(r, q, b) == if q == w.path && b == w.attr then Some(w.value) else Get(attrs, q, b)
  {
    if Has(attrs, w) then attrs else Put(attrs, w.path, w.attr, w.value)
  }

  function Fix(attrs: Attrs, ws: seq<Want>): Attrs {
    if ws == [] then attrs else FixOne(Fix(attrs, ws[..|ws| - 1]), ws[|ws| - 1])
  }

  /** How many of them are found to be wrong. */
  function Fixes(attrs: Attrs, ws: seq<Want>): nat {
    if ws == [] then 0
    else Fixes(attrs, ws[..|ws| - 1]) + if Has(Fix(attrs, ws[..|ws| - 1]), ws[|ws| - 1]) then 0 else 1
  }

  lemma {:induction false} FixConcat(attrs: Attrs, a: seq<Want>, b: seq<Want>)
    ensures Fix(attrs, a + b) == Fix(Fix(attrs, a), b)
    ensures Fixes(attrs, a + b) == Fixes(attrs, a) + Fixes(Fix(attrs, a), b)
    decreases |b|
  {
    hide FixOne;
    if b == [] {
      assert a + b == a;
    } else {
      assert (a + b)[..|a + b| - 1] == a + b[..|b| - 1];
      FixConcat(attrs, a, b[..|b| - 1]);
    }
  }

  lemma FixSingle(attrs: Attrs, w: Want)
    ensures Fix(attrs, [w]) == FixOne(attrs, w) && Fixes(attrs, [w]) == if Has(attrs, w) then 0 else 1
  {
    hide FixOne;
    assert [w][..0] == [];
  }

  // ----- fixing is right -----

  predicate Apart(v: Want, w: Want) {
    v.path != w.path || v.attr != w.attr
  }

  predicate Distinct(ws: seq<Want>) {
    forall i, j :: 0 <= i < j < |ws| ==> Apart(ws[i], ws[j])
  }

  function WrongCount(attrs: Attrs, ws: seq<Want>): nat {
    if ws == [] then 0 else WrongCount(attrs, ws[..|ws| - 1]) + if Has(attrs, ws[|ws| - 1]) then 0 else 1
  }

  /** What is not wanted stays. */
  lemma {:induction false} FixKeeps(attrs: Attrs, ws: seq<Want>, q: Path, b: Attr)
    requires forall w <- ws :: w.path != q || w.attr != b
    ensures Get(Fix(attrs, ws), q, b) == Get(attrs, q, b)
    decreases |ws|
  {
    if ws != [] {
      FixKeeps(attrs, ws[..|ws| - 1], q, b);
      assert ws[|ws| - 1] in ws;
    }
  }

  /** Afterwards everything wanted is there, and the number of fixes is the number of attributes
      that were wrong. */
  lemma {:induction false} FixIsRight(attrs: Attrs, ws: seq<Want>)
    requires Distinct(ws)
    ensures forall w <- ws :: Has(Fix(attrs, ws), w)
    ensures Fixes(attrs, ws) == WrongCount(attrs, ws)
    decreases |ws|
  {
    if ws != [] {
      var front, last := ws[..|ws| - 1], ws[|ws| - 1];
      FixIsRight(attrs, front);
      forall w <- front
        ensures Apart(w, last)
      {
        var i :| 0 <= i < |front| && front[i] == w;
        assert Apart(ws[i], ws[|ws| - 1]);
      }
      FixKeeps(attrs, front, last.path, last.attr);
      assert forall w <- ws :: w in front || w == last;
    }
  }

  lemma {:induction false} NothingToFix(attrs: Attrs, ws: seq<Want>)
    requires forall w <- ws :: Has(attrs, w)
    ensures Fix(attrs, ws) == attrs && Fixes(attrs, ws) == 0
    decreases |ws|
  {
    if ws != [] {
      assert forall w <- ws[..|ws| - 1] :: w in ws;
      NothingToFix(attrs, ws[..|ws| - 1]);
      assert ws[|ws| - 1] in ws;
    }
  }

  // ----- what is wanted stays the same while it is fixed -----

  ghost predicate SameIds(s: Attrs, t: Attrs) {
    forall p :: IdOf(s, p) == IdOf(t, p)
  }

  predicate NoIds(ws: seq<Want>) {
    forall w <- ws :: w.attr != Id
  }

  lemma FixKeepsIds(attrs: Attrs, ws: seq<Want>)
    requires NoIds(ws)
    ensures SameIds(attrs, Fix(attrs, ws))
  {
    forall p
      ensures IdOf(attrs, p) == IdOf(Fix(attrs, ws), p)
    {
      FixKeeps(attrs, ws, p, Id);
    }
  }

  lemma {:induction false} WantsSame(ignored: Path -> bool, s: Attrs, t: Attrs, dir: Path, entries: seq<Entry>, parentID: string)
    requires SameIds(s, t)
    ensures Wants(ignored, s, dir, entries, parentID) == Wants(ignored, t, dir, entries, parentID)
    decreases entries
  {
    hide IdOf, WantsOf;
    if entries != [] {
      var e := entries[|entries| - 1];
      WantsSame(ignored, s, t, dir, entries[..|entries| - 1], parentID);
      BelowSame(ignored, s, t, dir + [e.name], e, parentID);
    }
  }

  lemma {:induction false} BelowSame(ignored: Path -> bool, s: Attrs, t: Attrs, path: Path, e: Entry, parentID: string)
    requires SameIds(s, t)
    ensures WantsBelow(ignored, s, path, e, parentID) == WantsBelow(ignored, t, path, e, parentID)
    ensures WantsInside(ignored, s, path, e) == WantsInside(ignored, t, path, e)
    decreases e
  {
    hide WantsOf;
    assert IdOf(s, path) == IdOf(t, path);
    if e.Dir? {
      WantsSame(ignored, s, t, path, e.entries, IdOf(s, path));
    }
  }

  predicate Under(path: Path, ws: seq<Want>) {
    forall w <- ws :: path <= w.path && w.attr != Id && w.attr != SpaceId
  }

  lemma {:induction false} WantsUnder(ignored: Path -> bool, attrs: Attrs, dir: Path, entries: seq<Entry>, parentID: string)
    ensures forall w <- Wants(ignored, attrs, dir, entries, parentID) ::
      w.attr != Id && w.attr != SpaceId && exists k :: 0 <= k < |entries| && dir + [entries[k].name] <= w.path
    decreases entries
  {
    if entries != [] {
      var n := |entries| - 1;
      WantsUnder(ignored, attrs, dir, entries[..n], parentID);
      BelowUnder(ignored, attrs, dir + [entries[n].name], entries[n], parentID);
      forall w <- Wants(ignored, attrs, dir, entries, parentID)
        ensures w.attr != Id && w.attr != SpaceId && exists k :: 0 <= k < |entries| && dir + [entries[k].name] <= w.path
      {
        if w in Wants(ignored, attrs, dir, entries[..n], parentID) {
          var k :| 0 <= k < n && dir + [entries[..n][k].name] <= w.path;
          assert entries[k] == entries[..n][k];
        } else {
          assert w in WantsBelow(ignored, attrs, dir + [entries[n].name], entries[n], parentID);
        }
      }
    }
  }

  lemma {:induction false} BelowUnder(ignored: Path -> bool, attrs: Attrs, path: Path, e: Entry, parentID: string)
    ensures Under(path, WantsBelow(ignored, attrs, path, e, parentID))
    ensures forall w <- WantsInside(ignored, attrs, path, e) :: |w.path| > |path|
    decreases e
  {
    if e.Dir? {
      WantsUnder(ignored, attrs, path, e.entries, IdOf(attrs, path));
      forall w <- Wants(ignored, attrs, path, e.entries, IdOf(attrs, path))
        ensures path <= w.path && |w.path| > |path|
      {
        var k :| 0 <= k < |e.entries| && path + [e.entries[k].name] <= w.path;
        assert path <= path + [e.entries[k].name];
      }
    }
  }

  /** Names are unique in every directory. */
  predicate Proper(entries: seq<Entry>) {
    entries == [] ||
    var n := |entries| - 1;
    Proper(entries[..n]) && (forall k :: 0 <= k < n ==> entries[k].name != entries[n].name)
    && (entries[n].Dir? ==> Proper(entries[n].entries))
  }

  lemma DistinctConcat(a: seq<Want>, b: seq<Want>)
    requires Distinct(a) && Distinct(b) && forall v <- a, w <- b :: Apart(v, w)
    ensures Distinct(a + b)
  {
  }

  /** No attribute is wanted twice. */
  lemma {:induction false} WantsDistinct(ignored: Path -> bool, attrs: Attrs, dir: Path, entries: seq<Entry>, parentID: string)
    requires Proper(entries)
    ensures Distinct(Wants(ignored, attrs, dir, entries, parentID))
    decreases entries
  {
    hide Distinct, WantsBelow, Apart;
    if entries == [] {
      NothingDistinct();
    } else {
      var n := |entries| - 1;
      var a := Wants(ignored, attrs, dir, entries[..n], parentID);
      var b := WantsBelow(ignored, attrs, dir + [entries[n].name], entries[n], parentID);
      WantsDistinct(ignored, attrs, dir, entries[..n], parentID);
      BelowDistinct(ignored, attrs, dir + [entries[n].name], entries[n], parentID);
      WantsUnder(ignored, attrs, dir, entries[..n], parentID);
      BelowUnder(ignored, attrs, dir + [entries[n].name], entries[n], parentID);
      forall v <- a, w <- b
        ensures Apart(v, w)
      {
        var k :| 0 <= k < n && dir + [entries[..n][k].name] <= v.path;
        SiblingsApart(dir, entries[k].name, entries[n].name, v, w);
      }
      DistinctConcat(a, b);
    }
  }

  lemma NothingDistinct()
    ensures Distinct([])
  {
  }

  lemma SiblingsApart(dir: Path, m: string, n: string, v: Want, w: Want)
    requires m != n && dir + [m] <= v.path && dir + [n] <= w.path
    ensures Apart(v, w)
  {
    assert v.path[|dir|] == (dir + [m])[|dir|] == m;
    assert w.path[|dir|] == (dir + [n])[|dir|] == n;
  }

  lemma {:induction false} BelowDistinct(ignored: Path -> bool, attrs: Attrs, path: Path, e: Entry, parentID: string)
    requires e.Dir? ==> Proper(e.entries)
    ensures Distinct(WantsBelow(ignored, attrs, path, e, parentID))
    decreases e
  {
    BelowUnder(ignored, attrs, path, e, parentID);
    if e.Dir? {
      WantsDistinct(ignored, attrs, path, e.entries, IdOf(attrs, path));
    }
    var inside := WantsInside(ignored, attrs, path, e);
    DistinctConcat(WantsOf(path, e, parentID), inside);
  }

  // ----- which nodes that are -----

  datatype Found = Found(path: Path, e: Entry, parentID: string)

  /** The node that a route of positions leads to, if it goes through directories with an ID and
      past nothing that is ignored; with the ID of its directory. */
  function Follow(ignored: Path -> bool, attrs: Attrs, dir: Path, entries: seq<Entry>, parentID: string, route: seq<nat>): Option<Found>
    decreases |route|
  {
    if route == [] || route[0] >= |entries| then None
    else
      var e := entries[route[0]];
      var path := dir + [e.name];
      if ignored(path) then None
      else if |route| == 1 then Some(Found(path, e, parentID))
      else if e.Dir? && IdOf(attrs, path) != "" then Follow(ignored, attrs, path, e.entries, IdOf(attrs, path), route[1..])
      else None
  }

  lemma {:induction false} BelowAt(ignored: Path -> bool, attrs: Attrs, dir: Path, entries: seq<Entry>, parentID: string, k: nat, w: Want)
    requires k < |entries| && w in WantsBelow(ignored, attrs, dir + [entries[k].name], entries[k], parentID)
    ensures w in Wants(ignored, attrs, dir, entries, parentID)
    decreases |entries|
  {
    hide WantsBelow;
    var n := |entries| - 1;
    if k < n {
      BelowAt(ignored, attrs, dir, entries[..n], parentID, k, w);
    }
  }

  /** Every node that is reached is wanted right. */
  lemma {:induction false} ReachedIsWanted(ignored: Path -> bool, attrs: Attrs, dir: Path, entries: seq<Entry>, parentID: string,
                                           route: seq<nat>, w: Want)
    requires Follow(ignored, attrs, dir, entries, parentID, route).Some?
    requires var f := Follow(ignored, attrs, dir, entries, parentID, route).value; w in WantsOf(f.path, f.e, f.parentID)
    ensures w in Wants(ignored, attrs, dir, entries, parentID)
    decreases |route|
  {
    hide WantsOf, IdOf, Wants;
    var e := entries[route[0]];
    var path := dir + [e.name];
    if |route| > 1 {
      ReachedIsWanted(ignored, attrs, path, e.entries, IdOf(attrs, path), route[1..], w);
    }
    BelowAt(ignored, attrs, dir, entries, parentID, route[0], w);
  }

  /** Nothing else is. */
  lemma {:induction false} WantedIsReached(ignored: Path -> bool, attrs: Attrs, dir: Path, entries: seq<Entry>, parentID: string, w: Want)
    returns (route: seq<nat>)
    requires w in Wants(ignored, attrs, dir, entries, parentID)
    ensures Follow(ignored, attrs, dir, entries, parentID, route).Some?
    ensures var f := Follow(ignored, attrs, dir, entries, parentID, route).value; w in WantsOf(f.path, f.e, f.parentID)
    decreases entries
  {
    hide WantsOf, IdOf;
    var n := |entries| - 1;
    var e := entries[n];
    var path := dir + [e.name];
    assert w in Wants(ignored, attrs, dir, entries[..n], parentID) || w in WantsBelow(ignored, attrs, path, e, parentID);
    assert w in WantsBelow(ignored, attrs, path, e, parentID) ==>
        !ignored(path) && (w in WantsOf(path, e, parentID) || w in WantsInside(ignored, attrs, path, e));
    if w in Wants(ignored, attrs, dir, entries[..n], parentID) {
      route := WantedIsReached(ignored, attrs, dir, entries[..n], parentID, w);
      assert entries[..n][route[0]] == entries[route[0]];
    } else if !ignored(path) && w in WantsOf(path, e, parentID) {
      route := [n];
    } else {
      var rest := WantedIsReached(ignored, attrs, path, e.entries, IdOf(attrs, path), w);
      route := [n] + rest;
      assert route[1..] == rest;
    }
  }

  /** After a walk every node that is reached has the ID of its directory, its own name and, if it
      is a file, its size; everything else is as before; the number returned is the number of
      attributes that were wrong; and a second walk finds and changes nothing. */
  lemma WalkIsRight(ignored: Path -> bool, attrs: Attrs, dir: Path, entries: seq<Entry>, parentID: string)
    requires Proper(entries)
    ensures var ws := Wants(ignored, attrs, dir, entries, parentID);
      var after := Fix(attrs, ws);
      && (forall w <- ws :: Has(after, w))
      && Fixes(attrs, ws) == WrongCount(attrs, ws)
      && (forall q, b :: (forall w <- ws :: w.path != q || w.attr != b) ==> Get(after, q, b) == Get(attrs, q, b))
      && Wants(ignored, after, dir, entries, parentID) == ws
      && Fix(after, ws) == after && Fixes(after, ws) == 0
  {
    hide WantsOf, IdOf, Wants, Fix, Fixes, WrongCount, Proper, Distinct, Has;
    var ws := Wants(ignored, attrs, dir, entries, parentID);
    WantsDistinct(ignored, attrs, dir, entries, parentID);
    FixIsRight(attrs, ws);
    NothingToFix(Fix(attrs, ws), ws);
    WantsUnder(ignored, attrs, dir, entries, parentID);
    FixKeepsIds(attrs, ws);
    WantsSame(ignored, attrs, Fix(attrs, ws), dir, entries, parentID);
    forall q, b | forall w <- ws :: w.path != q || w.attr != b
      ensures Get(Fix(attrs, ws), q, b) == Get(attrs, q, b)
    {
      FixKeeps(attrs, ws, q, b);
    }
  }

  lemma ReachedIsRight(ignored: Path -> bool, attrs: Attrs, dir: Path, entries: seq<Entry>, parentID: string, route: seq<nat>)
    requires Proper(entries) && Follow(ignored, attrs, dir, entries, parentID, route).Some?
    ensures var f := Follow(ignored, attrs, dir, entries, parentID, route).value;
      var after := Fix(attrs, Wants(ignored, attrs, dir, entries, parentID));
      && Get(after, f.path, ParentId) == Some(f.parentID)
      && Get(after, f.path, Name) == Some(f.e.name)
      && (f.e.File? ==> Get(after, f.path, BlobSize) == Some(Decimal(f.e.size)))
  {
    hide Wants, Fix, Proper, Follow;
    var f := Follow(ignored, attrs, dir, entries, parentID, route).value;
    WantsDistinct(ignored, attrs, dir, entries, parentID);
    FixIsRight(attrs, Wants(ignored, attrs, dir, entries, parentID));
    forall w <- WantsOf(f.path, f.e, f.parentID)
      ensures w in Wants(ignored, attrs, dir, entries, parentID)
    {
      ReachedIsWanted(ignored, attrs, dir, entries, parentID, route, w);
    }
    assert Want(f.path, ParentId, f.parentID) in WantsOf(f.path, f.e, f.parentID);
    assert Want(f.path, Name, f.e.name) in WantsOf(f.path, f.e, f.parentID);
    if f.e.File? {
      assert WantsOf(f.path, f.e, f.parentID)[2] == Want(f.path, BlobSize, Decimal(f.e.size));
      assert Want(f.path, BlobSize, Decimal(f.e.size)) in WantsOf(f.path, f.e, f.parentID);
    }
  }

  // ----- more than one space ID -----

  datatype EntryInfo = EntryInfo(path: Path, mtime: int, parentID: string)

  /** The direct entries that have a parent ID. */
  function Gathered(ignored: Path -> bool, attrs: Attrs, dir: Path, entries: seq<Entry>): seq<EntryInfo> {
    if entries == [] then []
    else
      var e := entries[|entries| - 1];
      var path := dir + [e.name];
      var front := Gathered(ignored, attrs, dir, entries[..|entries| - 1]);
      if ignored(path) || Get(attrs, path, ParentId).None? then front
      else front + [EntryInfo(path, e.mtime, Get(attrs, path, ParentId).value)]
  }

  function Ids(infos: seq<EntryInfo>): set<string> {
    set i <- infos :: i.parentID
  }

  /** The first of the entries with the least modification time, among those before the sentinel;
      without any, an empty one. */
  function Oldest(infos: seq<EntryInfo>, sentinel: int): EntryInfo {
    if infos == [] then EntryInfo([], sentinel, "")
    else
      var oldest, e := Oldest(infos[..|infos| - 1], sentinel), infos[|infos| - 1];
      if e.mtime < oldest.mtime then e else oldest
  }

  function OrZero(oldest: EntryInfo, sentinel: int): EntryInfo {
    if oldest.mtime < sentinel then oldest else EntryInfo([], 0, "")
  }

  predicate FirstLeast(infos: seq<EntryInfo>, i: nat, o: EntryInfo) {
    && i < |infos| && infos[i] == o
    && (forall j :: 0 <= j < |infos| ==> infos[j].mtime >= o.mtime)
    && (forall j :: 0 <= j < i ==> infos[j].mtime > o.mtime)
  }

  lemma {:induction false} OldestIsFirstLeast(infos: seq<EntryInfo>, sentinel: int)
    ensures var o := Oldest(infos, sentinel);
      || (o == EntryInfo([], sentinel, "") && forall j :: 0 <= j < |infos| ==> infos[j].mtime >= sentinel)
      || (o.mtime < sentinel && exists i: nat :: FirstLeast(infos, i, o))
    decreases |infos|
  {
    if infos != [] {
      var n := |infos| - 1;
      OldestIsFirstLeast(infos[..n], sentinel);
      var o := Oldest(infos[..n], sentinel);
      assert forall j :: 0 <= j < n ==> infos[..n][j] == infos[j];
      if infos[n].mtime < o.mtime {
        assert Oldest(infos, sentinel) == infos[n];
        assert FirstLeast(infos, n, infos[n]);
      } else if i: nat :| FirstLeast(infos[..n], i, o) {
        assert FirstLeast(infos, i, o);
      }
    }
  }

  lemma OldestParent(infos: seq<EntryInfo>, sentinel: int)
    ensures OrZero(Oldest(infos, sentinel), sentinel).parentID == Oldest(infos, sentinel).parentID
  {
    OldestIsFirstLeast(infos, sentinel);
  }

  /** Entries under another ID lose all their attributes, and those of everything below them. */
  function Stripped(attrs: Attrs, infos: seq<EntryInfo>, target: string): Attrs {
    if infos == [] then attrs
    else
      var front, e := Stripped(attrs, infos[..|infos| - 1], target), infos[|infos| - 1];
      if e.parentID == target then front else RemoveBelow(front, e.path)
  }

  lemma {:induction false} StrippedAt(attrs: Attrs, infos: seq<EntryInfo>, target: string, q: Path, b: Attr)
    ensures Get(Stripped(attrs, infos, target), q, b) ==
      if exists e :: e in infos && e.parentID != target && e.path <= q then None else Get(attrs, q, b)
    decreases |infos|
  {
    if infos != [] {
      StrippedAt(attrs, infos[..|infos| - 1], target, q, b);
      assert forall e <- infos :: e in infos[..|infos| - 1] || e == infos[|infos| - 1];
    }
  }

  function Unified(attrs: Attrs, dir: Path, infos: seq<EntryInfo>, target: string): Attrs {
    Put(Put(Stripped(attrs, infos, target), dir, Id, target), dir, SpaceId, target)
  }

  function AfterSpaceID(ignored: Path -> bool, attrs: Attrs, dir: Path, entries: seq<Entry>, accept: bool, sentinel: int): Attrs {
    var infos := Gathered(ignored, attrs, dir, entries);
    if |Ids(infos)| > 1 && accept then Unified(attrs, dir, infos, Oldest(infos, sentinel).parentID) else attrs
  }

  function AfterNodes(ignored: Path -> bool, attrs: Attrs, dir: Path, entries: seq<Entry>): Attrs {
    if IdOf(attrs, dir) == "" then attrs else Fix(attrs, Wants(ignored, attrs, dir, entries, IdOf(attrs, dir)))
  }

  // ----- the checker -----

  class Checker {
    const ignored: Path -> bool
    var attrs: Attrs
    var restartRequired: bool

    constructor (ignored: Path -> bool, attrs: Attrs)
      ensures this.ignored == ignored && this.attrs == attrs && !restartRequired
    {
      this.ignored, this.attrs, this.restartRequired := ignored, attrs, false;
    }

    /** One attribute: compared and, if it is not as wanted, written. */
    method FixAttribute(path: Path, attr: Attr, value: string) returns (fixes: nat)
      modifies this
      ensures attrs == Fix(old(attrs), [Want(path, attr, value)]) && fixes == Fixes(old(attrs), [Want(path, attr, value)])
      ensures restartRequired == (old(restartRequired) || fixes > 0)
    {
      FixSingle(attrs, Want(path, attr, value));
      fixes := 0;
      if Get(attrs, path, attr) != Some(value) {
        attrs := Put(attrs, path, attr, value);
        fixes := 1;
        restartRequired := true;
      }
    }

    method CheckNodeAttributes(path: Path, e: Entry, parentID: string) returns (fixes: nat)
      modifies this
      ensures attrs == Fix(old(attrs), WantsOf(path, e, parentID)) && fixes == Fixes(old(attrs), WantsOf(path, e, parentID))
      ensures restartRequired == (old(restartRequired) || fixes > 0)
    {
      hide Fix, Fixes;
      var parentFixes := FixAttribute(path, ParentId, parentID);
      var nameFixes := FixAttribute(path, Name, e.name);
      FixConcat(old(attrs), [Want(path, ParentId, parentID)], [Want(path, Name, e.name)]);
      fixes := parentFixes + nameFixes;
      var two := [Want(path, ParentId, parentID), Want(path, Name, e.name)];
      assert [Want(path, ParentId, parentID)] + [Want(path, Name, e.name)] == two;
      if e.File? {
        var sizeFixes := FixAttribute(path, BlobSize, Decimal(e.size));
        FixConcat(old(attrs), two, [Want(path, BlobSize, Decimal(e.size))]);
        fixes := fixes + sizeFixes;
      } else {
        assert two + [] == two;
      }
    }

    /** The walk fixes what is wanted below a directory, and counts what was wrong. */
    method WalkNodes(dir: Path, entries: seq<Entry>, parentID: string) returns (fixes: nat)
      modifies this
      ensures attrs == Fix(old(attrs), Wants(ignored, old(attrs), dir, entries, parentID))
      ensures fixes == Fixes(old(attrs), Wants(ignored, old(attrs), dir, entries, parentID))
      ensures restartRequired == (old(restartRequired) || fixes > 0)
      decreases entries
    {
      hide Fix, Fixes, WantsOf, IdOf;
      FixNothing(attrs);
      fixes := 0;
      for i := 0 to |entries|
        invariant attrs == Fix(old(attrs), Wants(ignored, old(attrs), dir, entries[..i], parentID))
        invariant fixes == Fixes(old(attrs), Wants(ignored, old(attrs), dir, entries[..i], parentID))
        invariant restartRequired == (old(restartRequired) || fixes > 0)
      {
        ghost var before, done := attrs, Wants(ignored, old(attrs), dir, entries[..i], parentID);
        var e := entries[i];
        var path := dir + [e.name];
        OneMore(ignored, old(attrs), dir, entries, i, parentID);
        WantsUnder(ignored, old(attrs), dir, entries[..i], parentID);
        FixKeepsIds(old(attrs), done);
        BelowSame(ignored, old(attrs), before, path, e, parentID);
        ghost var here, inside := WantsOf(path, e, parentID), WantsInside(ignored, before, path, e);
        if ignored(path) {
          assert done + [] == done;
          continue;
        }
        var nodeFixes := CheckNodeAttributes(path, e, parentID);
        fixes := fixes + nodeFixes;
        WantsOfNoIds(path, e, parentID);
        FixKeepsIds(before, here);
        BelowSame(ignored, before, attrs, path, e, parentID);
        FixConcat(before, here, inside);
        FixConcat(old(attrs), done, here + inside);
        if e.Dir? {
          var nodeID := IdOf(attrs, path);
          if nodeID != "" {
            var more := WalkNodes(path, e.entries, nodeID);
            fixes := fixes + more;
          } else {
            FixNothing(attrs);
          }
        } else {
          FixNothing(attrs);
        }
      }
      assert entries[..|entries|] == entries;
    }

    /** Without an entry before the sentinel the oldest one is the zero value. */
    method GatherAttributes(dir: Path, entries: seq<Entry>, sentinel: int)
      returns (allEntries: seq<EntryInfo>, uniqueIDs: set<string>, oldestEntry: EntryInfo)
      ensures allEntries == Gathered(ignored, attrs, dir, entries)
      ensures uniqueIDs == Ids(allEntries)
      ensures oldestEntry == OrZero(Oldest(allEntries, sentinel), sentinel)
    {
      hide Gathered, Oldest, Ids, Get;
      allEntries, uniqueIDs, oldestEntry := [], {}, EntryInfo([], 0, "");
      var oldestTime := sentinel;
      NothingGathered(ignored, attrs, dir, sentinel);
      assert entries[..0] == [];
      for i := 0 to |entries|
        invariant allEntries == Gathered(ignored, attrs, dir, entries[..i])
        invariant uniqueIDs == Ids(allEntries)
        invariant oldestTime == Oldest(allEntries, sentinel).mtime && oldestEntry == OrZero(Oldest(allEntries, sentinel), sentinel)
        invariant oldestTime <= sentinel
      {
        var path := dir + [entries[i].name];
        OneMoreGathered(ignored, attrs, dir, entries, i);
        if ignored(path) {
          continue;
        }
        var parentID := Get(attrs, path, ParentId);
        if parentID.None? {
          continue;
        }
        var info := EntryInfo(path, entries[i].mtime, parentID.value);
        IdsMore(allEntries, info);
        OldestMore(allEntries, info, sentinel);
        allEntries := allEntries + [info];
        uniqueIDs := uniqueIDs + {parentID.value};
        if info.mtime < oldestTime {
          oldestTime := info.mtime;
          oldestEntry := info;
        }
      }
      assert entries[..|entries|] == entries;
    }

    method SetAllParentIDAttributes(entries: seq<EntryInfo>, targetID: string)
      modifies this`attrs
      ensures attrs == Stripped(old(attrs), entries, targetID)
    {
      for i := 0 to |entries|
        invariant attrs == Stripped(old(attrs), entries[..i], targetID)
      {
        assert entries[..i + 1][..i] == entries[..i];
        if entries[i].parentID == targetID {
          continue;
        }
        attrs := RemoveBelow(attrs, entries[i].path);
      }
      assert entries[..|entries|] == entries;
    }

    method FixSpaceID(dir: Path, targetID: string, entries: seq<EntryInfo>)
      modifies this`attrs
      ensures attrs == Unified(old(attrs), dir, entries, targetID)
    {
      SetAllParentIDAttributes(entries, targetID);
      attrs := Put(attrs, dir, Id, targetID);
      attrs := Put(attrs, dir, SpaceId, targetID);
    }

    /** `accept` is the user's answer. Without it, and where all direct entries have the same parent
        ID, nothing is touched. */
    method CheckSpaceID(dir: Path, entries: seq<Entry>, accept: bool, sentinel: int)
      modifies this
      ensures attrs == AfterSpaceID(ignored, old(attrs), dir, entries, accept, sentinel)
      ensures !accept || OneParent(ignored, old(attrs), dir, entries) ==>
        attrs == old(attrs) && restartRequired == old(restartRequired)
      ensures accept && !OneParent(ignored, old(attrs), dir, entries) ==> restartRequired
      ensures attrs != old(attrs) ==> restartRequired
    {
      hide Gathered, Oldest, Unified, Ids, OneParent;
      var infos, uniqueIDs, oldestEntry := GatherAttributes(dir, entries, sentinel);
      OldestParent(infos, sentinel);
      OneParentIff(ignored, attrs, dir, entries);
      if |infos| == 0 {
        assert |Ids(infos)| == 0 by { NoIdsAtAll(); }
        return;
      }
      if |uniqueIDs| > 1 {
        var targetID := oldestEntry.parentID;
        if !accept {
          return;
        }
        restartRequired := true;
        FixSpaceID(dir, targetID, infos);
      }
    }

    method CheckNodes(dir: Path, entries: seq<Entry>)
      modifies this
      ensures attrs == AfterNodes(ignored, old(attrs), dir, entries)
      ensures attrs != old(attrs) || old(restartRequired) ==> restartRequired
    {
      hide Wants, Fix;
      var rootID := IdOf(attrs, dir);
      if rootID == "" {
        return;
      }
      ghost var ws := Wants(ignored, attrs, dir, entries, rootID);
      FixesNone(attrs, ws);
      var fixes := WalkNodes(dir, entries, rootID);
    }

    /** Nothing is done for what is not a directory with a space ID. A user who declines keeps every
        ID, and every attribute there is. */
    method CheckSpace(dir: Path, space: Entry, accept: bool, sentinel: int)
      modifies this
      ensures space.File? || Get(old(attrs), dir, SpaceId).None? || Get(old(attrs), dir, SpaceId).value == "" ==> attrs == old(attrs)
      ensures space.Dir? && Get(old(attrs), dir, SpaceId).Some? && Get(old(attrs), dir, SpaceId).value != "" ==>
        attrs == AfterNodes(ignored, AfterSpaceID(ignored, old(attrs), dir, space.entries, accept, sentinel), dir, space.entries)
      ensures !accept ==> KeepsIds(old(attrs), attrs)
      ensures attrs != old(attrs) ==> restartRequired
    {
      hide AfterNodes, AfterSpaceID;
      KeepsIdsReflexive(attrs);
      NodesKeepIds(ignored, attrs, dir, space);
      if space.File? {
        return;
      }
      var spaceID := Get(attrs, dir, SpaceId);
      if spaceID.None? || spaceID.value == "" {
        return;
      }
      CheckSpaceID(dir, space.entries, accept, sentinel);
      CheckNodes(dir, space.entries);
    }
  }

  /** The direct entries that have a parent ID, and are not ignored, have the same. */
  predicate OneParent(ignored: Path -> bool, attrs: Attrs, dir: Path, entries: seq<Entry>) {
    forall j, k :: 0 <= j < |entries| && 0 <= k < |entries| ==>
      var p, q := dir + [entries[j].name], dir + [entries[k].name];
      !ignored(p) && !ignored(q) && Get(attrs, p, ParentId).Some? && Get(attrs, q, ParentId).Some? ==>
        Get(attrs, p, ParentId) == Get(attrs, q, ParentId)
  }

  /** Every such entry is gathered. */
  lemma {:induction false} AllAreGathered(ignored: Path -> bool, attrs: Attrs, dir: Path, entries: seq<Entry>, k: nat)
    requires k < |entries|
    requires var p := dir + [entries[k].name]; !ignored(p) && Get(attrs, p, ParentId).Some?
    ensures var p := dir + [entries[k].name];
      EntryInfo(p, entries[k].mtime, Get(attrs, p, ParentId).value) in Gathered(ignored, attrs, dir, entries)
    decreases |entries|
  {
    hide Get;
    if k < |entries| - 1 {
      AllAreGathered(ignored, attrs, dir, entries[..|entries| - 1], k);
    }
  }

  lemma OneParentIff(ignored: Path -> bool, attrs: Attrs, dir: Path, entries: seq<Entry>)
    ensures |Ids(Gathered(ignored, attrs, dir, entries))| <= 1 <==> OneParent(ignored, attrs, dir, entries)
  {
    hide Gathered, Get;
    var infos := Gathered(ignored, attrs, dir, entries);
    if OneParent(ignored, attrs, dir, entries) {
      forall x, y | x in infos && y in infos ensures x.parentID == y.parentID {
        GatheredAre(ignored, attrs, dir, entries, x);
        GatheredAre(ignored, attrs, dir, entries, y);
      }
      if infos != [] {
        assert Ids(infos) <= {infos[0].parentID};
        SubsetSize(Ids(infos), {infos[0].parentID});
      }
    } else {
      var j, k :| 0 <= j < |entries| && 0 <= k < |entries| &&
        var p, q := dir + [entries[j].name], dir + [entries[k].name];
        !ignored(p) && !ignored(q) && Get(attrs, p, ParentId).Some? && Get(attrs, q, ParentId).Some?
        && Get(attrs, p, ParentId) != Get(attrs, q, ParentId);
      AllAreGathered(ignored, attrs, dir, entries, j);
      AllAreGathered(ignored, attrs, dir, entries, k);
      var x, y := Get(attrs, dir + [entries[j].name], ParentId).value, Get(attrs, dir + [entries[k].name], ParentId).value;
      SubsetSize({x, y}, Ids(infos));
    }
  }

  /** The IDs of all paths stay, and no attribute gets lost. */
  ghost predicate KeepsIds(s: Attrs, t: Attrs) {
    forall q, b ::
      && (b == Id || b == SpaceId ==> Get(t, q, b) == Get(s, q, b))
      && (Get(s, q, b).Some? ==> Get(t, q, b).Some?)
  }

  lemma KeepsIdsReflexive(s: Attrs)
    ensures KeepsIds(s, s)
  {}

  lemma {:induction false} FixRemovesNothing(attrs: Attrs, ws: seq<Want>, q: Path, b: Attr)
    ensures Get(attrs, q, b).Some? ==> Get(Fix(attrs, ws), q, b).Some?
    decreases |ws|
  {
    if ws != [] {
      FixRemovesNothing(attrs, ws[..|ws| - 1], q, b);
    }
  }

  /** Fixing the nodes touches no ID and removes nothing. */
  lemma NodesKeepIds(ignored: Path -> bool, attrs: Attrs, dir: Path, space: Entry)
    ensures space.Dir? ==> KeepsIds(attrs, AfterNodes(ignored, attrs, dir, space.entries))
    ensures forall sentinel :: space.Dir? ==> AfterSpaceID(ignored, attrs, dir, space.entries, false, sentinel) == attrs
  {
    if space.Dir? {
      hide Wants, Fix, Gathered, Oldest, Unified, Ids, Get;
      var ws := Wants(ignored, attrs, dir, space.entries, IdOf(attrs, dir));
      WantsUnder(ignored, attrs, dir, space.entries, IdOf(attrs, dir));
      forall q, b
        ensures (b == Id || b == SpaceId ==> Get(Fix(attrs, ws), q, b) == Get(attrs, q, b))
          && (Get(attrs, q, b).Some? ==> Get(Fix(attrs, ws), q, b).Some?)
      {
        FixRemovesNothing(attrs, ws, q, b);
        if b == Id || b == SpaceId {
          FixKeeps(attrs, ws, q, b);
        }
      }
    }
  }

  lemma NothingGathered(ignored: Path -> bool, attrs: Attrs, dir: Path, sentinel: int)
    ensures Gathered(ignored, attrs, dir, []) == [] && Ids([]) == {} && Oldest([], sentinel) == EntryInfo([], sentinel, "")
  {
  }

  lemma OneMoreGathered(ignored: Path -> bool, attrs: Attrs, dir: Path, entries: seq<Entry>, i: nat)
    requires i < |entries|
    ensures var path, front := dir + [entries[i].name], Gathered(ignored, attrs, dir, entries[..i]);
      Gathered(ignored, attrs, dir, entries[..i + 1]) ==
      if ignored(path) || Get(attrs, path, ParentId).None? then front
      else front + [EntryInfo(path, entries[i].mtime, Get(attrs, path, ParentId).value)]
  {
    hide Get;
    assert entries[..i + 1][..i] == entries[..i];
  }

  lemma OldestMore(infos: seq<EntryInfo>, info: EntryInfo, sentinel: int)
    ensures var oldest := Oldest(infos, sentinel);
      Oldest(infos + [info], sentinel) == if info.mtime < oldest.mtime then info else oldest
  {
    assert (infos + [info])[..|infos|] == infos;
  }

  lemma IdsMore(infos: seq<EntryInfo>, info: EntryInfo)
    ensures Ids(infos + [info]) == Ids(infos) + {info.parentID}
  {
    assert forall e <- infos + [info] :: e in infos || e == info;
    assert info in infos + [info];
    assert forall e <- infos :: e in infos + [info];
  }

  lemma NoIdsAtAll()
    ensures Ids([]) == {}
  {
  }

  lemma {:induction false} FixesNone(attrs: Attrs, ws: seq<Want>)
    ensures Fixes(attrs, ws) == 0 ==> Fix(attrs, ws) == attrs
    decreases |ws|
  {
    if ws != [] {
      FixesNone(attrs, ws[..|ws| - 1]);
    }
  }

  // ----- an accepted merge -----

  lemma {:induction false} GatheredAre(ignored: Path -> bool, attrs: Attrs, dir: Path, entries: seq<Entry>, info: EntryInfo)
    requires info in Gathered(ignored, attrs, dir, entries)
    ensures Get(attrs, info.path, ParentId) == Some(info.parentID)
    ensures exists k :: 0 <= k < |entries| && info.path == dir + [entries[k].name] && !ignored(info.path) && info.mtime == entries[k].mtime
    decreases |entries|
  {
    var n := |entries| - 1;
    if info in Gathered(ignored, attrs, dir, entries[..n]) {
      GatheredAre(ignored, attrs, dir, entries[..n], info);
      var k :| 0 <= k < n && info.path == dir + [entries[..n][k].name] && info.mtime == entries[..n][k].mtime;
      assert entries[k] == entries[..n][k];
    } else {
      assert info.path == dir + [entries[n].name];
    }
  }

  lemma AnotherId(infos: seq<EntryInfo>, target: string)
    requires |Ids(infos)| > 1
    ensures exists e :: e in infos && e.parentID != target
  {
    if forall e <- infos :: e.parentID == target {
      assert Ids(infos) <= {target};
      SubsetSize(Ids(infos), {target});
      assert false;
    }
  }

  lemma {:induction false} SubsetSize<T>(a: set<T>, b: set<T>)
    requires a <= b
    ensures |a| <= |b|
  {
    assert b == a + (b - a);
  }

  predicate AllUnder(ignored: Path -> bool, attrs: Attrs, dir: Path, entries: seq<Entry>, target: string) {
    forall k :: 0 <= k < |entries| && !ignored(dir + [entries[k].name]) ==> Get(attrs, dir + [entries[k].name], ParentId) == Some(target)
  }

  /** After an accepted merge the space's two IDs are the oldest entry's parent ID, and so is the
      parent ID of every entry that is not ignored, exactly when that ID is not empty. */
  lemma MergeUnifies(ignored: Path -> bool, attrs: Attrs, dir: Path, entries: seq<Entry>, sentinel: int)
    requires Proper(entries) && |Ids(Gathered(ignored, attrs, dir, entries))| > 1
    ensures var target := Oldest(Gathered(ignored, attrs, dir, entries), sentinel).parentID;
      var after := AfterNodes(ignored, AfterSpaceID(ignored, attrs, dir, entries, true, sentinel), dir, entries);
      && Get(after, dir, Id) == Some(target) && Get(after, dir, SpaceId) == Some(target)
      && (AllUnder(ignored, after, dir, entries, target) <==> target != "")
  {
    hide Wants, Fix, Stripped, Oldest, Ids, Gathered, Proper, AllUnder;
    var infos := Gathered(ignored, attrs, dir, entries);
    var target := Oldest(infos, sentinel).parentID;
    var merged := Unified(attrs, dir, infos, target);
    if target == "" {
      EmptyTarget(ignored, attrs, dir, entries, target);
    } else {
      var ws := Wants(ignored, merged, dir, entries, target);
      WantsUnder(ignored, merged, dir, entries, target);
      FixKeeps(merged, ws, dir, Id);
      FixKeeps(merged, ws, dir, SpaceId);
      DirectAreRight(ignored, merged, dir, entries, target);
    }
  }

  lemma EmptyTarget(ignored: Path -> bool, attrs: Attrs, dir: Path, entries: seq<Entry>, target: string)
    requires |Ids(Gathered(ignored, attrs, dir, entries))| > 1
    ensures !AllUnder(ignored, Unified(attrs, dir, Gathered(ignored, attrs, dir, entries), target), dir, entries, target)
  {
    hide Stripped, Gathered, Ids;
    var infos := Gathered(ignored, attrs, dir, entries);
    AnotherId(infos, target);
    var e :| e in infos && e.parentID != target;
    GatheredAre(ignored, attrs, dir, entries, e);
    StrippedAt(attrs, infos, target, e.path, ParentId);
    var k :| 0 <= k < |entries| && e.path == dir + [entries[k].name] && !ignored(e.path);
    assert e.path <= e.path;
    assert Get(Unified(attrs, dir, infos, target), dir + [entries[k].name], ParentId) == None;
  }

  lemma DirectAreRight(ignored: Path -> bool, attrs: Attrs, dir: Path, entries: seq<Entry>, target: string)
    requires Proper(entries)
    ensures AllUnder(ignored, Fix(attrs, Wants(ignored, attrs, dir, entries, target)), dir, entries, target)
  {
    hide Wants, Fix, Proper, WantsOf;
    forall k | 0 <= k < |entries| && !ignored(dir + [entries[k].name])
      ensures Get(Fix(attrs, Wants(ignored, attrs, dir, entries, target)), dir + [entries[k].name], ParentId) == Some(target)
    {
      ReachedIsRight(ignored, attrs, dir, entries, target, [k]);
    }
  }

  lemma FixNothing(attrs: Attrs)
    ensures Fix(attrs, []) == attrs && Fixes(attrs, []) == 0
  {
  }

  lemma OneMore(ignored: Path -> bool, attrs: Attrs, dir: Path, entries: seq<Entry>, i: nat, parentID: string)
    requires i < |entries|
    ensures Wants(ignored, attrs, dir, entries[..i + 1], parentID)
         == Wants(ignored, attrs, dir, entries[..i], parentID) + WantsBelow(ignored, attrs, dir + [entries[i].name], entries[i], parentID)
  {
    assert entries[..i + 1][..i] == entries[..i];
  }

  lemma WantsOfNoIds(path: Path, e: Entry, parentID: string)
    ensures NoIds(WantsOf(path, e, parentID))
  {
  }
}
