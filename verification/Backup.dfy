/** The backup consistency checker (opencloud/pkg/backup/backup.go): an online matcher over node,
    link and blob events that arrive in any order from concurrent producers. */
module Backup {

  datatype Option<+T> = None | Some(value: T)

  type Path = string
  type Inconsistency = string
  type Table = map<Path, seq<Inconsistency>>

  const BLOB_MISSING := "blob missing"
  const BLOB_ORPHANED := "blob orphaned"
  const NODE_MISSING := "node missing"
  const SYMLINK_MISSING := "symlink missing"

  datatype Event =
    | NodeData(nodePath: Path, blobPath: Path, requiresSymlink: bool, inconsistencies: seq<Inconsistency>)
    | LinkData(linkPath: Path, nodePath: Path)
    | BlobData(blobPath: Path)

  datatype Tables = Tables(
    nodes: Table,
    linkedNodes: Table,
    blobReferences: Table,
    blobs: Table,
    nodeToLink: map<Path, Path>,
    blobToNode: map<Path, Path>)

  const EMPTY := Tables(map[], map[], map[], map[], map[], map[])

  function Lookup(t: Table, p: Path): seq<Inconsistency> {
    if p in t then t[p] else []
  }

  function DeleteInconsistency(t: Table, p: Path): (r: Table)
    ensures forall q :: q in r <==> q in t && (q == p ==> t[q] != [])
    ensures forall q <- r :: r[q] == t[q]
  {
    if Lookup(t, p) == [] then t - {p} else t
  }

  // ----- what one event does -----

  function MatchNode(t: Tables, d: Event): Tables
    requires d.NodeData?
  {
    var p := d.nodePath;
    var nodes := if d.inconsistencies != [] then t.nodes[p := Lookup(t.nodes, p) + d.inconsistencies] else t.nodes;
    var t1 := t.(nodes := nodes);
    if p in t.linkedNodes then t1.(linkedNodes := DeleteInconsistency(t.linkedNodes, p))
    else if d.requiresSymlink && p !in nodes then t1.(nodes := nodes[p := []])
    else t1
  }

  function MatchReference(t: Tables, d: Event): Tables
    requires d.NodeData?
  {
    if d.blobPath == "" then t
    else if d.blobPath in t.blobs then t.(blobs := DeleteInconsistency(t.blobs, d.blobPath))
    else t.(blobReferences := t.blobReferences[d.blobPath := []], blobToNode := t.blobToNode[d.blobPath := d.nodePath])
  }

  function Match(t: Tables, ev: Event): Tables {
    match ev
    case NodeData(_, _, _, _) => MatchReference(MatchNode(t, ev), ev)
    case LinkData(link, p) =>
      if p in t.nodes then t.(nodes := DeleteInconsistency(t.nodes, p))
      else t.(linkedNodes := t.linkedNodes[p := []], nodeToLink := t.nodeToLink[p := link])
    case BlobData(b) =>
      if b in t.blobReferences then t.(blobReferences := DeleteInconsistency(t.blobReferences, b))
      else t.(blobs := t.blobs[b := []])
  }

  function MatchAll(t: Tables, events: seq<Event>): Tables {
    if events == [] then t else Match(MatchAll(t, events[..|events| - 1]), events[|events| - 1])
  }

  /** `inc` is appended to every entry, or only to the entries that hold nothing yet. */
  function Appended(t: Table, inc: Inconsistency, onlyEmpty: bool): Table {
    map p <- t :: if onlyEmpty && t[p] != [] then t[p] else t[p] + [inc]
  }

  /** The last loops of GatherData: what is still unmatched gets its inconsistency. */
  function Finish(t: Tables): Tables {
    t.(nodes := Appended(t.nodes, SYMLINK_MISSING, true),
       linkedNodes := Appended(t.linkedNodes, NODE_MISSING, false),
       blobs := Appended(t.blobs, BLOB_ORPHANED, false),
       blobReferences := Appended(t.blobReferences, BLOB_MISSING, false))
  }

  function Report(events: seq<Event>): Tables {
    Finish(MatchAll(EMPTY, events))
  }

  class Consistency {
    var nodes: Table
    var linkedNodes: Table
    var blobReferences: Table
    var blobs: Table
    var nodeToLink: map<Path, Path>
    var blobToNode: map<Path, Path>

    constructor ()
      ensures View() == EMPTY
    {
      nodes, linkedNodes, blobReferences, blobs := map[], map[], map[], map[];
      nodeToLink, blobToNode := map[], map[];
    }

    function View(): Tables
      reads this
    {
      Tables(nodes, linkedNodes, blobReferences, blobs, nodeToLink, blobToNode)
    }

    /** Ends with exactly the tables that the event list determines. */
    method GatherData(events: seq<Event>)
      modifies this
      ensures View() == Finish(MatchAll(old(View()), events))
    {
      for i := 0 to |events|
        invariant View() == MatchAll(old(View()), events[..i])
      {
        assert events[..i + 1][..i] == events[..i];
        if events[i].NodeData? {
          GatherNode(events[i].nodePath, events[i].blobPath, events[i].requiresSymlink, events[i].inconsistencies);
        } else {
          GatherOther(events[i]);
        }
      }
      assert events[..|events|] == events;
      GatherRest();
    }

    method GatherNode(p: Path, blob: Path, requiresSymlink: bool, inconsistencies: seq<Inconsistency>)
      modifies this
      ensures View() == Match(old(View()), NodeData(p, blob, requiresSymlink, inconsistencies))
    {
      if |inconsistencies| != 0 {
        nodes := nodes[p := Lookup(nodes, p) + inconsistencies];
      }
      if p in linkedNodes {
        linkedNodes := DeleteInconsistency(linkedNodes, p);
      } else if requiresSymlink && p !in nodes {
        nodes := nodes[p := []];
      }
      if blob != "" {
        if blob in blobs {
          blobs := DeleteInconsistency(blobs, blob);
        } else {
          blobReferences := blobReferences[blob := []];
          blobToNode := blobToNode[blob := p];
        }
      }
    }

    method GatherOther(ev: Event)
      requires !ev.NodeData?
      modifies this
      ensures View() == Match(old(View()), ev)
    {
      match ev {
        case LinkData(link, p) =>
          if p in nodes {
            nodes := DeleteInconsistency(nodes, p);
          } else {
            linkedNodes := linkedNodes[p := []];
            nodeToLink := nodeToLink[p := link];
          }
        case BlobData(blob) =>
          if blob in blobReferences {
            blobReferences := DeleteInconsistency(blobReferences, blob);
          } else {
            blobs := blobs[blob := []];
          }
      }
    }

    method GatherRest()
      modifies this
      ensures View() == Finish(old(View()))
    {
      nodes := AppendWhere(nodes, SYMLINK_MISSING, true);
      linkedNodes := AppendWhere(linkedNodes, NODE_MISSING, false);
      blobs := AppendWhere(blobs, BLOB_ORPHANED, false);
      blobReferences := AppendWhere(blobReferences, BLOB_MISSING, false);
    }

    /** Go's iteration over a map, in whatever order, appending to each entry (or only to the empty ones). */
    static method AppendWhere(t: Table, inc: Inconsistency, onlyEmpty: bool) returns (r: Table)
      ensures r == Appended(t, inc, onlyEmpty)
    {
      r := t;
      var todo := t.Keys;
      while todo != {}
        invariant todo <= t.Keys == r.Keys
        invariant forall p <- todo :: r[p] == t[p]
        invariant forall p <- t.Keys - todo :: r[p] == if onlyEmpty && t[p] != [] then t[p] else t[p] + [inc]
      {
        var p :| p in todo;
        if !onlyEmpty || |r[p]| == 0 {
          r := r[p := r[p] + [inc]];
        }
        todo := todo - {p};
      }
    }
  }

  // ----- the declarative meaning of an event list -----

  function FindNode(evs: seq<Event>, p: Path): (n: Option<Event>)
    ensures n.Some? ==> n.value in evs && n.value.NodeData? && n.value.nodePath == p
  {
    if evs == [] then None
    else
      var e := evs[|evs| - 1];
      if e.NodeData? && e.nodePath == p then Some(e) else FindNode(evs[..|evs| - 1], p)
  }

  function FindLink(evs: seq<Event>, p: Path): (l: Option<Event>)
    ensures l.Some? ==> l.value in evs && l.value.LinkData? && l.value.nodePath == p
  {
    if evs == [] then None
    else
      var e := evs[|evs| - 1];
      if e.LinkData? && e.nodePath == p then Some(e) else FindLink(evs[..|evs| - 1], p)
  }

  function FindReference(evs: seq<Event>, b: Path): (n: Option<Event>)
    ensures n.Some? ==> n.value in evs && n.value.NodeData? && n.value.blobPath == b && b != ""
  {
    if evs == [] then None
    else
      var e := evs[|evs| - 1];
      if e.NodeData? && e.blobPath == b && b != "" then Some(e) else FindReference(evs[..|evs| - 1], b)
  }

  predicate HasBlob(evs: seq<Event>, b: Path) {
    BlobData(b) in evs
  }

  /** A node that leaves no trace in the tables while it waits for a link. */
  predicate Traceless(n: Event) {
    n.NodeData? && !n.requiresSymlink && n.inconsistencies == []
  }

  /** A link to a traceless node that arrives after its node. */
  predicate LateLink(evs: seq<Event>, p: Path) {
    evs != [] &&
    var init, e := evs[..|evs| - 1], evs[|evs| - 1];
    LateLink(init, p) || (e.LinkData? && e.nodePath == p && FindNode(init, p).Some? && Traceless(FindNode(init, p).value))
  }

  /** One event per node path, one link per node, one reference and one blob per blob path. */
  predicate Clash(a: Event, b: Event) {
    match (a, b)
    case (NodeData(p, blob, _, _), NodeData(p', blob', _, _)) => p == p' || (blob == blob' && blob != "")
    case (LinkData(_, p), LinkData(_, p')) => p == p'
    case (BlobData(blob), BlobData(blob')) => blob == blob'
    case _ => false
  }

  predicate Unique(evs: seq<Event>) {
    forall i, j :: 0 <= i < j < |evs| ==> !Clash(evs[i], evs[j])
  }

  predicate NodeStays(evs: seq<Event>, p: Path) {
    FindNode(evs, p).Some? &&
    var n := FindNode(evs, p).value;
    n.inconsistencies != [] || (n.requiresSymlink && FindLink(evs, p).None?)
  }

  predicate LinkStays(evs: seq<Event>, p: Path) {
    FindLink(evs, p).Some? && (FindNode(evs, p).None? || LateLink(evs, p))
  }

  /** What the tables say about one path while events are still arriving. */
  predicate NodeAt(t: Tables, evs: seq<Event>, p: Path) {
    && (p in t.nodes <==> NodeStays(evs, p))
    && (p in t.nodes ==> t.nodes[p] == FindNode(evs, p).value.inconsistencies)
  }

  predicate LinkAt(t: Tables, evs: seq<Event>, p: Path) {
    && (p in t.linkedNodes <==> LinkStays(evs, p))
    && (p in t.linkedNodes ==>
          t.linkedNodes[p] == [] && p in t.nodeToLink && t.nodeToLink[p] == FindLink(evs, p).value.linkPath)
  }

  predicate BlobAt(t: Tables, evs: seq<Event>, b: Path) {
    && (b in t.blobReferences <==> FindReference(evs, b).Some? && !HasBlob(evs, b))
    && (b in t.blobReferences ==>
          t.blobReferences[b] == [] && b in t.blobToNode && t.blobToNode[b] == FindReference(evs, b).value.nodePath)
    && (b in t.blobs <==> HasBlob(evs, b) && FindReference(evs, b).None?)
    && (b in t.blobs ==> t.blobs[b] == [])
  }

  ghost predicate Describes(t: Tables, evs: seq<Event>) {
    forall p: Path {:trigger NodeAt(t, evs, p)} {:trigger LinkAt(t, evs, p)} {:trigger BlobAt(t, evs, p)} ::
      NodeAt(t, evs, p) && LinkAt(t, evs, p) && BlobAt(t, evs, p)
  }

  lemma {:induction false} LateLinkHasBoth(evs: seq<Event>, p: Path)
    ensures LateLink(evs, p) ==> FindNode(evs, p).Some? && FindLink(evs, p).Some?
  {
    if evs != [] {
      LateLinkHasBoth(evs[..|evs| - 1], p);
    }
  }

  lemma UniqueSnoc(evs: seq<Event>, e: Event)
    requires Unique(evs + [e])
    ensures Unique(evs) && forall x :: x in evs ==> !Clash(x, e)
  {
    var all := evs + [e];
    assert forall i :: 0 <= i < |evs| ==> all[i] == evs[i];
    forall x | x in evs ensures !Clash(x, e) {
      var i :| 0 <= i < |evs| && evs[i] == x;
      assert all[i] == x && all[|evs|] == e;
    }
  }

  /** What the new event adds to the searches. */
  lemma FindSnoc(evs: seq<Event>, e: Event, p: Path)
    ensures FindNode(evs + [e], p) == if e.NodeData? && e.nodePath == p then Some(e) else FindNode(evs, p)
    ensures FindLink(evs + [e], p) == if e.LinkData? && e.nodePath == p then Some(e) else FindLink(evs, p)
    ensures FindReference(evs + [e], p) == if e.NodeData? && e.blobPath == p && p != "" then Some(e) else FindReference(evs, p)
    ensures HasBlob(evs + [e], p) <==> HasBlob(evs, p) || e == BlobData(p)
    ensures LateLink(evs + [e], p) <==>
              LateLink(evs, p) ||
              (e.LinkData? && e.nodePath == p && FindNode(evs, p).Some? && Traceless(FindNode(evs, p).value))
  {
    assert (evs + [e])[..|evs + [e]| - 1] == evs;
  }

  lemma NodePart(t: Tables, e: Event, q: Path)
    requires e.NodeData?
    ensures var t', p := MatchNode(t, e), e.nodePath;
            && t' == t.(nodes := t'.nodes, linkedNodes := t'.linkedNodes)
            && (p in t'.nodes <==> p in t.nodes || e.inconsistencies != [] || (p !in t.linkedNodes && e.requiresSymlink))
            && (p in t'.nodes ==> t'.nodes[p] == Lookup(t.nodes, p) + e.inconsistencies)
            && (p in t'.linkedNodes <==> p in t.linkedNodes && t.linkedNodes[p] != [])
            && (q != p ==> (q in t'.nodes <==> q in t.nodes) && (q in t.nodes ==> t'.nodes[q] == t.nodes[q]))
            && (q != p ==> (q in t'.linkedNodes <==> q in t.linkedNodes)
                           && (q in t.linkedNodes ==> t'.linkedNodes[q] == t.linkedNodes[q]))
  {}

  lemma ReferencePart(t: Tables, e: Event, q: Path)
    requires e.NodeData?
    ensures var t', b := MatchReference(t, e), e.blobPath;
            && t' == t.(blobs := t'.blobs, blobReferences := t'.blobReferences, blobToNode := t'.blobToNode)
            && (q != b || b == "" ==>
                  && (q in t'.blobs <==> q in t.blobs) && (q in t.blobs ==> t'.blobs[q] == t.blobs[q])
                  && (q in t'.blobReferences <==> q in t.blobReferences)
                  && (q in t.blobReferences ==> t'.blobReferences[q] == t.blobReferences[q])
                  && (q in t.blobToNode ==> q in t'.blobToNode && t'.blobToNode[q] == t.blobToNode[q]))
  {}

  predicate KeptAt(t: Tables, t': Tables, p: Path) {
    && (p in t'.nodes <==> p in t.nodes) && (p in t.nodes ==> t'.nodes[p] == t.nodes[p])
    && (p in t'.linkedNodes <==> p in t.linkedNodes)
    && (p in t.linkedNodes ==> t'.linkedNodes[p] == t.linkedNodes[p])
    && (p in t.nodeToLink ==> p in t'.nodeToLink && t'.nodeToLink[p] == t.nodeToLink[p])
  }

  predicate BlobsKeptAt(t: Tables, t': Tables, p: Path) {
    && (p in t'.blobs <==> p in t.blobs) && (p in t.blobs ==> t'.blobs[p] == t.blobs[p])
    && (p in t'.blobReferences <==> p in t.blobReferences)
    && (p in t.blobReferences ==> t'.blobReferences[p] == t.blobReferences[p])
    && (p in t.blobToNode ==> p in t'.blobToNode && t'.blobToNode[p] == t.blobToNode[p])
  }

  lemma OthersKeptByNode(t: Tables, e: Event, p: Path)
    requires e.NodeData?
    ensures e.nodePath != p ==> KeptAt(t, Match(t, e), p)
    ensures e.blobPath != p || p == "" ==> BlobsKeptAt(t, Match(t, e), p)
  {
    hide MatchNode, MatchReference;
    NodePart(t, e, p);
    ReferencePart(MatchNode(t, e), e, p);
  }

  lemma OthersKeptByLink(t: Tables, e: Event, p: Path)
    requires e.LinkData?
    ensures BlobsKeptAt(t, Match(t, e), p) && (e.nodePath != p ==> KeptAt(t, Match(t, e), p))
  {
    hide MatchNode, MatchReference;
  }

  lemma OthersKeptByBlob(t: Tables, e: Event, p: Path)
    requires e.BlobData?
    ensures KeptAt(t, Match(t, e), p) && (e.blobPath != p ==> BlobsKeptAt(t, Match(t, e), p))
  {
    hide MatchNode, MatchReference;
  }

  /** An event leaves the entries of other paths alone. */
  lemma OthersKept(t: Tables, e: Event, p: Path)
    ensures e.BlobData? || e.nodePath != p ==> KeptAt(t, Match(t, e), p)
    ensures e.LinkData? || e.blobPath != p || (p == "" && !e.BlobData?) ==> BlobsKeptAt(t, Match(t, e), p)
  {
    hide Match, KeptAt, BlobsKeptAt;
    if e.NodeData? {
      OthersKeptByNode(t, e, p);
    } else if e.LinkData? {
      OthersKeptByLink(t, e, p);
    } else {
      OthersKeptByBlob(t, e, p);
    }
  }

  /** A node event, at its own path. */
  lemma NodeEffect(t: Tables, e: Event)
    requires e.NodeData?
    ensures var t', p := Match(t, e), e.nodePath;
            && (p in t'.nodes <==> p in t.nodes || e.inconsistencies != [] || (p !in t.linkedNodes && e.requiresSymlink))
            && (p in t'.nodes ==> t'.nodes[p] == Lookup(t.nodes, p) + e.inconsistencies)
            && (p in t'.linkedNodes <==> p in t.linkedNodes && t.linkedNodes[p] != [])
  {
    hide MatchNode, MatchReference;
    NodePart(t, e, e.nodePath);
    ReferencePart(MatchNode(t, e), e, e.nodePath);
  }

  lemma LinkEffect(t: Tables, e: Event)
    requires e.LinkData?
    ensures var t', p := Match(t, e), e.nodePath;
            && (p in t'.nodes <==> p in t.nodes && t.nodes[p] != []) && (p in t'.nodes ==> t'.nodes[p] == t.nodes[p])
            && (p in t'.linkedNodes <==> p in t.linkedNodes || p !in t.nodes)
            && (p !in t.nodes ==> t'.linkedNodes[p] == [] && p in t'.nodeToLink && t'.nodeToLink[p] == e.linkPath)
  {}

  lemma ReferenceEffect(t: Tables, e: Event)
    requires e.NodeData? && e.blobPath != ""
    ensures var t', b := Match(t, e), e.blobPath;
            && (b !in t.blobs ==>
                  b !in t'.blobs && b in t'.blobReferences && t'.blobReferences[b] == []
                  && b in t'.blobToNode && t'.blobToNode[b] == e.nodePath)
            && (b in t.blobs && t.blobs[b] == [] ==> b !in t'.blobs && (b in t'.blobReferences <==> b in t.blobReferences))
  {}

  lemma BlobEffect(t: Tables, e: Event)
    requires e.BlobData?
    ensures var t', b := Match(t, e), e.blobPath;
            && (b !in t.blobReferences ==> b !in t'.blobReferences && b in t'.blobs && t'.blobs[b] == [])
            && (b in t.blobReferences && t.blobReferences[b] == [] ==>
                  b !in t'.blobReferences && (b in t'.blobs <==> b in t.blobs))
  {}

  lemma MatchNodeAt(t: Tables, evs: seq<Event>, e: Event, p: Path)
    requires NodeAt(t, evs, p) && LinkAt(t, evs, p) && Unique(evs + [e])
    ensures NodeAt(Match(t, e), evs + [e], p) && LinkAt(Match(t, e), evs + [e], p)
  {
    hide FindNode, FindLink, LateLink, Match, Unique;
    UniqueSnoc(evs, e);
    FindSnoc(evs, e, p);
    LateLinkHasBoth(evs, p);
    OthersKept(t, e, p);
    if e.NodeData? {
      NodeEffect(t, e);
    } else if e.LinkData? {
      LinkEffect(t, e);
    }
  }

  lemma MatchBlobAt(t: Tables, evs: seq<Event>, e: Event, b: Path)
    requires BlobAt(t, evs, b) && Unique(evs + [e])
    ensures BlobAt(Match(t, e), evs + [e], b)
  {
    hide FindReference, Match, Unique;
    UniqueSnoc(evs, e);
    FindSnoc(evs, e, b);
    assert e.BlobData? ==> BlobData(e.blobPath) !in evs;
    OthersKept(t, e, b);
    if e.NodeData? && e.blobPath != "" {
      ReferenceEffect(t, e);
    } else if e.BlobData? {
      BlobEffect(t, e);
    }
  }

  lemma {:induction false} MatchAllDescribes(evs: seq<Event>)
    requires Unique(evs)
    ensures Describes(MatchAll(EMPTY, evs), evs)
  {
    if evs != [] {
      var init, e := evs[..|evs| - 1], evs[|evs| - 1];
      assert evs == init + [e];
      UniqueSnoc(init, e);
      MatchAllDescribes(init);
      var t := MatchAll(EMPTY, init);
      hide NodeAt, LinkAt, BlobAt, Match;
      forall p: Path ensures NodeAt(Match(t, e), evs, p) && LinkAt(Match(t, e), evs, p) && BlobAt(Match(t, e), evs, p) {
        assert NodeAt(t, init, p);
        MatchNodeAt(t, init, e, p);
        MatchBlobAt(t, init, e, p);
      }
    }
  }

  // ----- the declarative report -----

  function Elements(evs: seq<Event>): set<Event> {
    set e <- evs
  }

  predicate Linked(s: set<Event>, p: Path) {
    exists l <- s :: l.LinkData? && l.nodePath == p
  }

  predicate HasNode(s: set<Event>, p: Path) {
    exists n <- s :: n.NodeData? && n.nodePath == p
  }

  predicate Referenced(s: set<Event>, b: Path) {
    exists n <- s :: n.NodeData? && n.blobPath == b && b != ""
  }

  predicate BadNode(s: set<Event>, n: Event) {
    n.NodeData? && (n.inconsistencies != [] || (n.requiresSymlink && !Linked(s, n.nodePath)))
  }

  function NodeReport(n: Event): seq<Inconsistency>
    requires n.NodeData?
  {
    if n.inconsistencies != [] then n.inconsistencies else [SYMLINK_MISSING]
  }

  /** The report of a set of events, without reference to any order. */
  ghost predicate Declared(r: Tables, s: set<Event>) {
    && (forall p :: p in r.nodes ==> exists n <- s :: BadNode(s, n) && n.nodePath == p)
    && (forall n <- s :: BadNode(s, n) ==> n.nodePath in r.nodes && r.nodes[n.nodePath] == NodeReport(n))
    && (forall p :: p in r.linkedNodes ==> Linked(s, p) && !HasNode(s, p) && r.linkedNodes[p] == [NODE_MISSING])
    && (forall l <- s :: l.LinkData? && !HasNode(s, l.nodePath) ==>
          l.nodePath in r.linkedNodes && l.nodePath in r.nodeToLink && r.nodeToLink[l.nodePath] == l.linkPath)
    && (forall b :: b in r.blobs <==> BlobData(b) in s && !Referenced(s, b))
    && (forall b <- r.blobs :: r.blobs[b] == [BLOB_ORPHANED])
    && (forall b :: b in r.blobReferences <==> BlobData(b) !in s && Referenced(s, b))
    && (forall b <- r.blobReferences :: r.blobReferences[b] == [BLOB_MISSING])
    && (forall n <- s :: n.NodeData? && n.blobPath in r.blobReferences ==>
          n.blobPath in r.blobToNode && r.blobToNode[n.blobPath] == n.nodePath)
  }

  /** No link points to a node that needs none and reports nothing. */
  predicate NoStrayLinks(evs: seq<Event>) {
    forall l <- evs, n <- evs :: l.LinkData? && n.NodeData? && l.nodePath == n.nodePath ==> !Traceless(n)
  }

  /** With unique events the searches just find the one event there is. */
  lemma {:induction false} FindIsIn(evs: seq<Event>, e: Event)
    requires Unique(evs) && e in evs
    ensures e.NodeData? ==> FindNode(evs, e.nodePath) == Some(e)
    ensures e.LinkData? ==> FindLink(evs, e.nodePath) == Some(e)
    ensures e.NodeData? && e.blobPath != "" ==> FindReference(evs, e.blobPath) == Some(e)
  {
    var init, last := evs[..|evs| - 1], evs[|evs| - 1];
    assert evs == init + [last];
    UniqueSnoc(init, last);
    if e in init {
      FindIsIn(init, e);
    }
  }

  lemma NoLateLinks(evs: seq<Event>, p: Path)
    requires Unique(evs) && NoStrayLinks(evs)
    ensures !LateLink(evs, p)
  {
    if LateLink(evs, p) {
      var n, l := LateLinkWitness(evs, p);
      assert false;
    }
  }

  lemma {:induction false} LateLinkWitness(evs: seq<Event>, p: Path) returns (n: Event, l: Event)
    requires LateLink(evs, p)
    ensures n in evs && l in evs && Traceless(n) && n.nodePath == p && l.LinkData? && l.nodePath == p
  {
    var init, last := evs[..|evs| - 1], evs[|evs| - 1];
    if LateLink(init, p) {
      n, l := LateLinkWitness(init, p);
    } else {
      n, l := FindNode(init, p).value, last;
    }
  }

  lemma SearchesAreMembership(evs: seq<Event>, p: Path)
    requires Unique(evs)
    ensures var s := Elements(evs);
            && (FindNode(evs, p).Some? <==> HasNode(s, p)) && (FindLink(evs, p).Some? <==> Linked(s, p))
            && (FindReference(evs, p).Some? <==> Referenced(s, p))
  {
    var s := Elements(evs);
    if HasNode(s, p) {
      var n :| n in s && n.NodeData? && n.nodePath == p;
      FindIsIn(evs, n);
    }
    if Linked(s, p) {
      var l :| l in s && l.LinkData? && l.nodePath == p;
      FindIsIn(evs, l);
    }
    if Referenced(s, p) {
      var n :| n in s && n.NodeData? && n.blobPath == p && p != "";
      FindIsIn(evs, n);
    }
    if FindNode(evs, p).Some? { assert FindNode(evs, p).value in s; }
    if FindLink(evs, p).Some? { assert FindLink(evs, p).value in s; }
    if FindReference(evs, p).Some? { assert FindReference(evs, p).value in s; }
  }

  lemma ReportNodes(evs: seq<Event>, s: set<Event>, p: Path)
    requires Unique(evs) && s == Elements(evs)
    ensures p in Report(evs).nodes <==> NodeStays(evs, p)
    ensures p in Report(evs).nodes ==>
              FindNode(evs, p).Some? && FindNode(evs, p).value in s && BadNode(s, FindNode(evs, p).value) && FindNode(evs, p).value.nodePath == p
              && Report(evs).nodes[p] == NodeReport(FindNode(evs, p).value)
  {
    MatchAllDescribes(evs);
    assert NodeAt(MatchAll(EMPTY, evs), evs, p);
    SearchesAreMembership(evs, p);
    hide MatchAll, FindNode, FindLink;
  }

  lemma ReportLinks(evs: seq<Event>, p: Path)
    requires Unique(evs)
    ensures p in Report(evs).linkedNodes <==> LinkStays(evs, p)
    ensures p in Report(evs).linkedNodes ==>
              Report(evs).linkedNodes[p] == [NODE_MISSING] && p in Report(evs).nodeToLink
              && Report(evs).nodeToLink[p] == FindLink(evs, p).value.linkPath
  {
    MatchAllDescribes(evs);
    assert LinkAt(MatchAll(EMPTY, evs), evs, p);
    hide MatchAll, FindNode, FindLink, LateLink;
  }

  lemma ReportBlobs(evs: seq<Event>, b: Path)
    requires Unique(evs)
    ensures b in Report(evs).blobs <==> HasBlob(evs, b) && FindReference(evs, b).None?
    ensures b in Report(evs).blobs ==> Report(evs).blobs[b] == [BLOB_ORPHANED]
    ensures b in Report(evs).blobReferences <==> !HasBlob(evs, b) && FindReference(evs, b).Some?
    ensures b in Report(evs).blobReferences ==>
              Report(evs).blobReferences[b] == [BLOB_MISSING] && b in Report(evs).blobToNode
              && Report(evs).blobToNode[b] == FindReference(evs, b).value.nodePath
  {
    MatchAllDescribes(evs);
    assert BlobAt(MatchAll(EMPTY, evs), evs, b);
    hide MatchAll, FindReference;
  }

  /** Whatever the arrival order, the report is the declared one. */
  lemma ReportIsDeclared(evs: seq<Event>)
    requires Unique(evs) && NoStrayLinks(evs)
    ensures Declared(Report(evs), Elements(evs))
  {
    var s, r := Elements(evs), Report(evs);
    hide Report, FindNode, FindLink, FindReference, LateLink, NodeStays;
    forall p ensures p in r.nodes ==> exists n <- s :: BadNode(s, n) && n.nodePath == p {
      ReportNodes(evs, s, p);
      if p in r.nodes {
        var n := FindNode(evs, p).value;
        assert n in s && BadNode(s, n) && n.nodePath == p;
      }
    }
    forall n <- s | BadNode(s, n) ensures n.nodePath in r.nodes && r.nodes[n.nodePath] == NodeReport(n) {
      BadNodeStays(evs, s, n);
      ReportNodes(evs, s, n.nodePath);
    }
    forall p ensures p in r.linkedNodes ==> Linked(s, p) && !HasNode(s, p) && r.linkedNodes[p] == [NODE_MISSING] {
      ReportLinks(evs, p);
      NoLateLinks(evs, p);
      SearchesAreMembership(evs, p);
    }
    forall l <- s | l.LinkData? && !HasNode(s, l.nodePath)
      ensures l.nodePath in r.linkedNodes && l.nodePath in r.nodeToLink && r.nodeToLink[l.nodePath] == l.linkPath
    {
      ReportLinks(evs, l.nodePath);
      FindIsIn(evs, l);
      SearchesAreMembership(evs, l.nodePath);
    }
    forall b
      ensures b in r.blobs <==> BlobData(b) in s && !Referenced(s, b)
      ensures b in r.blobs ==> r.blobs[b] == [BLOB_ORPHANED]
      ensures b in r.blobReferences <==> BlobData(b) !in s && Referenced(s, b)
      ensures b in r.blobReferences ==> r.blobReferences[b] == [BLOB_MISSING]
    {
      ReportBlobs(evs, b);
      SearchesAreMembership(evs, b);
    }
    forall n <- s | n.NodeData? && n.blobPath in r.blobReferences
      ensures n.blobPath in r.blobToNode && r.blobToNode[n.blobPath] == n.nodePath
    {
      ReportBlobs(evs, n.blobPath);
      SearchesAreMembership(evs, n.blobPath);
      FindIsIn(evs, n);
    }
  }

  lemma BadNodeStays(evs: seq<Event>, s: set<Event>, n: Event)
    requires Unique(evs) && s == Elements(evs) && n in s && BadNode(s, n)
    ensures NodeStays(evs, n.nodePath) && FindNode(evs, n.nodePath) == Some(n)
  {
    FindIsIn(evs, n);
    SearchesAreMembership(evs, n.nodePath);
  }

  ghost predicate SameReport(a: Tables, b: Tables) {
    a.nodes == b.nodes && a.linkedNodes == b.linkedNodes && a.blobs == b.blobs && a.blobReferences == b.blobReferences
  }

  lemma DeclaredIsUnique(a: Tables, b: Tables, s: set<Event>)
    requires Declared(a, s) && Declared(b, s)
    ensures SameReport(a, b)
  {
    hide BadNode;
    assert a.nodes.Keys == b.nodes.Keys;
    assert a.linkedNodes.Keys == b.linkedNodes.Keys by {
      forall p ensures p in a.linkedNodes <==> p in b.linkedNodes {
        if Linked(s, p) && !HasNode(s, p) {
          var l :| l in s && l.LinkData? && l.nodePath == p;
        }
      }
    }
    assert a.blobs.Keys == b.blobs.Keys;
    assert a.blobReferences.Keys == b.blobReferences.Keys;
  }

  lemma PermutationIsUnique(evs: seq<Event>, evs': seq<Event>)
    requires multiset(evs) == multiset(evs') && Unique(evs)
    ensures Unique(evs') && (forall e :: e in evs <==> e in evs')
  {
    assert forall e :: e in evs <==> e in multiset(evs);
    assert forall e :: e in evs' <==> e in multiset(evs');
    forall i, j | 0 <= i < j < |evs'| ensures !Clash(evs'[i], evs'[j]) {
      if Clash(evs'[i], evs'[j]) {
        if evs'[i] == evs'[j] {
          TwiceIn(evs', i, j);
          OnceIn(evs, evs'[i]);
        } else {
          assert evs'[i] in evs' && evs'[j] in evs';
          var i', j' :| 0 <= i' < |evs| && 0 <= j' < |evs| && evs[i'] == evs'[i] && evs[j'] == evs'[j];
          ClashIsSymmetric(evs'[i], evs'[j]);
        }
      }
    }
  }

  lemma ClashIsSymmetric(a: Event, b: Event)
    ensures Clash(a, b) <==> Clash(b, a)
  {}

  lemma TwiceIn(evs: seq<Event>, i: nat, j: nat)
    requires i < j < |evs| && evs[i] == evs[j]
    ensures multiset(evs)[evs[i]] >= 2
  {
    assert evs == evs[..j] + [evs[j]] + evs[j + 1..];
    assert evs[..j][i] in multiset(evs[..j]);
  }

  lemma {:induction false} OnceIn(evs: seq<Event>, e: Event)
    requires Unique(evs) && Clash(e, e)
    ensures multiset(evs)[e] <= 1
  {
    if evs != [] {
      var init, last := evs[..|evs| - 1], evs[|evs| - 1];
      assert evs == init + [last];
      UniqueSnoc(init, last);
      OnceIn(init, e);
      if last == e {
        assert e !in init;
        assert e !in multiset(init);
      }
    }
  }

  /** The order in which the concurrent producers deliver their events does not matter. */
  lemma OrderIsIrrelevant(evs: seq<Event>, evs': seq<Event>)
    requires multiset(evs) == multiset(evs') && Unique(evs) && NoStrayLinks(evs)
    ensures SameReport(Report(evs), Report(evs'))
  {
    PermutationIsUnique(evs, evs');
    ReportIsDeclared(evs);
    ReportIsDeclared(evs');
    assert Elements(evs) == Elements(evs');
    hide Report, Declared;
    DeclaredIsUnique(Report(evs), Report(evs'), Elements(evs));
  }

  // ----- exactly when the order is irrelevant -----

  lemma {:induction false} LateLinkIsOrder(evs: seq<Event>, i: nat, j: nat)
    requires Unique(evs) && i < |evs| && j < |evs|
    requires Traceless(evs[i]) && evs[j].LinkData? && evs[j].nodePath == evs[i].nodePath
    ensures LateLink(evs, evs[i].nodePath) <==> i < j
  {
    var p, n := evs[i].nodePath, |evs| - 1;
    var init, last := evs[..n], evs[n];
    assert evs == init + [last];
    UniqueSnoc(init, last);
    FindSnoc(init, last, p);
    LateLinkHasBoth(init, p);
    if i < n && j < n {
      assert init[i] == evs[i] && init[j] == evs[j] && init[j] in init;
      LateLinkIsOrder(init, i, j);
    } else if j == n {
      assert init[i] == evs[i] && init[i] in init;
      FindIsIn(init, evs[i]);
    } else {
      assert i == n;
    }
  }

  /** A stray link is reported or not depending on whether it or its node comes first: the order
      of unique events is irrelevant if and only if there is no stray link. */
  lemma OrderIrrelevantIff(evs: seq<Event>)
    requires Unique(evs)
    ensures NoStrayLinks(evs) <==> forall evs' :: multiset(evs') == multiset(evs) ==> SameReport(Report(evs), Report(evs'))
  {
    if NoStrayLinks(evs) {
      forall evs' | multiset(evs') == multiset(evs) ensures SameReport(Report(evs), Report(evs')) {
        OrderIsIrrelevant(evs, evs');
      }
    } else {
      var l, n :| l in evs && n in evs && l.LinkData? && n.NodeData? && l.nodePath == n.nodePath && Traceless(n);
      var evs' := StrayLinkSwapped(evs, n, l);
    }
  }

  lemma StrayLinkSwapped(evs: seq<Event>, n: Event, l: Event) returns (evs': seq<Event>)
    requires Unique(evs) && n in evs && l in evs && Traceless(n) && l.LinkData? && l.nodePath == n.nodePath
    ensures multiset(evs') == multiset(evs) && !SameReport(Report(evs), Report(evs'))
  {
    var i :| 0 <= i < |evs| && evs[i] == n;
    var j :| 0 <= j < |evs| && evs[j] == l;
    evs' := evs[i := l][j := n];
    assert multiset(evs') == multiset(evs);
    hide Report, Unique, Traceless, LateLink;
    PermutationIsUnique(evs, evs');
    LateLinkIsOrder(evs, i, j);
    LateLinkIsOrder(evs', j, i);
    LateLinkIsReported(evs, n, l);
    LateLinkIsReported(evs', n, l);
  }

  lemma LateLinkIsReported(evs: seq<Event>, n: Event, l: Event)
    requires Unique(evs) && n in evs && l in evs && n.NodeData? && l.LinkData? && l.nodePath == n.nodePath
    ensures n.nodePath in Report(evs).linkedNodes <==> LateLink(evs, n.nodePath)
  {
    hide Report, Unique, LateLink;
    ReportLinks(evs, n.nodePath);
    FindIsIn(evs, n);
    FindIsIn(evs, l);
  }

  // ----- an empty report -----

  ghost predicate IsConsistent(s: set<Event>) {
    && (forall n <- s :: !BadNode(s, n))
    && (forall l <- s :: l.LinkData? ==> HasNode(s, l.nodePath))
    && (forall e <- s :: e.BlobData? ==> Referenced(s, e.blobPath))
    && (forall n <- s :: n.NodeData? && n.blobPath != "" ==> BlobData(n.blobPath) in s)
  }

  ghost predicate NoLateLink(evs: seq<Event>) {
    forall p :: !LateLink(evs, p)
  }

  /** No table has anything to say about a path. */
  predicate QuietAt(r: Tables, p: Path) {
    p !in r.nodes && p !in r.linkedNodes && p !in r.blobs && p !in r.blobReferences
  }

  lemma QuietIsEmpty(r: Tables)
    ensures SameReport(r, EMPTY) <==> forall p :: QuietAt(r, p)
  {
    if forall p :: QuietAt(r, p) {
      assert forall p :: p in r.nodes || p in r.linkedNodes || p in r.blobs || p in r.blobReferences ==> !QuietAt(r, p);
      assert r.nodes == map[] && r.linkedNodes == map[] && r.blobs == map[] && r.blobReferences == map[];
    }
  }

  lemma QuietBySearch(evs: seq<Event>, p: Path)
    requires Unique(evs)
    ensures QuietAt(Report(evs), p) <==>
      !NodeStays(evs, p) && !LinkStays(evs, p) && (HasBlob(evs, p) <==> FindReference(evs, p).Some?)
  {
    hide Report, NodeStays, LinkStays, HasBlob, FindReference;
    ReportNodes(evs, Elements(evs), p);
    ReportLinks(evs, p);
    ReportBlobs(evs, p);
  }

  lemma ConsistentIsQuiet(evs: seq<Event>, p: Path)
    requires Unique(evs) && IsConsistent(Elements(evs)) && !LateLink(evs, p)
    ensures QuietAt(Report(evs), p)
  {
    hide Report, LateLink;
    var s := Elements(evs);
    QuietBySearch(evs, p);
    SearchesAreMembership(evs, p);
    if FindNode(evs, p).Some? {
      assert FindNode(evs, p).value in s;
    }
    if FindLink(evs, p).Some? {
      assert FindLink(evs, p).value in s;
    }
    if FindReference(evs, p).Some? {
      assert FindReference(evs, p).value in s;
    }
    if HasBlob(evs, p) {
      assert BlobData(p) in s;
    }
    hide FindNode, FindLink, FindReference;
  }

  lemma QuietIsConsistent(evs: seq<Event>)
    requires Unique(evs) && forall p :: QuietAt(Report(evs), p)
    ensures IsConsistent(Elements(evs)) && NoLateLink(evs)
  {
    hide Report, LateLink, QuietAt, FindNode, FindLink, FindReference;
    var s := Elements(evs);
    forall p
      ensures !LateLink(evs, p)
    {
      assert QuietAt(Report(evs), p);
      QuietBySearch(evs, p);
      LateLinkHasBoth(evs, p);
    }
    forall e <- s
      ensures !BadNode(s, e)
      ensures e.LinkData? ==> HasNode(s, e.nodePath)
      ensures e.BlobData? ==> Referenced(s, e.blobPath)
      ensures e.NodeData? && e.blobPath != "" ==> BlobData(e.blobPath) in s
    {
      QuietEvent(evs, e);
    }
  }

  lemma QuietEvent(evs: seq<Event>, e: Event)
    requires Unique(evs) && e in evs && forall p :: QuietAt(Report(evs), p)
    ensures var s := Elements(evs);
      && !BadNode(s, e)
      && (e.LinkData? ==> HasNode(s, e.nodePath))
      && (e.BlobData? ==> Referenced(s, e.blobPath))
      && (e.NodeData? && e.blobPath != "" ==> BlobData(e.blobPath) in s)
  {
    hide Report, LateLink, QuietAt, FindNode, FindLink, FindReference, Linked, HasNode, Referenced;
    FindIsIn(evs, e);
    if !e.BlobData? {
      assert QuietAt(Report(evs), e.nodePath);
      QuietBySearch(evs, e.nodePath);
      SearchesAreMembership(evs, e.nodePath);
    }
    if !e.LinkData? {
      assert QuietAt(Report(evs), e.blobPath);
      QuietBySearch(evs, e.blobPath);
      SearchesAreMembership(evs, e.blobPath);
    }
  }

  /** "No inconsistency found" is printed exactly for a consistent storage without a link to a node
      that needs none and has been seen before it. */
  lemma EmptyReportIff(evs: seq<Event>)
    requires Unique(evs)
    ensures SameReport(Report(evs), EMPTY) <==> IsConsistent(Elements(evs)) && NoLateLink(evs)
  {
    hide Report, LateLink, QuietAt, IsConsistent, SameReport;
    QuietIsEmpty(Report(evs));
    if SameReport(Report(evs), EMPTY) {
      QuietIsConsistent(evs);
    } else if IsConsistent(Elements(evs)) && NoLateLink(evs) {
      forall p
        ensures QuietAt(Report(evs), p)
      {
        ConsistentIsQuiet(evs, p);
      }
    }
  }

  /** So, where the order does not matter, exactly for a consistent storage. */
  lemma EmptyReportIffConsistent(evs: seq<Event>)
    requires Unique(evs) && NoStrayLinks(evs)
    ensures SameReport(Report(evs), EMPTY) <==> IsConsistent(Elements(evs))
  {
    EmptyReportIff(evs);
    hide Report, LateLink, IsConsistent, SameReport;
    forall p
      ensures !LateLink(evs, p)
    {
      NoLateLinks(evs, p);
    }
  }
}
