/** The folder lister (opencloud/pkg/revisions/revisions.go): one goroutine per folder, a
    semaphore that bounds how many folders are being read, and a WaitGroup per folder. A run is
    any sequence of atomic steps of any of the goroutines. */
module Revisions {

  datatype Option<+T> = None | Some(value: T)

  type Path = seq<string>

  datatype Entry = Entry(name: string, isDir: bool)

  function Parent(q: Path): Path
    requires q != []
  {
    q[..|q| - 1]
  }

  function Last(q: Path): string
    requires q != []
  {
    q[|q| - 1]
  }

  /** The position of a name in a listing, its length if the name is not listed. */
  function Find(entries: seq<Entry>, name: string): (i: nat)
    ensures i <= |entries|
    ensures i < |entries| ==> entries[i].name == name
    ensures forall k :: 0 <= k < i ==> entries[k].name != name
  {
    if entries == [] || entries[0].name == name then 0 else 1 + Find(entries[1..], name)
  }

  /** The folders below a base, the base being the empty path; `None` is a folder that cannot be
      read. `isRevision` is the name pattern. */
  datatype Tree = Tree(folders: map<Path, Option<seq<Entry>>>, isRevision: string -> bool) {

    function Entries(p: Path): seq<Entry> {
      if p in folders && folders[p].Some? then folders[p].value else []
    }

    function Index(q: Path): nat
      requires q != []
    {
      Find(Entries(Parent(q)), Last(q))
    }

    function Child(p: Path, k: nat): Path
      requires k < |Entries(p)|
    {
      p + [Entries(p)[k].name]
    }

    /** Names are unique in a folder, and the folders are the base and the listed directories. */
    ghost predicate Valid() {
      && [] in folders
      && (forall p, i, j :: 0 <= i < j < |Entries(p)| ==> Entries(p)[i].name != Entries(p)[j].name)
      && (forall p <- folders, k: nat :: k < |Entries(p)| && Entries(p)[k].isDir ==> Child(p, k) in folders)
      && (forall q <- folders :: q != [] ==> Listed(q))
    }

    predicate Listed(q: Path)
      requires q != []
    {
      Parent(q) in folders && Index(q) < |Entries(Parent(q))| && Entries(Parent(q))[Index(q)].isDir
    }

    lemma ChildIndex(p: Path, k: nat)
      requires Valid() && k < |Entries(p)|
      ensures Child(p, k) != [] && Parent(Child(p, k)) == p && Last(Child(p, k)) == Entries(p)[k].name
      ensures Index(Child(p, k)) == k
    {
      assert Parent(Child(p, k)) == p;
    }

    lemma IndexChild(q: Path)
      requires q != [] && Index(q) < |Entries(Parent(q))|
      ensures Child(Parent(q), Index(q)) == q
    {
    }
  }

  // ----- the step system -----

  datatype Pc =
    | Idle                        // not started
    | Waiting                     // workers <- struct{}{}
    | Reading                     // holds a slot, before os.ReadDir
    | Failing                     // the read failed, before giving the slot back
    | At(i: nat, started: bool)   // in the loop, at child i, before or after starting its goroutine
    | Joining                     // the slot is given back, wg.Wait()
    | Done

  datatype State = State(pcs: map<Path, Pc>, slots: nat, emitted: seq<Path>, closed: bool, panicked: bool)

  /** One step of a folder's goroutine, or the close of the output after the base's has returned. */
  datatype Act = Run(p: Path) | CloseOut

  function Init(t: Tree): State {
    State(map p | p in t.folders :: if p == [] then Waiting else Idle, 0, [], false, false)
  }

  predicate ChildrenDone(s: State, p: Path) {
    forall q <- s.pcs :: q != [] && Parent(q) == p ==> s.pcs[q] == Idle || s.pcs[q] == Done
  }

  /** A goroutine waits for a free slot, and at the end for the goroutines it has started. */
  predicate Enabled(workers: nat, s: State, p: Path)
    requires p in s.pcs
  {
    match s.pcs[p]
    case Waiting => s.slots < workers
    case Joining => ChildrenDone(s, p)
    case Idle => false
    case Done => false
    case _ => true
  }

  function Next(t: Tree, p: Path, pc: Pc): Pc {
    match pc
    case Idle => Waiting
    case Waiting => Reading
    case Reading => if p in t.folders && t.folders[p].Some? then At(0, false) else Failing
    case Failing => Done
    case At(i, started) => if i >= |t.Entries(p)| then Joining else if started then At(i + 1, false) else At(i, true)
    case Joining => Done
    case Done => Done
  }

  function Slots(t: Tree, p: Path, pc: Pc, slots: nat): int {
    if pc == Waiting then slots + 1
    else if pc == Failing || (pc.At? && pc.i >= |t.Entries(p)|) then slots - 1
    else slots
  }

  /** The step starts the goroutine of the child `pc.i`. */
  predicate Starts(t: Tree, p: Path, pc: Pc) {
    pc.At? && !pc.started && pc.i < |t.Entries(p)| && t.Entries(p)[pc.i].isDir
  }

  /** The step sends the path of the child `pc.i`. */
  predicate Sends(t: Tree, p: Path, pc: Pc) {
    pc.At? && pc.started && pc.i < |t.Entries(p)| && t.isRevision(t.Entries(p)[pc.i].name)
  }

  function Pcs(t: Tree, s: State, p: Path): map<Path, Pc>
    requires p in s.pcs
  {
    var pc := s.pcs[p];
    var pcs := s.pcs[p := Next(t, p, pc)];
    if Starts(t, p, pc) then pcs[t.Child(p, pc.i) := Waiting] else pcs
  }

  function Step(t: Tree, workers: nat, s: State, act: Act): Option<State> {
    match act
    case Run(p) =>
      if p in s.pcs && Enabled(workers, s, p) && Slots(t, p, s.pcs[p], s.slots) >= 0 then
        var sends := Sends(t, p, s.pcs[p]);
        Some(s.(pcs := Pcs(t, s, p), slots := Slots(t, p, s.pcs[p], s.slots),
                emitted := if sends && !s.closed then s.emitted + [t.Child(p, s.pcs[p].i)] else s.emitted,
                panicked := s.panicked || (sends && s.closed)))
      else None
    case CloseOut =>
      if [] in s.pcs && s.pcs[[]] == Done && !s.closed then Some(s.(closed := true)) else None
  }

  function Exec(t: Tree, workers: nat, s: State, acts: seq<Act>): Option<State>
    decreases |acts|
  {
    if acts == [] then Some(s)
    else if Step(t, workers, s, acts[0]).None? then None
    else Exec(t, workers, Step(t, workers, s, acts[0]).value, acts[1..])
  }

  // ----- the invariant -----

  predicate Holds(pc: Pc) {
    pc == Reading || pc == Failing || pc.At?
  }

  function Holders(s: State): set<Path> {
    set p <- s.pcs | Holds(s.pcs[p])
  }

  /** How many entries of a folder have had their turn at the start of a goroutine. */
  function Started(t: Tree, p: Path, pc: Pc): nat {
    match pc
    case At(i, started) => if started then i + 1 else i
    case Joining => |t.Entries(p)|
    case Done => |t.Entries(p)|
    case _ => 0
  }

  /** How many have had their turn at the send. */
  function Sent(t: Tree, p: Path, pc: Pc): nat {
    if pc.At? then pc.i else Started(t, p, pc)
  }

  predicate SlotInv(workers: nat, s: State) {
    s.slots == |Holders(s)| <= workers
  }

  predicate InRange(t: Tree, p: Path, pc: Pc) {
    && (pc == Failing ==> p in t.folders && t.folders[p].None?)
    && (pc.At? ==> p in t.folders && t.folders[p].Some? && Started(t, p, pc) <= |t.Entries(p)|)
  }

  /** A folder is started exactly when its parent's loop has passed it, and it is done before its
      parent is. */
  predicate FamilyInv(t: Tree, pcs: map<Path, Pc>, q: Path)
    requires q in pcs && q != []
  {
    && Parent(q) in pcs
    && (pcs[q] != Idle <==> t.Index(q) < Started(t, Parent(q), pcs[Parent(q)]))
    && (pcs[Parent(q)] == Done ==> pcs[q] == Done)
  }

  predicate ProgressInv(t: Tree, s: State) {
    && !s.panicked && s.pcs.Keys == t.folders.Keys && [] in s.pcs && s.pcs[[]] != Idle
    && (s.closed ==> s.pcs[[]] == Done)
    && (forall p <- s.pcs :: InRange(t, p, s.pcs[p]))
    && (forall q <- s.pcs :: q != [] ==> FamilyInv(t, s.pcs, q))
  }

  /** Entry `x` matches and its turn at the send is over. */
  predicate IsSent(t: Tree, pcs: map<Path, Pc>, x: Path) {
    && x != [] && Parent(x) in pcs && t.isRevision(Last(x))
    && t.Index(x) < |t.Entries(Parent(x))| && t.Index(x) < Sent(t, Parent(x), pcs[Parent(x)])
  }

  predicate Distinct(xs: seq<Path>) {
    forall i, j :: 0 <= i < j < |xs| ==> xs[i] != xs[j]
  }

  ghost predicate EmitInv(t: Tree, s: State) {
    Distinct(s.emitted) && forall x :: x in s.emitted <==> IsSent(t, s.pcs, x)
  }

  ghost predicate Inv(t: Tree, workers: nat, s: State) {
    SlotInv(workers, s) && ProgressInv(t, s) && EmitInv(t, s)
  }

  lemma InitInv(t: Tree, workers: nat)
    requires t.Valid()
    ensures Inv(t, workers, Init(t))
  {
    var s := Init(t);
    assert Holders(s) == {};
    forall q <- s.pcs | q != []
      ensures FamilyInv(t, s.pcs, q)
    {
      assert t.Listed(q);
    }
  }

  // ----- every step keeps it -----

  /** The goroutine of a child is started once. */
  lemma StartsIdle(t: Tree, s: State, p: Path)
    requires t.Valid() && ProgressInv(t, s) && p in s.pcs && Starts(t, p, s.pcs[p])
    ensures var q := t.Child(p, s.pcs[p].i);
      q in s.pcs && q != [] && q != p && s.pcs[q] == Idle && Parent(q) == p && t.Index(q) == s.pcs[p].i
  {
    hide InRange, Find;
    t.ChildIndex(p, s.pcs[p].i);
    var q := t.Child(p, s.pcs[p].i);
    assert q in t.folders.Keys;
    assert FamilyInv(t, s.pcs, q);
  }

  lemma StepKeepsSlots(t: Tree, workers: nat, s: State, p: Path)
    requires s.slots == |Holders(s)| <= workers && p in s.pcs && Step(t, workers, s, Run(p)).Some?
    requires Starts(t, p, s.pcs[p]) ==> t.Child(p, s.pcs[p].i) in s.pcs && s.pcs[t.Child(p, s.pcs[p].i)] == Idle
    ensures var s' := Step(t, workers, s, Run(p)).value; s'.slots == |Holders(s')| <= workers
  {
    hide *;
    PcsKeepHolders(t, s, p);
    RunSlots(t, workers, s, p);
    HoldersOf(s, Step(t, workers, s, Run(p)).value, Pcs(t, s, p));
    SlotCount(t, workers, s, p);
  }

  function HoldersIn(pcs: map<Path, Pc>): set<Path> {
    set p <- pcs | Holds(pcs[p])
  }

  lemma HoldersOf(s: State, s': State, pcs: map<Path, Pc>)
    requires s'.pcs == pcs
    ensures Holders(s) == HoldersIn(s.pcs) && Holders(s') == HoldersIn(pcs)
  {
  }

  lemma RunSlots(t: Tree, workers: nat, s: State, p: Path)
    requires p in s.pcs && Step(t, workers, s, Run(p)).Some?
    ensures var s' := Step(t, workers, s, Run(p)).value; s'.pcs == Pcs(t, s, p) && s'.slots == Slots(t, p, s.pcs[p], s.slots)
    ensures s.pcs[p] == Waiting ==> s.slots < workers
    ensures s.pcs[p] != Idle
  {
    hide Pcs, Slots, Sends, ChildrenDone;
  }

  /** Which folders hold a slot after a step: only the folder itself can change. */
  lemma PcsKeepHolders(t: Tree, s: State, p: Path)
    requires p in s.pcs
    requires Starts(t, p, s.pcs[p]) ==> t.Child(p, s.pcs[p].i) in s.pcs && s.pcs[t.Child(p, s.pcs[p].i)] == Idle
    ensures HoldersIn(Pcs(t, s, p)) == if Holds(Next(t, p, s.pcs[p])) then HoldersIn(s.pcs) + {p} else HoldersIn(s.pcs) - {p}
  {
    hide Next, Starts, Tree.Child;
    PcsOf(t, s, p);
    if Starts(t, p, s.pcs[p]) {
      StartsHolds(t, p, s.pcs[p]);
    }
    hide Pcs;
  }

  lemma StartsHolds(t: Tree, p: Path, pc: Pc)
    requires Starts(t, p, pc)
    ensures Holds(pc) && Holds(Next(t, p, pc))
  {
  }

  lemma SlotCount(t: Tree, workers: nat, s: State, p: Path)
    requires p in s.pcs && s.slots == |HoldersIn(s.pcs)| <= workers && (s.pcs[p] == Waiting ==> s.slots < workers) && s.pcs[p] != Idle
    requires var h := HoldersIn(Pcs(t, s, p)); h == if Holds(Next(t, p, s.pcs[p])) then HoldersIn(s.pcs) + {p} else HoldersIn(s.pcs) - {p}
    ensures Slots(t, p, s.pcs[p], s.slots) == |HoldersIn(Pcs(t, s, p))| <= workers
  {
    hide *;
    HoldersHas(s.pcs, p);
    SetSizes(HoldersIn(s.pcs), p);
    NextSlots(t, p, s.pcs[p], s.slots);
  }

  lemma HoldersHas(pcs: map<Path, Pc>, p: Path)
    requires p in pcs
    ensures p in HoldersIn(pcs) <==> Holds(pcs[p])
  {
  }

  lemma SetSizes<T>(h: set<T>, p: T)
    ensures p in h ==> h + {p} == h && |h - {p}| == |h| - 1
    ensures p !in h ==> h - {p} == h && |h + {p}| == |h| + 1
  {
  }

  /** A slot is taken and given back exactly where a folder begins and ends to hold one. */
  lemma NextSlots(t: Tree, p: Path, pc: Pc, slots: nat)
    requires pc != Idle
    ensures Slots(t, p, pc, slots) == slots + (if Holds(Next(t, p, pc)) then 1 else 0) - if Holds(pc) then 1 else 0
    ensures !Holds(pc) && Holds(Next(t, p, pc)) ==> pc == Waiting
  {
  }

  /** Below a folder that is done, every folder is done. */
  lemma {:induction false} DoneStaysBelow(t: Tree, s: State, p: Path)
    requires t.Valid() && ProgressInv(t, s) && s.pcs[[]] == Done && p in s.pcs
    ensures s.pcs[p] == Done
    decreases |p|
  {
    hide InRange, Find, Tree.Valid, Started;
    if p != [] {
      assert FamilyInv(t, s.pcs, p);
      DoneStaysBelow(t, s, Parent(p));
    }
  }

  lemma NextInRange(t: Tree, p: Path, pc: Pc)
    requires p in t.folders && InRange(t, p, pc)
    ensures InRange(t, p, Next(t, p, pc))
  {
  }

  /** The pcs after a step of `p`, folder by folder. */
  lemma PcsAt(t: Tree, s: State, p: Path, q: Path)
    requires t.Valid() && ProgressInv(t, s) && p in s.pcs && q in s.pcs
    ensures Pcs(t, s, p).Keys == s.pcs.Keys
    ensures Pcs(t, s, p)[q] ==
      if Starts(t, p, s.pcs[p]) && q == t.Child(p, s.pcs[p].i) then Waiting
      else if q == p then Next(t, p, s.pcs[p])
      else s.pcs[q]
  {
    hide *;
    if Starts(t, p, s.pcs[p]) {
      StartsIdle(t, s, p);
    }
    PcsOf(t, s, p);
  }

  lemma PcsOf(t: Tree, s: State, p: Path)
    requires p in s.pcs
    ensures Starts(t, p, s.pcs[p]) ==>
      t.Child.requires(p, s.pcs[p].i) && Pcs(t, s, p) == s.pcs[p := Next(t, p, s.pcs[p])][t.Child(p, s.pcs[p].i) := Waiting]
    ensures !Starts(t, p, s.pcs[p]) ==> Pcs(t, s, p) == s.pcs[p := Next(t, p, s.pcs[p])]
  {
  }

  lemma RangeAt(t: Tree, s: State, p: Path, q: Path)
    requires t.Valid() && ProgressInv(t, s) && p in s.pcs && q in s.pcs
    ensures q in Pcs(t, s, p) && InRange(t, q, Pcs(t, s, p)[q])
  {
    PcsAt(t, s, p, q);
    assert q in t.folders && InRange(t, q, s.pcs[q]);
    NextInRange(t, q, s.pcs[q]);
    hide Pcs, Tree.Valid, ProgressInv, Tree.Entries, Tree.Child, Next, Starts, Find;
  }

  /** How far the parent's loop has come, after a step of the parent. */
  lemma StartedNext(t: Tree, p: Path, pc: Pc)
    requires InRange(t, p, pc) && pc != Idle && pc != Done && p in t.folders
    ensures var starting := pc.At? && !pc.started && pc.i < |t.Entries(p)|;
      Started(t, p, Next(t, p, pc)) == Started(t, p, pc) + (if starting then 1 else 0) && (Starts(t, p, pc) ==> starting)
    ensures pc.At? && !pc.started ==> Started(t, p, pc) == pc.i
    ensures Next(t, p, pc) != Idle && (Next(t, p, pc) == Done ==> pc == Joining || pc == Failing)
    ensures pc == Failing || pc == Joining ==> Started(t, p, pc) == |t.Entries(p)|
    ensures pc == Failing ==> |t.Entries(p)| == 0
  {
  }

  /** The folder that a step starts is the listed one whose turn it is. */
  lemma StartsListed(t: Tree, s: State, q: Path)
    requires t.Valid() && ProgressInv(t, s) && q in s.pcs && q != [] && Parent(q) in s.pcs
    ensures |q| == |Parent(q)| + 1
    ensures t.Index(q) < |t.Entries(Parent(q))|
    ensures var pc := s.pcs[Parent(q)];
      pc.At? && !pc.started && pc.i < |t.Entries(Parent(q))| ==>
        (Starts(t, Parent(q), pc) && q == t.Child(Parent(q), pc.i) <==> t.Index(q) == pc.i)
  {
    assert q in t.folders && t.Listed(q);
    t.IndexChild(q);
    var pc := s.pcs[Parent(q)];
    if pc.At? && !pc.started && pc.i < |t.Entries(Parent(q))| {
      t.ChildIndex(Parent(q), pc.i);
    }
  }

  lemma ProgressAt(t: Tree, s: State, p: Path)
    requires ProgressInv(t, s) && p in s.pcs
    ensures p in t.folders && InRange(t, p, s.pcs[p]) && (p != [] ==> FamilyInv(t, s.pcs, p))
  {
    hide InRange, FamilyInv;
  }

  /** A step of the parent. */
  lemma FamilyOfParent(t: Tree, workers: nat, s: State, q: Path)
    requires t.Valid() && ProgressInv(t, s) && q in s.pcs && q != [] && Parent(q) in s.pcs && Enabled(workers, s, Parent(q))
    ensures q in Pcs(t, s, Parent(q)) && FamilyInv(t, Pcs(t, s, Parent(q)), q)
  {
    hide Pcs, Tree.Valid, ProgressInv, InRange, Started, Next, Find, Starts, Tree.Entries, Tree.Child, Tree.Index, Parent;
    var p := Parent(q);
    ProgressAt(t, s, p);
    ProgressAt(t, s, q);
    PcsAt(t, s, p, p);
    PcsAt(t, s, p, q);
    StartsListed(t, s, q);
    StartedNext(t, p, s.pcs[p]);
    if Starts(t, p, s.pcs[p]) {
      StartsIdle(t, s, p);
    }
  }

  /** A step of any other folder. */
  lemma FamilyOfOthers(t: Tree, workers: nat, s: State, p: Path, q: Path)
    requires t.Valid() && ProgressInv(t, s) && q in s.pcs && q != [] && p in s.pcs && p != Parent(q) && Enabled(workers, s, p)
    ensures q in Pcs(t, s, p) && FamilyInv(t, Pcs(t, s, p), q)
  {
    assert FamilyInv(t, s.pcs, q) && p in t.folders && InRange(t, p, s.pcs[p]);
    PcsAt(t, s, p, q);
    PcsAt(t, s, p, Parent(q));
    StartedNext(t, p, s.pcs[p]);
    if Starts(t, p, s.pcs[p]) {
      StartsIdle(t, s, p);
      if Parent(q) == t.Child(p, s.pcs[p].i) {
        NothingBelowIdle(t, s, q);
      }
    }
    hide Pcs, Tree.Valid, ProgressInv, InRange, Started, Next, Find, Tree.Entries, Tree.Child, Tree.Index;
  }

  lemma NothingBelowIdle(t: Tree, s: State, q: Path)
    requires q in s.pcs && q != [] && FamilyInv(t, s.pcs, q) && s.pcs[Parent(q)] == Idle
    ensures s.pcs[q] == Idle && Started(t, Parent(q), Waiting) == Started(t, Parent(q), Idle)
  {
  }

  lemma StepKeepsFamily(t: Tree, workers: nat, s: State, p: Path, q: Path)
    requires t.Valid() && ProgressInv(t, s) && q in s.pcs && q != [] && p in s.pcs && Enabled(workers, s, p)
    ensures q in Pcs(t, s, p) && FamilyInv(t, Pcs(t, s, p), q)
  {
    hide *;
    if p == Parent(q) {
      FamilyOfParent(t, workers, s, q);
    } else {
      FamilyOfOthers(t, workers, s, p, q);
    }
  }

  lemma StepKeepsProgress(t: Tree, workers: nat, s: State, act: Act)
    requires t.Valid() && ProgressInv(t, s) && Step(t, workers, s, act).Some?
    ensures ProgressInv(t, Step(t, workers, s, act).value)
  {
    hide Pcs, InRange, FamilyInv, Tree.Valid, Enabled, Find, Next, Starts, Sends;
    if act.Run? {
      var p := act.p;
      if s.closed {
        DoneStaysBelow(t, s, p);
        assert false by { DoneIsOver(workers, s, p); }
      }
      PcsAt(t, s, p, []);
      BaseNeverIdle(t, s, p);
      forall q <- Pcs(t, s, p)
        ensures q in s.pcs && InRange(t, q, Pcs(t, s, p)[q])
      {
        PcsAt(t, s, p, p);
        RangeAt(t, s, p, q);
      }
      forall q <- Pcs(t, s, p) | q != []
        ensures q in s.pcs && FamilyInv(t, Pcs(t, s, p), q)
      {
        PcsAt(t, s, p, p);
        StepKeepsFamily(t, workers, s, p, q);
      }
    }
  }

  lemma DoneIsOver(workers: nat, s: State, p: Path)
    requires p in s.pcs && s.pcs[p] == Done
    ensures !Enabled(workers, s, p)
  {
  }

  lemma BaseNeverIdle(t: Tree, s: State, p: Path)
    requires t.Valid() && ProgressInv(t, s) && p in s.pcs
    ensures [] in Pcs(t, s, p) && Pcs(t, s, p)[[]] != Idle
  {
    PcsAt(t, s, p, []);
  }

  lemma SentNext(t: Tree, p: Path, pc: Pc)
    requires InRange(t, p, pc) && p in t.folders
    ensures Sent(t, p, Waiting) == Sent(t, p, Idle)
    ensures pc != Idle ==>
      Sent(t, p, Next(t, p, pc)) == Sent(t, p, pc) + if pc.At? && pc.started && pc.i < |t.Entries(p)| then 1 else 0
    ensures pc.At? ==> Sent(t, p, pc) == pc.i
  {
  }

  /** Which entries count as sent after a step: those before, and the one that was just sent. */
  lemma SentAt(t: Tree, workers: nat, s: State, p: Path, x: Path)
    requires t.Valid() && ProgressInv(t, s) && p in s.pcs && Enabled(workers, s, p)
    ensures IsSent(t, Pcs(t, s, p), x) <==> IsSent(t, s.pcs, x) || (Sends(t, p, s.pcs[p]) && x == t.Child(p, s.pcs[p].i))
    ensures Sends(t, p, s.pcs[p]) ==> !IsSent(t, s.pcs, t.Child(p, s.pcs[p].i))
  {
    hide Pcs, ProgressInv, InRange, Sent, Next, Find, Starts, Tree.Valid, Tree.Child, Tree.Entries, Tree.Index, ChildrenDone;
    ProgressAt(t, s, p);
    PcsAt(t, s, p, p);
    SentNext(t, p, s.pcs[p]);
    if Starts(t, p, s.pcs[p]) {
      StartsIdle(t, s, p);
    }
    if s.pcs[p].At? && s.pcs[p].i < |t.Entries(p)| {
      t.ChildIndex(p, s.pcs[p].i);
    }
    if x != [] && Parent(x) in s.pcs {
      ProgressAt(t, s, Parent(x));
      PcsAt(t, s, p, Parent(x));
      SentNext(t, Parent(x), s.pcs[Parent(x)]);
      if t.Index(x) < |t.Entries(Parent(x))| {
        t.IndexChild(x);
      }
    }
  }

  lemma StepKeepsEmitted(t: Tree, workers: nat, s: State, act: Act)
    requires t.Valid() && ProgressInv(t, s) && EmitInv(t, s) && Step(t, workers, s, act).Some?
    ensures EmitInv(t, Step(t, workers, s, act).value)
  {
    hide Pcs, ProgressInv, Tree.Valid, IsSent, Enabled, Next, Tree.Child, Sends;
    if act.Run? {
      var p := act.p;
      NotClosed(t, workers, s, p);
      forall x
        ensures IsSent(t, Pcs(t, s, p), x) <==> IsSent(t, s.pcs, x) || (Sends(t, p, s.pcs[p]) && x == SentPath(t, p, s.pcs[p]))
      {
        SentAt(t, workers, s, p, x);
      }
      SentAt(t, workers, s, p, []);
    }
  }

  function SentPath(t: Tree, p: Path, pc: Pc): Path {
    if Sends(t, p, pc) then t.Child(p, pc.i) else []
  }

  /** The output is closed only when every goroutine is over. */
  lemma NotClosed(t: Tree, workers: nat, s: State, p: Path)
    requires t.Valid() && ProgressInv(t, s) && p in s.pcs && Enabled(workers, s, p)
    ensures !s.closed
  {
    if s.closed {
      DoneStaysBelow(t, s, p);
      assert false;
    }
  }

  lemma StepKeepsInv(t: Tree, workers: nat, s: State, act: Act)
    requires t.Valid() && Inv(t, workers, s) && Step(t, workers, s, act).Some?
    ensures Inv(t, workers, Step(t, workers, s, act).value)
  {
    hide Step, ProgressInv, EmitInv, Tree.Valid;
    if act.Run? {
      RunOnlyInFolders(t, workers, s, act.p);
      if Starts(t, act.p, s.pcs[act.p]) {
        StartsIdle(t, s, act.p);
      }
      StepKeepsSlots(t, workers, s, act.p);
    } else {
      CloseKeepsSlots(t, workers, s);
    }
    StepKeepsProgress(t, workers, s, act);
    StepKeepsEmitted(t, workers, s, act);
  }

  lemma RunOnlyInFolders(t: Tree, workers: nat, s: State, p: Path)
    requires Step(t, workers, s, Run(p)).Some?
    ensures p in s.pcs && Enabled(workers, s, p)
  {
  }

  lemma CloseKeepsSlots(t: Tree, workers: nat, s: State)
    requires SlotInv(workers, s) && Step(t, workers, s, CloseOut).Some?
    ensures SlotInv(workers, Step(t, workers, s, CloseOut).value)
  {
    assert Holders(s.(closed := true)) == Holders(s);
  }

  lemma {:induction false} ExecKeepsInv(t: Tree, workers: nat, s: State, acts: seq<Act>)
    requires t.Valid() && Inv(t, workers, s) && Exec(t, workers, s, acts).Some?
    ensures Inv(t, workers, Exec(t, workers, s, acts).value)
    decreases |acts|
  {
    hide Tree.Valid, Inv, Step;
    if acts != [] {
      StepKeepsInv(t, workers, s, acts[0]);
      ExecKeepsInv(t, workers, Step(t, workers, s, acts[0]).value, acts[1..]);
    }
  }

  ghost predicate Reachable(t: Tree, workers: nat, s: State) {
    exists acts :: Exec(t, workers, Init(t), acts) == Some(s)
  }

  lemma ReachableInv(t: Tree, workers: nat, s: State)
    requires t.Valid() && Reachable(t, workers, s)
    ensures Inv(t, workers, s)
  {
    hide Tree.Valid, Inv, Step, Exec;
    var acts :| Exec(t, workers, Init(t), acts) == Some(s);
    InitInv(t, workers);
    ExecKeepsInv(t, workers, Init(t), acts);
  }

  // ----- safety -----

  /** At no time do more than `workers` folders hold a slot, and no send meets a closed channel. */
  lemma NeverTooMany(t: Tree, workers: nat, s: State)
    requires t.Valid() && Reachable(t, workers, s)
    ensures |Holders(s)| <= workers && !s.panicked
  {
    ReachableInv(t, workers, s);
  }

  /** What a listing is: every entry that matches in a folder that can be read. */
  predicate Matching(t: Tree, x: Path) {
    && x != [] && Parent(x) in t.folders && t.isRevision(Last(x))
    && exists isDir :: Entry(Last(x), isDir) in t.Entries(Parent(x))
  }

  lemma MatchingIsIndexed(t: Tree, x: Path)
    ensures Matching(t, x) <==>
      x != [] && Parent(x) in t.folders && t.isRevision(Last(x)) && t.Index(x) < |t.Entries(Parent(x))|
  {
    if x != [] {
      var entries := t.Entries(Parent(x));
      var i := Find(entries, Last(x));
      if i < |entries| {
        assert entries[i] == Entry(Last(x), entries[i].isDir);
      }
    }
  }

  /** When the output is closed every goroutine is over, and what was sent is every matching entry
      below the base, each once, whatever the schedule. */
  lemma ClosedIsComplete(t: Tree, workers: nat, s: State)
    requires t.Valid() && Reachable(t, workers, s) && s.closed
    ensures forall p <- t.folders :: p in s.pcs && s.pcs[p] == Done
    ensures Distinct(s.emitted)
    ensures forall x :: x in s.emitted <==> Matching(t, x)
  {
    hide Tree.Valid, Find, Tree.Entries;
    ReachableInv(t, workers, s);
    forall p <- t.folders
      ensures p in s.pcs && s.pcs[p] == Done
    {
      assert p in t.folders.Keys;
      DoneStaysBelow(t, s, p);
    }
    forall x
      ensures x in s.emitted <==> Matching(t, x)
    {
      MatchingIsIndexed(t, x);
      assert x in s.emitted <==> IsSent(t, s.pcs, x);
    }
  }

  /** What was sent at any earlier time is a part of it, never anything else. */
  lemma SentIsMatching(t: Tree, workers: nat, s: State, x: Path)
    requires t.Valid() && Reachable(t, workers, s) && x in s.emitted
    ensures Matching(t, x) && Distinct(s.emitted)
  {
    ReachableInv(t, workers, s);
    assert IsSent(t, s.pcs, x);
    MatchingIsIndexed(t, x);
  }

  // ----- progress -----

  predicate IsEnabled(t: Tree, workers: nat, s: State, act: Act) {
    Step(t, workers, s, act).Some?
  }

  /** A folder that holds a slot can always move. */
  lemma HolderMoves(t: Tree, workers: nat, s: State, p: Path)
    requires SlotInv(workers, s) && p in s.pcs && Holds(s.pcs[p])
    ensures IsEnabled(t, workers, s, Run(p))
  {
    assert p in Holders(s);
    if |Holders(s)| == 0 {
      assert false;
    }
  }

  function Deeper(s: State, p: Path): set<Path> {
    set q <- s.pcs | |q| > |p|
  }

  /** Of the goroutines that wait for others, a deepest one waits for none. */
  lemma {:induction false} JoinerMoves(t: Tree, workers: nat, s: State, p: Path) returns (q: Path)
    requires p in s.pcs && s.pcs[p] == Joining
    requires forall r <- s.pcs :: s.pcs[r] == Idle || s.pcs[r] == Joining || s.pcs[r] == Done
    ensures IsEnabled(t, workers, s, Run(q))
    decreases |Deeper(s, p)|
  {
    hide IsEnabled, Deeper;
    if ChildrenDone(s, p) {
      q := p;
      JoinIsEnabled(t, workers, s, p);
    } else {
      var r :| r in s.pcs && r != [] && Parent(r) == p && s.pcs[r] != Idle && s.pcs[r] != Done;
      DeeperShrinks(s, p, r);
      q := JoinerMoves(t, workers, s, r);
    }
  }

  lemma JoinIsEnabled(t: Tree, workers: nat, s: State, p: Path)
    requires p in s.pcs && s.pcs[p] == Joining && ChildrenDone(s, p)
    ensures IsEnabled(t, workers, s, Run(p))
  {
    hide ChildrenDone, Pcs, Sends;
  }

  lemma DeeperShrinks(s: State, p: Path, r: Path)
    requires r in s.pcs && r != [] && Parent(r) == p
    ensures |Deeper(s, r)| < |Deeper(s, p)|
  {
    SmallerSet(Deeper(s, r), Deeper(s, p), r);
  }

  lemma SmallerSet<T>(a: set<T>, b: set<T>, x: T)
    requires a <= b && x in b && x !in a
    ensures |a| < |b|
  {
    assert a + (b - a) == b;
    assert x in b - a;
  }

  /** No deadlock: until the output is closed some goroutine can move. */
  lemma NotStuck(t: Tree, workers: nat, s: State) returns (act: Act)
    requires t.Valid() && workers >= 1 && Reachable(t, workers, s) && !s.closed
    ensures IsEnabled(t, workers, s, act)
  {
    hide *;
    ReachableInv(t, workers, s);
    BaseIsStarted(t, workers, s);
    if p :| p in s.pcs && Holds(s.pcs[p]) {
      HolderMoves(t, workers, s, p);
      act := Run(p);
    } else {
      NoneHolds(workers, s);
      act := OthersMove(t, workers, s);
    }
  }

  lemma BaseIsStarted(t: Tree, workers: nat, s: State)
    requires Inv(t, workers, s)
    ensures SlotInv(workers, s) && [] in s.pcs && s.pcs[[]] != Idle
  {
    hide SlotInv, EmitInv, FamilyInv, InRange;
  }

  lemma NoneHolds(workers: nat, s: State)
    requires SlotInv(workers, s) && forall p <- s.pcs :: !Holds(s.pcs[p])
    ensures s.slots == 0
  {
    hide Holds;
    assert Holders(s) == {};
  }

  lemma OthersMove(t: Tree, workers: nat, s: State) returns (act: Act)
    requires workers >= 1 && s.slots == 0 && !s.closed && [] in s.pcs && s.pcs[[]] != Idle && forall p <- s.pcs :: !Holds(s.pcs[p])
    ensures IsEnabled(t, workers, s, act)
  {
    hide IsEnabled;
    if p :| p in s.pcs && s.pcs[p] == Waiting {
      act := Run(p);
      WaiterIsEnabled(t, workers, s, p);
    } else if s.pcs[[]] == Done {
      act := CloseOut;
      CloseIsEnabled(t, workers, s);
    } else {
      var q := JoinerMoves(t, workers, s, []);
      act := Run(q);
    }
  }

  lemma WaiterIsEnabled(t: Tree, workers: nat, s: State, p: Path)
    requires p in s.pcs && s.pcs[p] == Waiting && s.slots < workers
    ensures IsEnabled(t, workers, s, Run(p))
  {
    hide ChildrenDone, Pcs, Sends;
  }

  lemma CloseIsEnabled(t: Tree, workers: nat, s: State)
    requires [] in s.pcs && s.pcs[[]] == Done && !s.closed
    ensures IsEnabled(t, workers, s, CloseOut)
  {
  }

  // ----- every run ends -----

  ghost function Sum(m: map<Path, nat>): nat
  {
    if m == map[] then 0
    else
      var p :| p in m;
      m[p] + Sum(m - {p})
  }

  lemma {:induction false} SumPick(m: map<Path, nat>, p: Path)
    requires p in m
    ensures Sum(m) == m[p] + Sum(m - {p})
    decreases |m|
  {
    var q :| q in m && Sum(m) == m[q] + Sum(m - {q});
    if q != p {
      assert m - {q} - {p} == m - {p} - {q};
      SumPick(m - {q}, p);
      SumPick(m - {p}, q);
    }
  }

  lemma SumUpdate(m: map<Path, nat>, p: Path, v: nat)
    requires p in m
    ensures Sum(m[p := v]) == Sum(m) - m[p] + v
  {
    SumPick(m, p);
    SumPick(m[p := v], p);
    assert m[p := v] - {p} == m - {p};
  }

  /** The steps a folder's goroutine has left. */
  function StepsLeft(t: Tree, p: Path, pc: Pc): nat {
    var n := |t.Entries(p)|;
    match pc
    case Idle => 2 * n + 5
    case Waiting => 2 * n + 4
    case Reading => 2 * n + 3
    case Failing => 1
    case At(i, started) => if i >= n then 2 else 2 * (n - i) + 2 - if started then 1 else 0
    case Joining => 1
    case Done => 0
  }

  ghost function Budget(t: Tree, s: State): nat {
    Sum(Left(t, s.pcs)) + if s.closed then 0 else 1
  }

  lemma NextTakesStep(t: Tree, p: Path, pc: Pc)
    requires pc != Done
    ensures StepsLeft(t, p, Next(t, p, pc)) < StepsLeft(t, p, pc)
  {
  }

  lemma StepTakesBudget(t: Tree, workers: nat, s: State, act: Act)
    requires t.Valid() && ProgressInv(t, s) && Step(t, workers, s, act).Some?
    ensures Budget(t, Step(t, workers, s, act).value) < Budget(t, s)
  {
    hide ProgressInv, Tree.Valid, Sum, StepsLeft, Next, Starts, Sends, Tree.Child, ChildrenDone;
    if act.Run? {
      var p := act.p;
      RunTakesBudget(t, workers, s, p);
      var s' := Step(t, workers, s, act).value;
      assert s'.pcs == Pcs(t, s, p);
    }
  }

  ghost function Left(t: Tree, pcs: map<Path, Pc>): map<Path, nat> {
    map p | p in pcs :: StepsLeft(t, p, pcs[p])
  }

  lemma RunTakesBudget(t: Tree, workers: nat, s: State, p: Path)
    requires t.Valid() && ProgressInv(t, s) && p in s.pcs && Enabled(workers, s, p)
    ensures Sum(Left(t, Pcs(t, s, p))) < Sum(Left(t, s.pcs))
  {
    hide Pcs, ProgressInv, Tree.Valid, Sum, StepsLeft, Next, Tree.Child, ChildrenDone;
    var pc := s.pcs[p];
    var one := s.pcs[p := Next(t, p, pc)];
    NextTakesStep(t, p, pc);
    PcsOf(t, s, p);
    assert Left(t, one) == Left(t, s.pcs)[p := StepsLeft(t, p, Next(t, p, pc))];
    SumUpdate(Left(t, s.pcs), p, StepsLeft(t, p, Next(t, p, pc)));
    if Starts(t, p, pc) {
      StartsIdle(t, s, p);
      var q := t.Child(p, pc.i);
      assert Left(t, one[q := Waiting]) == Left(t, one)[q := StepsLeft(t, q, Waiting)];
      SumUpdate(Left(t, one), q, StepsLeft(t, q, Waiting));
      NextTakesStep(t, q, Idle);
      WaitingIsNext(t, q);
    }
  }

  lemma WaitingIsNext(t: Tree, q: Path)
    ensures Next(t, q, Idle) == Waiting
  {
  }

  /** Every schedule ends: no run is longer than the budget of the tree. */
  lemma {:induction false} ExecTakesBudget(t: Tree, workers: nat, s: State, acts: seq<Act>)
    requires t.Valid() && Inv(t, workers, s) && Exec(t, workers, s, acts).Some?
    ensures |acts| <= Budget(t, s)
    decreases |acts|
  {
    hide Tree.Valid, SlotInv, EmitInv, ProgressInv, Step, Budget;
    if acts != [] {
      StepTakesBudget(t, workers, s, acts[0]);
      StepKeepsInv(t, workers, s, acts[0]);
      ExecTakesBudget(t, workers, Step(t, workers, s, acts[0]).value, acts[1..]);
    }
  }

  /** A run that cannot go on has closed its output, and every run gets there in bounded time: with
      the two lemmas before, every schedule lists the tree and ends. */
  lemma EveryScheduleLists(t: Tree, workers: nat, acts: seq<Act>)
    requires t.Valid() && workers >= 1 && Exec(t, workers, Init(t), acts).Some?
    ensures |acts| <= Budget(t, Init(t))
    ensures var s := Exec(t, workers, Init(t), acts).value;
      (forall act :: !IsEnabled(t, workers, s, act)) ==> s.closed && Distinct(s.emitted) && forall x :: x in s.emitted <==> Matching(t, x)
  {
    hide *;
    InitInv(t, workers);
    ExecTakesBudget(t, workers, Init(t), acts);
    var s := Exec(t, workers, Init(t), acts).value;
    IsReachable(t, workers, acts);
    if s.closed {
      ClosedIsComplete(t, workers, s);
    } else {
      var act := NotStuck(t, workers, s);
    }
  }

  /** Without workers the listing never starts. */
  lemma NoWorkersNoListing(t: Tree, act: Act)
    requires t.Valid()
    ensures !IsEnabled(t, 0, Init(t), act) && !Init(t).closed
  {
    if act.Run? && act.p in Init(t).pcs {
      assert Init(t).pcs[act.p] == Waiting || Init(t).pcs[act.p] == Idle;
    }
  }

  lemma IsReachable(t: Tree, workers: nat, acts: seq<Act>)
    requires Exec(t, workers, Init(t), acts).Some?
    ensures Reachable(t, workers, Exec(t, workers, Init(t), acts).value)
  {
    hide Exec, Init;
  }
}
