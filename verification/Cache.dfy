/** The cache with pooled entries (pkg/sync/cache.go), its operations taken one at a time. */
module Cache {

  datatype Option<+T> = None | Some(value: T)

  const TWO_64: nat := 0x1_0000_0000_0000_0000

  // ----- the map of last writes -----

  datatype Op<V> = Stored(key: string, val: V, expiration: int) | Deleted(key: string)

  datatype Write<V> = Write(val: Option<V>, expiration: int)

  function Without<T, U>(m: map<T, U>, key: T): (r: map<T, U>)
    ensures r.Keys == m.Keys - {key} && forall k <- r :: r[k] == m[k]
  {
    m - {key}
  }

  /** What a plain map holds after the operations. */
  function Writes<V>(history: seq<Op<V>>): map<string, Write<V>> {
    if history == [] then map[]
    else
      var before := Writes(history[..|history| - 1]);
      match history[|history| - 1]
      case Stored(key, val, expiration) => before[key := Write(Some(val), expiration)]
      case Deleted(key) => Without(before, key)
  }

  /** A key's value in it is that of the last operation on the key. */
  lemma {:induction false} WritesAreLast<V>(history: seq<Op<V>>, i: nat)
    requires i < |history| && forall j :: i < j < |history| ==> history[j].key != history[i].key
    ensures history[i].Deleted? ==> history[i].key !in Writes(history)
    ensures history[i].Stored? ==>
      history[i].key in Writes(history) && Writes(history)[history[i].key] == Write(Some(history[i].val), history[i].expiration)
    decreases |history|
  {
    var last := |history| - 1;
    if i < last {
      WritesAreLast(history[..last], i);
    }
  }

  lemma {:induction false} WritesOnlyStored<V>(history: seq<Op<V>>, key: string)
    requires forall j :: 0 <= j < |history| ==> history[j].key != key
    ensures key !in Writes(history)
    decreases |history|
  {
    if history != [] {
      WritesOnlyStored(history[..|history| - 1], key);
    }
  }

  lemma WritesAfter<V>(history: seq<Op<V>>, op: Op<V>)
    ensures Writes(history + [op]) ==
      if op.Stored? then Writes(history)[op.key := Write(Some(op.val), op.expiration)] else Without(Writes(history), op.key)
  {
    assert (history + [op])[..|history|] == history;
  }

  // ----- what the cache may still hold of it -----

  /** The contents are last writes, and every last write that is missing has expired. */
  predicate Mirrors<V(==)>(contents: map<string, Write<V>>, writes: map<string, Write<V>>, clock: int) {
    && (forall k <- contents :: k in writes && contents[k] == writes[k])
    && (forall k <- writes :: k !in contents ==> writes[k].expiration < clock)
  }

  // ----- the length counter -----

  function Up(n: nat): nat {
    (n + 1) % TWO_64
  }

  /** atomic.AddUint64(&length, ^uint64(0)) */
  function Down(n: nat): nat {
    (n + (TWO_64 - 1)) % TWO_64
  }

  predicate Counted(length: nat, n: nat) {
    length == n % TWO_64
  }

  /** The counter follows a number that is positive when it goes down, so it does not wrap below
      zero, and is that number while it is below 2^64. */
  lemma CountedUpDown(length: nat, n: nat)
    requires Counted(length, n)
    ensures Counted(Up(length), n + 1)
    ensures n > 0 ==> Counted(Down(length), n - 1)
    ensures n < TWO_64 ==> length == n
  {
    var q := n / TWO_64;
    SameRemainder(length + 1, n + 1, q);
    if n > 0 {
      SameRemainder(length + (TWO_64 - 1), n - 1, q - 1);
    }
  }

  lemma SameRemainder(x: nat, y: nat, k: int)
    requires y == x + TWO_64 * k
    ensures x % TWO_64 == y % TWO_64
  {
    var q := x / TWO_64;
    assert y == TWO_64 * (q + k) + x % TWO_64;
  }

  lemma SizeWithout<T, U>(m: map<T, U>, key: T)
    ensures |Without(m, key)| == if key in m then |m| - 1 else |m|
  {
    assert Without(m, key).Keys == m.Keys - {key};
  }

  lemma SizeWith<T, U>(m: map<T, U>, key: T, u: U)
    ensures |m[key := u]| == if key in m then |m| else |m| + 1
  {
    assert m[key := u].Keys == m.Keys + {key};
  }

  // ----- the cache as a value -----

  /** What the entries hold, the operations so far, and how many expired entries `Load` removed. */
  datatype Model<V> = Model(contents: map<string, Write<V>>, history: seq<Op<V>>, dropped: nat) {

    function Evicted(key: string): Model<V> {
      this.(contents := Without(contents, key))
    }

    function Dropped(key: string): Model<V> {
      Evicted(key).(dropped := dropped + 1)
    }

    function Deleted(key: string): Model<V> {
      Evicted(key).(history := history + [Op.Deleted(key)])
    }

    function Removed(key: string, evicting: bool): (m: Model<V>)
      ensures m.contents == Without(contents, key)
    {
      if evicting then Evicted(key) else Deleted(key)
    }

    function Stored(key: string, val: V, expiration: int): Model<V> {
      this.(contents := contents[key := Write(Some(val), expiration)], history := history + [Op.Stored(key, val, expiration)])
    }

    /** What can be loaded: the last write, unless it has expired or was deleted. */
    predicate Alive(key: string, clock: int) {
      key in Writes(history) && Writes(history)[key].expiration >= clock
    }
  }

  /** What is stored can be loaded up to and at the instant it expires, and never after. */
  lemma AliveUntilExpiration<V>(m: Model<V>, key: string, val: V, expiration: int, clock: int)
    ensures m.Stored(key, val, expiration).Alive(key, clock) <==> clock <= expiration
  {
    WritesAfter(m.history, Op.Stored(key, val, expiration));
  }

  /** `length` is the number of entries and of entries that `Load` removed. */
  predicate Good<V(==)>(m: Model<V>, length: nat, clock: int) {
    Mirrors(m.contents, Writes(m.history), clock) && Counted(length, |m.contents| + m.dropped)
  }

  lemma GoodLater<V>(m: Model<V>, length: nat, clock: int, later: int)
    requires Good(m, length, clock) && clock <= later
    ensures Good(m, length, later)
  {
  }

  lemma GoodKeys<V>(m: Model<V>, length: nat, clock: int, key: string)
    requires Good(m, length, clock)
    ensures key in m.contents ==> key in Writes(m.history) && m.contents[key] == Writes(m.history)[key]
    ensures m.Alive(key, clock) <==> key in m.contents && m.contents[key].expiration >= clock
  {
  }

  lemma GoodWithout<V>(m: Model<V>, length: nat, clock: int, key: string)
    requires Good(m, length, clock) && key in m.contents && m.contents[key].expiration < clock
    ensures Good(m.Evicted(key), Down(length), clock) && Good(m.Dropped(key), length, clock)
  {
    SizeWithout(m.contents, key);
    CountedUpDown(length, |m.contents| + m.dropped);
  }

  lemma GoodRemoved<V>(m: Model<V>, length: nat, clock: int, key: string, evicting: bool)
    requires Good(m, length, clock) && (evicting ==> key in m.contents && m.contents[key].expiration < clock)
    ensures key in m.contents ==> Good(m.Removed(key, evicting), Down(length), clock)
    ensures key !in m.contents ==> Good(m.Removed(key, evicting), length, clock)
    ensures m.Alive(key, clock) ==> key in m.contents
    ensures key in m.contents ==> key in Writes(m.history)
  {
    SizeWithout(m.contents, key);
    CountedUpDown(length, |m.contents| + m.dropped);
    WritesAfter(m.history, Op.Deleted(key));
  }

  /** While it fits, `length` is at least the number of entries, and that number exactly if no Load
      has removed an expired entry. */
  lemma LengthIsSizeIff<V>(m: Model<V>, length: nat, clock: int)
    requires Good(m, length, clock) && |m.contents| + m.dropped < TWO_64
    ensures length >= |m.contents| && (length == |m.contents| <==> m.dropped == 0)
  {
    CountedUpDown(length, |m.contents| + m.dropped);
  }

  /** An entry that is stored, expires and is then looked for: `length` is 1 and there is no entry. */
  lemma DroppedStaysCounted<V>(key: string, val: V, expiration: int) returns (m: Model<V>)
    ensures m == Model(map[], [], 0).Stored(key, val, expiration).Dropped(key)
    ensures Good(m, 1, expiration + 1) && |m.contents| == 0 && m.dropped == 1
  {
    var empty: Model<V> := Model(map[], [], 0);
    assert Good(empty, 0, expiration + 1);
    GoodStored(empty, 0, expiration + 1, key, val, expiration);
    assert Up(0) == 1;
    var stored := empty.Stored(key, val, expiration);
    GoodWithout(stored, 1, expiration + 1, key);
    m := stored.Dropped(key);
    assert m.contents.Keys == {};
  }

  lemma GoodStored<V>(m: Model<V>, length: nat, clock: int, key: string, val: V, expiration: int)
    requires Good(m, length, clock)
    ensures key in m.contents ==> Good(m.Stored(key, val, expiration), length, clock)
    ensures key !in m.contents ==> Good(m.Stored(key, val, expiration), Up(length), clock)
  {
    SizeWith(m.contents, key, Write(Some(val), expiration));
    CountedUpDown(length, |m.contents| + m.dropped);
    WritesAfter(m.history, Op.Stored(key, val, expiration));
  }

  // ----- a sweep -----

  /** Between `t0` and `t1`, of the keys outside `todo`, those that were expired have been removed
      and those that were not are left. */
  predicate Swept<V(==)>(before: Model<V>, after: Model<V>, todo: set<string>, t0: int, t1: int) {
    && t0 <= t1 && after.history == before.history && after.dropped == before.dropped
    && (forall k <- after.contents :: k in before.contents && after.contents[k] == before.contents[k])
    && (forall k <- after.contents :: k !in todo ==> after.contents[k].expiration >= t0)
    && (forall k <- before.contents :: k !in after.contents ==> before.contents[k].expiration < t1)
  }

  lemma SweptNothing<V>(m: Model<V>, t: int)
    ensures Swept(m, m, m.contents.Keys, t, t)
  {
  }

  lemma SweptMore<V>(m0: Model<V>, m1: Model<V>, m2: Model<V>, todo: set<string>, key: string, t0: int, t1: int, t2: int)
    requires Swept(m0, m1, todo, t0, t1) && key in m1.contents && t1 <= t2
    requires m2 == m1 || m2 == m1.Evicted(key)
    requires if key in m2.contents then m2.contents[key].expiration >= t1 else m1.contents[key].expiration < t2
    ensures Swept(m0, m2, todo - {key}, t0, t2) && m2.contents.Keys >= m1.contents.Keys - {key}
  {
  }

  /** First a sweep of all keys, then the store. */
  ghost predicate SweptAndStored<V(!new)>(before: Model<V>, after: Model<V>, key: string, val: V, expiration: int, t0: int, t1: int) {
    exists m :: Swept(before, m, {}, t0, t1) && after == m.Stored(key, val, expiration)
  }

  predicate SubMap<T, U(==)>(m: map<T, U>, n: map<T, U>) {
    forall k <- m :: k in n && m[k] == n[k]
  }

  lemma SubMapSelf<T, U>(m: map<T, U>)
    ensures SubMap(m, m)
  {
  }

  lemma SubMapTrans<T, U>(a: map<T, U>, b: map<T, U>, c: map<T, U>)
    requires SubMap(a, b) && SubMap(b, c)
    ensures SubMap(a, c)
  {
  }

  // ----- the cache -----

  class CacheEntry<V> {
    var V: Option<V>
    var expiration: int
    ghost var owner: string    // the key it was published under

    constructor ()
      ensures V == None
    {
      V, expiration := None, 0;
    }
  }

  class Cache<V(==,!new)> {
    var capacity: nat
    var length: nat
    var entries: map<string, CacheEntry<V>>
    var pool: set<CacheEntry<V>>
    var clock: int                             // the last time.Now(), which never goes back
    ghost var model: Model<V>
    ghost var published: set<CacheEntry<V>>    // the entries that a Load may have handed out

    ghost predicate Shown(key: string)
      requires key in entries && key in model.contents
      reads this`entries, this`model, this`published, published
    {
      var e := entries[key];
      e in published && e.owner == key && e.V == model.contents[key].val && e.expiration == model.contents[key].expiration
    }

    /** Every entry belongs to its key alone, and none that was ever in the map is in the pool. */
    ghost predicate Holds()
      reads this`entries, this`model, this`pool, this`published, published
    {
      entries.Keys == model.contents.Keys && (forall k <- entries :: Shown(k)) && pool !! published
    }

    ghost predicate Valid()
      reads this, published
    {
      Holds() && Good(model, length, clock) && capacity < TWO_64
    }

    constructor (capacity: int)
      ensures Valid() && model == Model(map[], [], 0) && length == 0 && pool == {} && published == {}
      ensures this.capacity == capacity % TWO_64
    {
      this.capacity, length := capacity % TWO_64, 0;
      entries, pool, clock := map[], {}, 0;
      model, published := Model(map[], [], 0), {};
    }

    method Expired(e: CacheEntry<V>) returns (r: bool)
      modifies this`clock
      ensures clock >= old(clock) && r == (e.expiration < clock)
    {
      var now :| now >= clock;
      clock := now;
      r := e.expiration < now;
    }

    lemma HoldsKeys()
      requires Holds()
      ensures entries.Keys == model.contents.Keys
      ensures forall k <- entries :: entries[k] in published && entries[k].owner == k
    {
      assert forall k <- entries :: Shown(k);
    }

    /** sync.Map.LoadAndDelete; `m` is what the model becomes. */
    method LoadAndDelete(key: string, ghost m: Model<V>) returns (loaded: bool)
      requires Holds() && m.contents == Without(model.contents, key)
      modifies this`entries, this`model
      ensures Holds() && model == m && entries == Without(old(entries), key) && loaded == (key in old(entries))
    {
      hide Without;
      loaded := key in entries;
      entries, model := Without(entries, key), m;
      forall k <- entries
        ensures Shown(k)
      {
        assert old(Shown(k));
      }
    }

    method Load(key: string) returns (entry: CacheEntry?<V>)
      requires Valid()
      modifies this`clock, this`entries, this`model
      ensures Valid() && clock >= old(clock) && model.history == old(model).history
      ensures entry != null <==> model.Alive(key, clock)
      ensures entry != null ==>
        key in entries && entry == entries[key] && Write(entry.V, entry.expiration) == Writes(model.history)[key]
      ensures model ==
        if key in old(model).contents && old(model).contents[key].expiration < clock then old(model).Dropped(key) else old(model)
    {
      hide Good, Writes, Without;
      if key in entries {
        entry := entries[key];
        assert Shown(key);
        var expired := Expired(entry);
        GoodLater(model, length, old(clock), clock);
        GoodKeys(model, length, clock, key);
        if expired {
          GoodWithout(model, length, clock, key);
          var _ := LoadAndDelete(key, model.Dropped(key));
          GoodKeys(model, length, clock, key);
          return null;
        }
        return entry;
      }
      GoodKeys(model, length, clock, key);
      return null;
    }

    /** `evicting` is set when it is not the user who deletes. */
    method Delete(key: string, ghost evicting: bool := false) returns (loaded: bool)
      requires Valid()
      requires evicting ==> key in model.contents && model.contents[key].expiration < clock
      modifies this`entries, this`length, this`model
      ensures Valid() && model == old(model).Removed(key, evicting) && entries == Without(old(entries), key)
      ensures loaded == (key in old(model).contents) && (old(model).Alive(key, clock) ==> loaded)
      ensures loaded ==> key in Writes(old(model).history)
    {
      hide Good, Writes, Without, Down, Model.Alive, Model.Removed, Holds;
      HoldsKeys();
      GoodRemoved(model, length, clock, key, evicting);
      ghost var after := model.Removed(key, evicting);
      loaded := LoadAndDelete(key, after);
      if loaded {
        length := Down(length);
      }
    }

    /** Removes what has expired and nothing that has not. */
    method Evict()
      requires Valid()
      modifies this`clock, this`entries, this`length, this`model
      ensures Valid() && Swept(old(model), model, {}, old(clock), clock) && SubMap(entries, old(entries))
    {
      hide Good, Without, Swept, SubMap, Shown;
      SweptNothing(model, clock);
      HoldsKeys();
      SubMapSelf(entries);
      var todo := entries.Keys;
      while todo != {}
        invariant Valid() && todo <= entries.Keys
        invariant Swept(old(model), model, todo, old(clock), clock) && SubMap(entries, old(entries))
      {
        var key :| key in todo;
        ghost var before, now, rest := model, clock, entries;
        HoldsKeys();
        EvictOne(key);
        HoldsKeys();
        SweptMore(old(model), before, model, todo, key, old(clock), now, clock);
        SubMapTrans(entries, rest, old(entries));
        todo := todo - {key};
      }
    }

    /** The callback of the range over the entries. */
    method EvictOne(key: string)
      requires Valid() && key in entries
      modifies this`clock, this`entries, this`length, this`model
      ensures Valid() && clock >= old(clock)
      ensures model == old(model) || model == old(model).Evicted(key)
      ensures key in old(model).contents
      ensures if key in model.contents then model.contents[key].expiration >= old(clock) else old(model).contents[key].expiration < clock
      ensures SubMap(entries, old(entries))
    {
      hide Good, Without;
      assert Shown(key);
      ghost var before := clock;
      var expired := Expired(entries[key]);
      GoodLater(model, length, before, clock);
      if expired {
        var _ := Delete(key, true);
      }
    }

    /** sync.Pool.Get: one of the pooled entries, or a new one. */
    method Get() returns (e: CacheEntry<V>)
      requires Holds()
      modifies this`pool
      ensures Holds() && e !in published && pool <= old(pool) && e !in pool && (e in old(pool) || fresh(e))
    {
      hide Shown;
      var fromPool: bool := *;
      if pool != {} && fromPool {
        e :| e in pool;
        pool := pool - {e};
      } else {
        e := new CacheEntry();
      }
    }

    /** sync.Pool.Put */
    method Put(e: CacheEntry<V>)
      requires Holds() && e !in published
      modifies this`pool
      ensures Holds() && pool == old(pool) + {e}
    {
      hide Shown;
      pool := pool + {e};
    }

    /** Of the entries that were handed out, only the one that is live under the key is written. */
    method Store(key: string, val: V, expiration: int)
      requires Valid()
      modifies this, pool, published
      ensures Valid() && clock >= old(clock) && capacity == old(capacity)
      ensures if old(length) <= capacity then clock == old(clock) && model == old(model).Stored(key, val, expiration)
              else SweptAndStored(old(model), model, key, val, expiration, old(clock), clock)
      ensures model.history == old(model).history + [Op.Stored(key, val, expiration)] && model.dropped == old(model).dropped
      ensures key in entries && forall e <- old(published) :: Kept(e, entries[key], key)
    {
      hide Good, Without, Shown, Holds;
      if length > capacity {
        Evict();
      }
      Insert(key, val, expiration);
    }

    /** An entry that was handed out is the same, unless it is the live one of the key. */
    twostate predicate Kept(e: CacheEntry<V>, new live: CacheEntry<V>, key: string)
      reads e
    {
      e.owner == old(e.owner) && (e.owner != key || e != live ==> e.V == old(e.V) && e.expiration == old(e.expiration))
    }

    method Insert(key: string, val: V, expiration: int)
      requires Valid()
      modifies this`entries, this`length, this`pool, this`model, this`published, pool, published
      ensures Valid() && model == old(model).Stored(key, val, expiration)
      ensures key in entries && forall e <- old(published) :: Kept(e, entries[key], key)
    {
      hide Good, Without, Shown, Up;
      GoodStored(model, length, clock, key, val, expiration);
      HoldsKeys();
      var poolEntry := Get();
      if key in entries {
        Overwrite(key, val, expiration, entries[key]);
        Put(poolEntry);
      } else {
        Publish(key, val, expiration, poolEntry);
        length := Up(length);
      }
    }

    method Overwrite(key: string, val: V, expiration: int, entry: CacheEntry<V>)
      requires Holds() && key in entries && entry == entries[key]
      modifies entry`V, entry`expiration, this`model
      ensures Holds() && model == old(model).Stored(key, val, expiration)
    {
      assert Shown(key);
      entry.V := Some(val);
      entry.expiration := expiration;
      model := model.Stored(key, val, expiration);
      forall k <- entries
        ensures Shown(k)
      {
        assert old(Shown(k));
      }
    }

    method Publish(key: string, val: V, expiration: int, entry: CacheEntry<V>)
      requires Holds() && key !in entries && entry !in pool && entry !in published
      modifies entry, this`entries, this`published, this`model
      ensures Holds() && model == old(model).Stored(key, val, expiration)
      ensures entries == old(entries)[key := entry] && published == old(published) + {entry}
    {
      entries := entries[key := entry];
      entry.V := Some(val);
      entry.expiration := expiration;
      entry.owner := key;
      published := published + {entry};
      model := model.Stored(key, val, expiration);
      forall k <- entries
        ensures Shown(k)
      {
        assert k != key ==> old(Shown(k));
      }
    }
  }
}
