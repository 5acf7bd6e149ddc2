/**
 * The statistics cache `pweCache` (main.js:162-259): a JavaScript `Map` from a
 * cache key to a node and the time it was saved, kept in insertion order,
 * persisted as a list of records every 100 saves, and pruned ten percent at a
 * time, oldest first, while the persisted form exceeds 2 MiB.
 */
module StatsCache {
  import opened Wrappers
  import opened Stats
  import opened Sorting
  import opened Filters

  /** Seven days in milliseconds: entries older than this are misses. */
  const CacheExpiry: int := 7 * 24 * 60 * 60 * 1000

  /** The persisted size above which the cache is pruned. */
  const MaxBytes: nat := 2 * 1024 * 1024

  /** The number of saves between two persists. */
  const SaveEvery: nat := 100

  datatype Entry = Entry(node: Node, timestamp: int)

  /** One element of the persisted array: `{key, value: {node, timestamp}}`. */
  datatype Record<K> = Record(key: K, entry: Entry)

  /** The map's contents: its keys in insertion order and the entry of each. */
  datatype CacheState<K> = CacheState(order: seq<K>, entries: map<K, Entry>)

  /** Each key is listed once in the insertion order, and exactly the listed keys have entries. */
  ghost predicate WellFormed<K(!new)>(st: CacheState<K>)
  {
    Distinct(st.order) && forall k :: k in st.entries <==> k in st.order
  }

  /** `getFromGraph`: the stored node while it is younger than seven days, otherwise a miss. */
  function Lookup<K(==, !new)>(entries: map<K, Entry>, key: K, now: int): (r: Option<Node>)
    ensures r.Some? <==> key in entries && now - entries[key].timestamp < CacheExpiry
    ensures r.Some? ==> r.value == entries[key].node
  {
    if key in entries && now - entries[key].timestamp < CacheExpiry then Some(entries[key].node)
    else None
  }

  /** A node saved at time t is found until just before t + seven days, and missed from then on. */
  lemma ExpiryIsStrict<K(!new)>(entries: map<K, Entry>, key: K, node: Node, t: int, now: int)
    requires key in entries && entries[key] == Entry(node, t)
    ensures Lookup(entries, key, now) == if now < t + CacheExpiry then Some(node) else None
  {
  }

  /** `Map.prototype.set`: a new key goes to the end of the order, an existing key keeps its place. */
  function Set<K(==, !new)>(st: CacheState<K>, key: K, e: Entry): (r: CacheState<K>)
    ensures r.entries == st.entries[key := e]
    ensures key in st.entries ==> r.order == st.order
    ensures key !in st.entries ==> r.order == st.order + [key]
  {
    if key in st.entries then CacheState(st.order, st.entries[key := e])
    else CacheState(st.order + [key], st.entries[key := e])
  }

  lemma SetKeepsWellFormed<K(!new)>(st: CacheState<K>, key: K, e: Entry)
    requires WellFormed(st)
    ensures WellFormed(Set(st, key, e))
  {
    if key !in st.entries {
      var order := st.order + [key];
      forall i, j | 0 <= i < j < |order| ensures order[i] != order[j] {
        if j < |st.order| {
          assert order[i] == st.order[i] && order[j] == st.order[j];
        } else {
          assert order[i] == st.order[i] && order[j] == key;
        }
      }
    }
  }

  /** `Map.prototype.delete`: the key leaves both the order and the entries. */
  function Delete<K(==, !new)>(st: CacheState<K>, key: K): (r: CacheState<K>)
    ensures forall k :: k in r.entries <==> k in st.entries && k != key
    ensures forall k :: k in r.entries ==> r.entries[k] == st.entries[k]
    ensures forall k :: k in r.order <==> k in st.order && k != key
  {
    CacheState(Without(st.order, key), st.entries - {key})
  }

  lemma DeleteKeepsWellFormed<K(!new)>(st: CacheState<K>, key: K)
    requires WellFormed(st)
    ensures WellFormed(Delete(st, key))
  {
    WithoutNoRepeats(st.order, key);
  }

  /** `Map.prototype.delete` keeps the other keys in their insertion order. */
  lemma DeleteKeepsOrder<K(!new)>(st: CacheState<K>, pre: seq<K>, key: K, post: seq<K>)
    requires st.order == pre + [key] + post && key !in pre + post
    ensures Delete(st, key).order == pre + post
  {
    WithoutOnce(pre, post, key);
  }

  lemma DeleteKeysStep<K(!new)>(st: CacheState<K>, ks: seq<K>, i: nat, before: CacheState<K>, after: CacheState<K>)
    requires i < |ks| && before == DeleteKeys(st, ks[..i]) && after == Delete(before, ks[i])
    ensures after == DeleteKeys(st, ks[..i + 1])
  {
    assert ks[..i + 1][..i] == ks[..i];
  }

  /** The keys of `ks` deleted one after the other. */
  function DeleteKeys<K(==, !new)>(st: CacheState<K>, ks: seq<K>): (r: CacheState<K>)
    ensures forall k :: k in r.entries <==> k in st.entries && k !in ks
    ensures forall k :: k in r.entries ==> r.entries[k] == st.entries[k]
  {
    if ks == [] then st
    else Delete(DeleteKeys(st, ks[..|ks| - 1]), ks[|ks| - 1])
  }

  lemma {:induction false} DeleteKeysKeepsWellFormed<K(!new)>(st: CacheState<K>, ks: seq<K>)
    requires WellFormed(st)
    ensures WellFormed(DeleteKeys(st, ks))
  {
    if ks != [] {
      DeleteKeysKeepsWellFormed(st, ks[..|ks| - 1]);
      DeleteKeepsWellFormed(DeleteKeys(st, ks[..|ks| - 1]), ks[|ks| - 1]);
    }
  }

  /** `Array.from(pweCache.entries())` mapped to records, in insertion order. */
  function Records<K(==, !new)>(st: CacheState<K>): (rs: seq<Record<K>>)
    requires forall k :: k in st.order ==> k in st.entries
    ensures |rs| == |st.order|
    ensures forall i :: 0 <= i < |rs| ==> rs[i].key == st.order[i] && rs[i].entry == st.entries[st.order[i]]
    decreases |st.order|
  {
    if st.order == [] then []
    else
      var n := |st.order|;
      Records(CacheState(st.order[..n - 1], st.entries)) + [Record(st.order[n - 1], st.entries[st.order[n - 1]])]
  }

  /** The `forEach` of `loadCache`: every record set into the map, one after the other. */
  function Loaded<K(==, !new)>(st: CacheState<K>, rs: seq<Record<K>>): (r: CacheState<K>)
  {
    if rs == [] then st
    else Set(Loaded(st, rs[..|rs| - 1]), rs[|rs| - 1].key, rs[|rs| - 1].entry)
  }

  lemma {:induction false} LoadedKeepsWellFormed<K(!new)>(st: CacheState<K>, rs: seq<Record<K>>)
    requires WellFormed(st)
    ensures WellFormed(Loaded(st, rs))
  {
    if rs != [] {
      LoadedKeepsWellFormed(st, rs[..|rs| - 1]);
      SetKeepsWellFormed(Loaded(st, rs[..|rs| - 1]), rs[|rs| - 1].key, rs[|rs| - 1].entry);
    }
  }

  /** Restricting the entries to a set of keys. */
  function Restrict<K(==, !new)>(entries: map<K, Entry>, keys: seq<K>): map<K, Entry>
  {
    map k | k in entries && k in keys :: entries[k]
  }

  /** Loading what was saved into an empty map gives back the map, order included. */
  lemma LoadRecordsRoundTrip<K(!new)>(st: CacheState<K>)
    requires WellFormed(st)
    ensures Loaded(CacheState([], map[]), Records(st)) == st
  {
    LoadPrefix(st.order, st.entries);
    assert Restrict(st.entries, st.order) == st.entries;
  }

  lemma {:induction false} LoadPrefix<K(!new)>(order: seq<K>, entries: map<K, Entry>)
    requires Distinct(order)
    requires forall k :: k in order ==> k in entries
    ensures Loaded(CacheState([], map[]), Records(CacheState(order, entries))) == CacheState(order, Restrict(entries, order))
  {
    if order != [] {
      DistinctInit(order);
      LoadPrefix(order[..|order| - 1], entries);
      LoadPrefixStep(order, entries);
    }
  }

  lemma DistinctInit<K>(order: seq<K>)
    requires order != [] && Distinct(order)
    ensures Distinct(order[..|order| - 1]) && order[|order| - 1] !in order[..|order| - 1]
  {
    var init, last := order[..|order| - 1], order[|order| - 1];
    forall i, j | 0 <= i < j < |init| ensures init[i] != init[j] {
      assert init[i] == order[i] && init[j] == order[j];
    }
    forall i | 0 <= i < |init| ensures init[i] != last {
      assert init[i] == order[i];
    }
  }

  /** Loading one more record extends the loaded prefix by that record. */
  lemma LoadPrefixStep<K(!new)>(order: seq<K>, entries: map<K, Entry>)
    requires order != [] && forall k :: k in order ==> k in entries
    requires order[|order| - 1] !in order[..|order| - 1]
    requires var init := order[..|order| - 1];
      Loaded(CacheState([], map[]), Records(CacheState(init, entries))) == CacheState(init, Restrict(entries, init))
    ensures Loaded(CacheState([], map[]), Records(CacheState(order, entries))) == CacheState(order, Restrict(entries, order))
  {
    var init, last := order[..|order| - 1], order[|order| - 1];
    var previous := Records(CacheState(init, entries));
    var rec := Record(last, entries[last]);
    calc {
      Loaded(CacheState([], map[]), Records(CacheState(order, entries)));
      == { RecordsSnoc(order, entries); }
      Loaded(CacheState([], map[]), previous + [rec]);
      == { LoadedSnoc(CacheState([], map[]), previous, rec); }
      Set(CacheState(init, Restrict(entries, init)), last, entries[last]);
      == { RestrictExtend(entries, init, last); }
      CacheState(init + [last], Restrict(entries, init + [last]));
      == { assert init + [last] == order; }
      CacheState(order, Restrict(entries, order));
    }
  }

  lemma RecordsSnoc<K(!new)>(order: seq<K>, entries: map<K, Entry>)
    requires order != [] && forall k :: k in order ==> k in entries
    ensures Records(CacheState(order, entries)) ==
      Records(CacheState(order[..|order| - 1], entries)) + [Record(order[|order| - 1], entries[order[|order| - 1]])]
  {
  }

  lemma LoadedSnoc<K(!new)>(st: CacheState<K>, rs: seq<Record<K>>, r: Record<K>)
    ensures Loaded(st, rs + [r]) == Set(Loaded(st, rs), r.key, r.entry)
  {
    assert (rs + [r])[..|rs|] == rs;
  }

  lemma RestrictExtend<K(!new)>(entries: map<K, Entry>, init: seq<K>, last: K)
    requires last in entries && last !in init
    ensures last !in Restrict(entries, init)
    ensures Restrict(entries, init)[last := entries[last]] == Restrict(entries, init + [last])
  {
  }

  /** `Math.ceil(n * 0.1)` on exact arithmetic: the number of entries one prune pass removes. */
  function PruneCount(n: nat): (c: nat)
    ensures n <= 10 * c < n + 10
    ensures c <= n
  {
    (n + 9) / 10
  }

  /** The timestamp of a key, as the prune comparator `a[1].timestamp - b[1].timestamp` reads it. */
  function TimeOf<K(==, !new)>(entries: map<K, Entry>): K -> real
  {
    k => if k in entries then entries[k].timestamp as real else 0.0
  }

  /** The keys one prune pass deletes: the first `ceil(n/10)` after a stable sort by timestamp. */
  function PruneVictims<K(==, !new)>(st: CacheState<K>): (victims: seq<K>)
  {
    SortBy(st.order, TimeOf(st.entries))[..PruneCount(|st.order|)]
  }

  /** The victims are distinct keys of the cache, as many as the ceiling says, and none is newer than a key that stays. */
  lemma PruneVictimsOldest<K(!new)>(st: CacheState<K>)
    requires WellFormed(st)
    ensures var v := PruneVictims(st);
      && |v| == PruneCount(|st.order|)
      && Distinct(v)
      && (forall k :: k in v ==> k in st.order)
      && forall i, k :: 0 <= i < |v| && k in st.order && k !in v ==>
           st.entries[v[i]].timestamp <= st.entries[k].timestamp
  {
    var key := TimeOf(st.entries);
    var sorted := SortBy(st.order, key);
    var c := PruneCount(|st.order|);
    var v := sorted[..c];
    DistinctPermutation(st.order, sorted);
    forall k | k in v ensures k in st.order {
      assert k in multiset(sorted);
    }
    forall i, k | 0 <= i < |v| && k in st.order && k !in v
      ensures st.entries[v[i]].timestamp <= st.entries[k].timestamp
    {
      assert k in multiset(sorted);
      var j :| 0 <= j < |sorted| && sorted[j] == k;
      assert v[i] == sorted[i];
      assert v[i] in multiset(sorted);
      assert key(v[i]) <= key(sorted[j]);
    }
  }

  /** One pass of `pruneCache`'s delete loop. */
  function PruneStep<K(==, !new)>(st: CacheState<K>): (r: CacheState<K>)
    requires WellFormed(st)
    ensures WellFormed(r)
    ensures |r.order| == |st.order| - PruneCount(|st.order|)
    ensures forall k :: k in r.entries ==> k in st.entries && r.entries[k] == st.entries[k]
  {
    var victims := PruneVictims(st);
    PruneVictimsOldest(st);
    var r := DeleteKeys(st, victims);
    DeleteKeysKeepsWellFormed(st, victims);
    RemovedCount(st, r, victims);
    r
  }

  lemma RemovedCount<K(!new)>(st: CacheState<K>, r: CacheState<K>, victims: seq<K>)
    requires WellFormed(st) && WellFormed(r) && Distinct(victims)
    requires forall k :: k in victims ==> k in st.order
    requires forall k :: k in r.entries <==> k in st.entries && k !in victims
    ensures |r.order| == |st.order| - |victims|
  {
    var all := set k | k in st.order;
    var gone := set k | k in victims;
    var kept := set k | k in r.order;
    DistinctCardinality(st.order);
    DistinctCardinality(victims);
    DistinctCardinality(r.order);
    assert kept == all - gone;
    SubsetDifference(all, gone);
  }

  lemma SubsetDifference<T>(a: set<T>, b: set<T>)
    requires b <= a
    ensures |a - b| == |a| - |b|
  {
    assert a == (a - b) + b;
  }

  /** The keys one prune pass deletes, and the pass keeps every other entry unchanged. */
  lemma PruneStepRemovesOldest<K(!new)>(st: CacheState<K>)
    requires WellFormed(st)
    ensures var r := PruneStep(st);
      && (forall k :: k in st.entries && k !in r.entries <==> k in PruneVictims(st))
      && (forall k :: k in r.entries ==> r.entries[k] == st.entries[k])
      && RemovesOnlyOlder(st.entries, r.entries)
  {
    PruneVictimsOldest(st);
    var victims := PruneVictims(st);
    forall v, k | v in st.entries && v !in PruneStep(st).entries && k in PruneStep(st).entries
      ensures st.entries[v].timestamp <= st.entries[k].timestamp
    {
      var i :| 0 <= i < |victims| && victims[i] == v;
    }
  }

  /** Prune passes repeat until the persisted form fits; each pass removes at least one entry. */
  function Pruned<K(==, !new)>(st: CacheState<K>, sizeOf: seq<Record<K>> -> nat): (r: CacheState<K>)
    requires WellFormed(st) && sizeOf([]) <= MaxBytes
    ensures WellFormed(r)
    ensures sizeOf(Records(r)) <= MaxBytes
    ensures forall k :: k in r.entries ==> k in st.entries && r.entries[k] == st.entries[k]
    decreases |st.order|
  {
    if sizeOf(Records(st)) <= MaxBytes then st
    else Pruned(PruneStep(st), sizeOf)
  }

  /** Over all passes, no entry the pruning removes is newer than one it keeps. */
  lemma {:induction false} PrunedRemovesOldest<K(!new)>(st: CacheState<K>, sizeOf: seq<Record<K>> -> nat)
    requires WellFormed(st) && sizeOf([]) <= MaxBytes
    ensures RemovesOnlyOlder(st.entries, Pruned(st, sizeOf).entries)
    decreases |st.order|
  {
    if sizeOf(Records(st)) > MaxBytes {
      var next := PruneStep(st);
      PruneStepRemovesOldest(st);
      PrunedRemovesOldest(next, sizeOf);
      OldestTransitive(st.entries, next.entries, Pruned(next, sizeOf).entries);
    }
  }

  /** Two removals that each take only entries no newer than the ones kept, composed. */
  lemma OldestTransitive<K(!new)>(a: map<K, Entry>, b: map<K, Entry>, c: map<K, Entry>)
    requires forall k :: k in b ==> k in a && b[k] == a[k]
    requires forall k :: k in c ==> k in b && c[k] == b[k]
    requires RemovesOnlyOlder(a, b) && RemovesOnlyOlder(b, c)
    ensures RemovesOnlyOlder(a, c)
  {
  }

  /** No entry of `a` missing from `b` is newer than an entry of `a` that `b` keeps. */
  ghost predicate RemovesOnlyOlder<K(!new)>(a: map<K, Entry>, b: map<K, Entry>)
  {
    forall v, k :: v in a && v !in b && k in a && k in b ==> a[v].timestamp <= a[k].timestamp
  }

  /** A persisted form that already fits is not pruned. */
  lemma PrunedWhenFits<K(!new)>(st: CacheState<K>, sizeOf: seq<Record<K>> -> nat)
    requires WellFormed(st) && sizeOf([]) <= MaxBytes && sizeOf(Records(st)) <= MaxBytes
    ensures Pruned(st, sizeOf) == st
  {
  }

  /** `loadCache` as written: it reads the length of the stored string before testing that there is one. */
  function LoadAsWritten<K(==, !new)>(st: CacheState<K>, stored: Option<seq<Record<K>>>, sizeOf: seq<Record<K>> -> nat): (r: Result<CacheState<K>, string>)
    requires WellFormed(st) && sizeOf([]) <= MaxBytes
    ensures stored.None? <==> r.Err?
  {
    match stored
    case None => Err("TypeError: Cannot read properties of null (reading 'length')")
    case Some(rs) =>
      var loaded := Loaded(st, rs);
      LoadedKeepsWellFormed(st, rs);
      Ok(if sizeOf(rs) > MaxBytes then Pruned(PruneStep(loaded), sizeOf) else loaded)
  }

  /** On a first visit nothing is stored, and loading throws before the page finishes initialising. */
  lemma FirstVisitThrows<K(!new)>(sizeOf: seq<Record<K>> -> nat)
    requires sizeOf([]) <= MaxBytes
    ensures LoadAsWritten(CacheState([], map[]), None, sizeOf).Err?
  {
  }

  /** The cache's entries in insertion order, its save counter and its persisted copy. */
  datatype CacheView<K> = CacheView(state: CacheState<K>, counter: nat, stored: Option<seq<Record<K>>>)

  /**
   * The cache after `saveToGraph`: a node without children or marked as a
   * failed lookup changes nothing; otherwise the node is stored with the
   * current time, and every hundredth save persists (and prunes) the cache.
   */
  function AfterPut<K(==, !new)>(v: CacheView<K>, key: K, node: Node, now: int, sizeOf: seq<Record<K>> -> nat): (r: CacheView<K>)
    requires WellFormed(v.state) && sizeOf([]) <= MaxBytes
    ensures WellFormed(r.state)
    ensures v.counter < SaveEvery ==> r.counter < SaveEvery
    ensures node.children == [] || node.children[0].move == UnknownMove ==> r == v
    ensures var put := v.state.entries[key := Entry(node, now)];
      r != v ==> forall k :: k in r.state.entries ==> k in put && r.state.entries[k] == put[k]
  {
    if node.children == [] || node.children[0].move == UnknownMove then v
    else if v.counter + 1 < SaveEvery then CacheView(Set(v.state, key, Entry(node, now)), v.counter + 1, v.stored)
    else
      SetKeepsWellFormed(v.state, key, Entry(node, now));
      var st := Pruned(Set(v.state, key, Entry(node, now)), sizeOf);
      CacheView(st, 0, Some(Records(st)))
  }

  datatype SaveOutcome =
    | FirstChildMissing   // `node[0].move` of a node without children throws a TypeError
    | Refused             // the first child is the "unkn" marker of a failed lookup
    | Saved

  /** `pweCache` with its save counter and its persisted copy in `localStorage`. */
  class StatsCache<K(==, !new)> {
    var order: seq<K>
    var entries: map<K, Entry>
    var saveCounter: nat
    /** `localStorage["pweCache"]`, parsed; None while nothing was ever saved. */
    var stored: Option<seq<Record<K>>>
    /** The length of `JSON.stringify` of a record list. */
    const sizeOf: seq<Record<K>> -> nat

    function State(): CacheState<K>
      reads this
    {
      CacheState(order, entries)
    }

    function View(): CacheView<K>
      reads this
    {
      CacheView(State(), saveCounter, stored)
    }

    ghost predicate Valid()
      reads this
    {
      WellFormed(State()) && saveCounter < SaveEvery && sizeOf([]) <= MaxBytes
    }

    constructor(sizeOf: seq<Record<K>> -> nat, stored: Option<seq<Record<K>>>)
      requires sizeOf([]) <= MaxBytes
      ensures Valid()
      ensures State() == CacheState([], map[]) && saveCounter == 0
      ensures this.stored == stored && this.sizeOf == sizeOf
    {
      this.order := [];
      this.entries := map[];
      this.saveCounter := 0;
      this.stored := stored;
      this.sizeOf := sizeOf;
    }

    /** `pweCache.delete(key)` */
    method DeleteKey(key: K)
      requires Valid()
      modifies this
      ensures Valid()
      ensures State() == Delete(old(State()), key)
      ensures saveCounter == old(saveCounter) && stored == old(stored)
    {
      var r := Delete(State(), key);
      DeleteKeepsWellFormed(State(), key);
      order, entries := r.order, r.entries;
    }

    /** The delete loop of `pruneCache`: the oldest tenth of the entries goes. */
    method PruneOnce()
      requires Valid()
      modifies this
      ensures Valid()
      ensures State() == PruneStep(old(State()))
      ensures saveCounter == old(saveCounter) && stored == old(stored)
    {
      var victims := PruneVictims(State());
      ghost var start := State();
      var i := 0;
      while i < |victims|
        invariant 0 <= i <= |victims|
        invariant Valid()
        invariant State() == DeleteKeys(start, victims[..i])
        invariant saveCounter == old(saveCounter) && stored == old(stored)
      {
        ghost var before := State();
        DeleteKey(victims[i]);
        DeleteKeysStep(start, victims, i, before, State());
        i := i + 1;
      }
      assert victims[..i] == victims;
    }

    /**
     * `saveCache`: persist the records; while they are larger than 2 MiB,
     * prune a tenth and persist again (the mutual recursion of `saveCache`
     * and `pruneCache`, written as a loop).
     */
    method SaveCache()
      requires Valid()
      modifies this
      ensures Valid()
      ensures State() == Pruned(old(State()), sizeOf)
      ensures stored == Some(Records(State()))
      ensures saveCounter == old(saveCounter)
    {
      stored := Some(Records(State()));
      while sizeOf(Records(State())) > MaxBytes
        invariant Valid()
        invariant Pruned(State(), sizeOf) == Pruned(old(State()), sizeOf)
        invariant stored == Some(Records(State()))
        invariant saveCounter == old(saveCounter)
        decreases |order|
      {
        PruneOnce();
        stored := Some(Records(State()));
      }
    }

    /** `pruneCache`: one delete pass, then `saveCache`. */
    method PruneCache()
      requires Valid()
      modifies this
      ensures Valid()
      ensures State() == Pruned(PruneStep(old(State())), sizeOf)
      ensures stored == Some(Records(State()))
      ensures saveCounter == old(saveCounter)
    {
      PruneOnce();
      SaveCache();
    }

    /** `saveCacheIfNeeded`: every hundredth save persists the cache. */
    method SaveIfNeeded()
      requires WellFormed(State()) && saveCounter < SaveEvery && sizeOf([]) <= MaxBytes
      modifies this
      ensures Valid()
      ensures old(saveCounter) + 1 < SaveEvery ==>
        saveCounter == old(saveCounter) + 1 && State() == old(State()) && stored == old(stored)
      ensures old(saveCounter) + 1 == SaveEvery ==>
        saveCounter == 0 && State() == Pruned(old(State()), sizeOf) && stored == Some(Records(State()))
    {
      if saveCounter + 1 >= SaveEvery {
        saveCounter := 0;
        SaveCache();
      } else {
        saveCounter := saveCounter + 1;
      }
    }

    /** `saveToGraph`: refuse a failed lookup, otherwise store with the current time and count the save. */
    method Put(key: K, node: Node, now: int) returns (outcome: SaveOutcome)
      requires Valid()
      modifies this
      ensures Valid()
      ensures outcome == FirstChildMissing <==> node.children == []
      ensures outcome == Refused <==> node.children != [] && node.children[0].move == UnknownMove
      ensures outcome != Saved ==> unchanged(this)
      ensures outcome == Saved && old(saveCounter) + 1 < SaveEvery ==>
        State() == Set(old(State()), key, Entry(node, now)) &&
        saveCounter == old(saveCounter) + 1 && stored == old(stored)
      ensures outcome == Saved && old(saveCounter) + 1 == SaveEvery ==>
        State() == Pruned(Set(old(State()), key, Entry(node, now)), sizeOf) &&
        saveCounter == 0 && stored == Some(Records(State()))
      ensures View() == AfterPut(old(View()), key, node, now, sizeOf)
    {
      if node.children == [] {
        return FirstChildMissing;
      }
      if node.children[0].move == UnknownMove {
        return Refused;
      }
      var r := Set(State(), key, Entry(node, now));
      SetKeepsWellFormed(State(), key, Entry(node, now));
      order, entries := r.order, r.entries;
      SaveIfNeeded();
      return Saved;
    }

    /**
     * `loadCache` with the missing-blob case handled: nothing stored loads
     * nothing; otherwise every record is set, and a blob over 2 MiB is pruned.
     */
    method Load()
      requires Valid()
      modifies this
      ensures Valid()
      ensures saveCounter == old(saveCounter)
      ensures old(stored).None? ==> State() == old(State()) && stored == old(stored)
      ensures old(stored).Some? ==> State() == LoadAsWritten(old(State()), old(stored), sizeOf).value
      ensures old(stored).Some? && sizeOf(old(stored).value) <= MaxBytes ==> stored == old(stored)
      ensures old(stored).Some? && sizeOf(old(stored).value) > MaxBytes ==> stored == Some(Records(State()))
    {
      if stored.None? {
        return;
      }
      var rs := stored.value;
      ghost var start := State();
      var i := 0;
      while i < |rs|
        invariant 0 <= i <= |rs|
        invariant Valid()
        invariant State() == Loaded(start, rs[..i])
        invariant saveCounter == old(saveCounter) && stored == old(stored)
      {
        assert rs[..i + 1][..i] == rs[..i];
        var loaded := Set(State(), rs[i].key, rs[i].entry);
        SetKeepsWellFormed(State(), rs[i].key, rs[i].entry);
        order, entries := loaded.order, loaded.entries;
        i := i + 1;
      }
      assert rs[..i] == rs;
      LoadedKeepsWellFormed(start, rs);
      if sizeOf(rs) > MaxBytes {
        PruneCache();
      }
    }
  }
}
