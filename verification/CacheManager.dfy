/** The cache manager: live instances, their counters and their stored records. */
module CacheManager {
  import opened Basics
  import opened Sums
  import opened Orders
  import opened CacheTotals

  // ----- Limits as the code computes them -----

  function Judge(count: nat, size: int, limits: Limits, replacing: bool, oldSize: int, newSize: int): Option<Error> {
    if !replacing && limits.maxInstances > 0 && count + 1 > limits.maxInstances then Some(MaxInstances)
    else if limits.maxSizeBytes > 0 && size - oldSize + newSize > limits.maxSizeBytes then Some(MaxSize)
    else None
  }

  /** Told the truth about the old entry, it refuses exactly what would break a limit. */
  lemma JudgeIsRefusal(c: Entries, limits: Limits, id: string, entry: Instance)
    ensures Judge(|c|, SizeOf(c), limits, id in c, OldSize(c, id), entry.size) == Refusal(c, limits, id, entry)
  {
    hide SizeOf;
    PutEntry(c, id, entry);
  }

  // ----- Removing a whole category -----

  /** Deleting the record of this entry fails. */
  predicate Sticks(e: Instance, failing: set<string>) {
    e.recordId != "" && e.recordId in failing
  }

  /** How many entries are taken off before the first failing deletion. */
  function StopsAt(c: Entries, order: seq<string>, failing: set<string>): (n: nat)
    ensures n <= |order|
    ensures forall i :: 0 <= i < n && order[i] in c ==> !Sticks(c[order[i]], failing)
    ensures n < |order| ==> order[n] in c && Sticks(c[order[n]], failing)
  {
    if order == [] || (order[0] in c && Sticks(c[order[0]], failing)) then 0 else 1 + StopsAt(c, order[1..], failing)
  }

  /** The entries still to be taken off after the first `n` of the order. */
  function Left(c: Entries, order: seq<string>, n: nat): Entries
    requires n <= |order|
  {
    c - (set x | x in order[..n])
  }

  /** The records of the first `n` entries of the order. */
  function RecordIds(c: Entries, order: seq<string>, n: nat): set<string>
    requires n <= |order|
  {
    set x | x in order[..n] && x in c && c[x].recordId != "" :: c[x].recordId
  }

  lemma LeftStep(c: Entries, order: seq<string>, n: nat)
    requires Lists(order, c.Keys) && n < |order|
    ensures order[n] in Left(c, order, n) && Left(c, order, n)[order[n]] == c[order[n]]
    ensures Left(c, order, n + 1) == Left(c, order, n) - {order[n]}
  {
    ListedAreKeys(c, order);
    var now := order[..n + 1];
    assert now == order[..n] + [order[n]];
    assert (set x | x in now) == (set x | x in order[..n]) + {order[n]};
  }

  lemma RecordIdsStep(c: Entries, order: seq<string>, n: nat)
    requires n < |order| && order[n] in c
    ensures RecordIds(c, order, n + 1) == RecordIds(c, order, n) + (if c[order[n]].recordId != "" then {c[order[n]].recordId} else {})
  {
    assert order[..n + 1] == order[..n] + [order[n]];
    forall r ensures r in RecordIds(c, order, n + 1) <==> r in RecordIds(c, order, n) || (r == c[order[n]].recordId && r != "") {
      if r in RecordIds(c, order, n + 1) {
        var x :| x in order[..n + 1] && x in c && c[x].recordId != "" && c[x].recordId == r;
        if x != order[n] { assert x in order[..n]; }
      }
      if r in RecordIds(c, order, n) {
        var x :| x in order[..n] && x in c && c[x].recordId != "" && c[x].recordId == r;
        assert x in order[..n + 1];
      }
      assert order[n] in order[..n + 1];
    }
  }

  lemma LeftEnds(c: Entries, order: seq<string>)
    requires Lists(order, c.Keys)
    ensures Left(c, order, |order|) == map[] && Left(c, order, 0) == c && RecordIds(c, order, 0) == {}
  {
    assert order[..|order|] == order;
  }

  lemma StoppedAt(c: Entries, order: seq<string>, failing: set<string>, n: nat)
    requires n <= |order| && (forall x :: x in order ==> x in c)
    requires (forall i :: 0 <= i < n ==> !Sticks(c[order[i]], failing)) && (n < |order| ==> Sticks(c[order[n]], failing))
    ensures StopsAt(c, order, failing) == n
  {
  }

  lemma CategorySizesOk(caches: Caches, key: string)
    requires SizesOk(caches)
    ensures SizesOk(caches - {key})
  {
    forall k, i | HasEntry(caches - {key}, k, i) ensures (caches - {key})[k][i].size >= 0 { assert HasEntry(caches, k, i); }
  }

  /** A category leaves together with all its records. */
  lemma CategoryMatches(caches: Caches, records: map<string, Record>, key: string, order: seq<string>)
    requires Matched(caches, records) && key in caches && Lists(order, caches[key].Keys)
    ensures Matched(caches - {key}, records - RecordIds(caches[key], order, |order|))
  {
    var n, after := caches - {key}, records - RecordIds(caches[key], order, |order|);
    assert order[..|order|] == order;
    forall r ensures RecordHasEntry(n, after, r) {
      assert RecordHasEntry(caches, records, r);
      if r in records && records[r].key == key {
        assert records[r].id in (set x | x in order);
        assert r in RecordIds(caches[key], order, |order|);
      }
    }
    forall k, i ensures EntryHasRecord(n, after, k, i) {
      assert EntryHasRecord(caches, records, k, i);
      if HasEntry(n, k, i) && caches[k][i].recordId in RecordIds(caches[key], order, |order|) {
        var x :| x in order && x in caches[key] && caches[key][x].recordId != "" && caches[key][x].recordId == caches[k][i].recordId;
        RecordsAreOwned(caches, records, k, i, key, x);
      }
    }
  }

  /** In whatever order the entries come, the removal runs to its end or stops before it has begun. */
  ghost predicate AllOrNothing(c: Entries, failing: set<string>) {
    forall order :: Lists(order, c.Keys) ==> StopsAt(c, order, failing) == 0 || StopsAt(c, order, failing) == |order|
  }

  predicate NoneSticks(c: Entries, failing: set<string>) {
    forall id :: id in c ==> !Sticks(c[id], failing)
  }

  predicate AllStick(c: Entries, failing: set<string>) {
    forall id :: id in c ==> Sticks(c[id], failing)
  }

  /** That is so exactly when no deletion fails or every one does. */
  lemma AllOrNothingIff(c: Entries, failing: set<string>)
    ensures AllOrNothing(c, failing) <==> NoneSticks(c, failing) || AllStick(c, failing)
  {
    hide AllOrNothing;
    if NoneSticks(c, failing) || AllStick(c, failing) {
      UniformIsAllOrNothing(c, failing);
    } else {
      hide Sticks;
      var f :| f in c && Sticks(c[f], failing);
      var g :| g in c && !Sticks(c[g], failing);
      MixedStops(c, failing, f, g);
    }
  }

  lemma UniformIsAllOrNothing(c: Entries, failing: set<string>)
    requires NoneSticks(c, failing) || AllStick(c, failing)
    ensures AllOrNothing(c, failing)
  {
    hide Sticks, Lists;
    forall order | Lists(order, c.Keys)
      ensures StopsAt(c, order, failing) == 0 || StopsAt(c, order, failing) == |order|
    {
      ListedAreKeys(c, order);
    }
  }

  lemma MixedStops(c: Entries, failing: set<string>, f: string, g: string)
    requires f in c && Sticks(c[f], failing) && g in c && !Sticks(c[g], failing)
    ensures !AllOrNothing(c, failing)
  {
    hide Sticks, Lists, StopsAt, SomeOrder;
    var others := c.Keys - {g};
    var rest := SomeOrder(others);
    PrependLists(g, rest, others);
    assert {g} + others == c.Keys;
    StopsMidway(c, [g] + rest, failing, f);
  }

  /** An order that begins with a deletion that works and holds one that fails stops in between. */
  lemma StopsMidway(c: Entries, order: seq<string>, failing: set<string>, f: string)
    requires Lists(order, c.Keys) && order != [] && !Sticks(c[order[0]], failing) && f in c && Sticks(c[f], failing)
    ensures 0 < StopsAt(c, order, failing) < |order|
  {
    ListedAreKeys(c, order);
    Listed(order, c.Keys);
    hide Sticks, Lists;
    var k :| 0 <= k < |order| && order[k] == f;
  }

  /** For instance, of two entries the second has a record that cannot be deleted. */
  lemma RemovalCanStopMidway()
    ensures var c := map["a" := Instance(1, 5, "", "c"), "b" := Instance(2, 7, "r", "d")];
            Lists(["a", "b"], c.Keys) && StopsAt(c, ["a", "b"], {"r"}) == 1
  {
    var c := map["a" := Instance(1, 5, "", "c"), "b" := Instance(2, 7, "r", "d")];
    assert ["a", "b"][1..] == ["b"];
    assert StopsAt(c, ["b"], {"r"}) == 0;
  }

  lemma ListedAreKeys(c: Entries, order: seq<string>)
    requires Lists(order, c.Keys)
    ensures forall x :: x in order ==> x in c
  {
    forall x | x in order ensures x in c { assert x in (set y | y in order); }
  }

  // ----- The manager -----

  class Manager {
    var caches: Caches
    var configs: map<string, Limits>
    const hasStorage: bool
    var records: map<string, Record>
    var instances: int
    var sizeBytes: int

    constructor (configs: map<string, Limits>, hasStorage: bool, records: map<string, Record>)
      ensures this.configs == configs && this.hasStorage == hasStorage && this.records == records
      ensures caches == map[] && instances == 0 && sizeBytes == 0
      ensures records == map[] ==> Ledger()
    {
      this.configs, this.hasStorage, this.records := configs, hasStorage, records;
      caches, instances, sizeBytes := map[], 0, 0;
    }

    ghost predicate CountersExact()
      reads this
    {
      instances == TotalCount(caches) && sizeBytes == TotalSize(caches)
    }

    /** Counters equal the totals; records and persisted entries correspond one to one. */
    ghost predicate Ledger()
      reads this
    {
      CountersExact() && Matched(caches, records) && (hasStorage || records == map[]) && SizesOk(caches)
    }

    /** Every category is within its limits. */
    ghost predicate AllFit()
      reads this
    {
      forall key :: Fits(EntriesOf(caches, key), LimitsOf(configs, key))
    }

    method CacheStats(key: string) returns (count: nat, size: int)
      ensures count == |EntriesOf(caches, key)| && size == SizeOf(EntriesOf(caches, key))
    {
      hide SizeOf;
      count, size := 0, 0;
      var entries := EntriesOf(caches, key);
      var rest := entries;
      while rest != map[]
        invariant count + |rest| == |entries| && size + SizeOf(rest) == SizeOf(entries)
        decreases |rest|
      {
        var id :| id in rest;
        DropEntry(rest, id);
        count, size := count + 1, size + rest[id].size;
        rest := rest - {id};
      }
      EmptySize();
    }

    method CheckLimits(key: string, replacing: bool, oldSize: int, newSize: int) returns (refused: Option<Error>)
      ensures refused == Judge(|EntriesOf(caches, key)|, SizeOf(EntriesOf(caches, key)), LimitsOf(configs, key), replacing, oldSize, newSize)
    {
      hide SizeOf;
      var limits := LimitsOf(configs, key);
      var count, size := CacheStats(key);
      if !replacing && limits.maxInstances > 0 && count + 1 > limits.maxInstances { return Some(MaxInstances); }
      if limits.maxSizeBytes > 0 && size - oldSize + newSize > limits.maxSizeBytes { return Some(MaxSize); }
      return None;
    }

    method Store(key: string, id: string, entry: Instance, replacing: bool, oldSize: int)
      modifies this`caches, this`instances, this`sizeBytes
      ensures caches == Put(old(caches), key, id, entry)
      ensures instances == old(instances) + (if replacing then 0 else 1)
      ensures sizeBytes == old(sizeBytes) + entry.size - oldSize
    {
      if key !in caches { caches := caches[key := map[]]; }
      caches := caches[key := caches[key][id := entry]];
      if !replacing { instances := instances + 1; }
      sizeBytes := sizeBytes + entry.size - oldSize;
    }

    lemma PutFits(was: Caches, key: string, id: string, entry: Instance)
      requires caches == Put(was, key, id, entry)
      requires forall k :: Fits(EntriesOf(was, k), LimitsOf(configs, k))
      requires Refusal(EntriesOf(was, key), LimitsOf(configs, key), id, entry).None?
      ensures AllFit()
    {
      hide Fits, Refusal;
      forall k ensures Fits(EntriesOf(caches, k), LimitsOf(configs, k)) {
        assert Fits(EntriesOf(was, k), LimitsOf(configs, k));
        if k == key { AdmittedFits(EntriesOf(was, k), LimitsOf(configs, k), id, entry); }
      }
    }

    /** Replaces or adds a persisted instance; `built` is what the factory made, `newId` what the storage calls a new record. */
    method UpdateCacheInstance(key: string, id: string, encoded: string, built: Option<nat>, saves: bool, newId: string) returns (err: Option<Error>)
      requires Ledger() && newId != "" && newId !in records
      modifies this`caches, this`instances, this`sizeBytes, this`records
      ensures Ledger() && (old(AllFit()) ==> AllFit())
      ensures err ==
              if key !in configs || !configs[key].hasFactory then Some(FactoryNotFound)
              else if built.None? then Some(BuildFailed)
              else
                var r := Refusal(EntriesOf(old(caches), key), LimitsOf(configs, key), id, Instance(built.value, |encoded|, newId, encoded));
                if r.Some? then r else if hasStorage && !saves then Some(StorageFailed) else None
      ensures err.Some? ==> caches == old(caches) && records == old(records)
      ensures err.None? ==>
                var rid := RecordIdFor(EntriesOf(old(caches), key), id, hasStorage, newId);
                && caches == Put(old(caches), key, id, Instance(built.value, |encoded|, rid, encoded))
                && records == (if hasStorage then old(records)[rid := Record(key, id, encoded)] else old(records))
    {
      hide TotalCount, TotalSize, SizeOf, Matched, Fits, SizesOk;
      if !LimitsOf(configs, key).hasFactory { return Some(FactoryNotFound); }
      if built.None? { return Some(BuildFailed); }
      var c := EntriesOf(caches, key);
      var present, oldSize := id in c, OldSize(c, id);
      var refused := CheckLimits(key, present, oldSize, |encoded|);
      JudgeIsRefusal(c, LimitsOf(configs, key), id, Instance(built.value, |encoded|, newId, encoded));
      if refused.Some? { return refused; }
      var recordId := if present then c[id].recordId else "";
      ghost var before := records;
      if hasStorage {
        if !saves { return Some(StorageFailed); }
        if recordId == "" { recordId := newId; }
        records := records[recordId := Record(key, id, encoded)];
      }
      var entry := Instance(built.value, |encoded|, recordId, encoded);
      ghost var was := caches;
      Store(key, id, entry, present, oldSize);
      PutTotals(was, key, id, entry);
      PutSizesOk(was, key, id, entry);
      if hasStorage {
        PersistMatches(was, before, key, id, entry);
      } else {
        NothingPersisted(was, key, id);
        RuntimeMatches(was, before, key, id, entry);
      }
      if old(AllFit()) {
        JudgeIsRefusal(c, LimitsOf(configs, key), id, entry);
        PutFits(was, key, id, entry);
      }
      err := None;
    }

    /** deleteRecord: a record that is already gone is no failure. */
    method DeleteRecord(id: string, failing: set<string>) returns (ok: bool)
      modifies this`records
      ensures ok == (id !in failing)
      ensures records == if ok then old(records) - {id} else old(records)
    {
      if id in failing { return false; }
      records := records - {id};
      return true;
    }

    /** Replaces or adds a process-local instance; `failing` are the records whose deletion fails. */
    method UpdateRuntimeCacheInstance(key: string, id: string, pointer: Option<nat>, size: int, failing: set<string>) returns (err: Option<Error>)
      requires Ledger()
      modifies this`caches, this`instances, this`sizeBytes, this`records
      ensures Ledger() && (old(AllFit()) ==> AllFit())
      ensures err ==
              if pointer.None? then Some(NotAPointer)
              else if size < 0 then Some(NegativeSize)
              else
                var c := EntriesOf(old(caches), key);
                var r := Refusal(c, LimitsOf(configs, key), id, Instance(pointer.value, size, "", ""));
                if r.Some? then r else if id in c && Sticks(c[id], failing) then Some(StorageFailed) else None
      ensures err.Some? ==> caches == old(caches) && records == old(records)
      ensures err.None? ==>
                && caches == Put(old(caches), key, id, Instance(pointer.value, size, "", ""))
                && records == Without(old(caches), old(records), key, id)
    {
      hide TotalCount, TotalSize, SizeOf, Matched, Fits, SizesOk;
      if pointer.None? { return Some(NotAPointer); }
      if size < 0 { return Some(NegativeSize); }
      var c := EntriesOf(caches, key);
      var present, oldSize := id in c, OldSize(c, id);
      var entry := Instance(pointer.value, size, "", "");
      var refused := CheckLimits(key, present, oldSize, size);
      JudgeIsRefusal(c, LimitsOf(configs, key), id, entry);
      if refused.Some? { return refused; }
      ghost var before := records;
      NoStorageNoRecord(key, id);
      if present && c[id].recordId != "" && hasStorage {
        var ok := DeleteRecord(c[id].recordId, failing);
        if !ok { return Some(StorageFailed); }
      }
      ghost var was := caches;
      Store(key, id, entry, present, oldSize);
      PutTotals(was, key, id, entry);
      PutSizesOk(was, key, id, entry);
      RuntimeMatches(was, before, key, id, entry);
      if old(AllFit()) { PutFits(was, key, id, entry); }
      err := None;
    }

    /** Without storage no entry has a record. */
    lemma NoStorageNoRecord(key: string, id: string)
      requires Ledger()
      ensures !hasStorage && HasEntry(caches, key, id) ==> caches[key][id].recordId == ""
    {
      if !hasStorage { NothingPersisted(caches, key, id); }
    }

    /** Takes an entry out of its category, and the category out of the table when it was the last. */
    method TakeOff(key: string, id: string)
      requires key in caches && id in caches[key]
      modifies this`caches, this`instances, this`sizeBytes
      ensures caches == Drop(old(caches), key, id)
      ensures instances == old(instances) - 1 && sizeBytes == old(sizeBytes) - old(caches)[key][id].size
    {
      var rest := caches[key] - {id};
      instances := instances - 1;
      sizeBytes := sizeBytes - caches[key][id].size;
      caches := caches[key := rest];
      if |rest| == 0 { caches := caches - {key}; }
    }

    method RemoveCacheInstance(key: string, id: string, failing: set<string>) returns (err: Option<Error>)
      requires Ledger()
      modifies this`caches, this`instances, this`sizeBytes, this`records
      ensures Ledger() && (old(AllFit()) ==> AllFit())
      ensures err ==
              if key !in old(caches) then Some(CacheNotFound)
              else if id !in old(caches)[key] then Some(InstanceNotFound)
              else if Sticks(old(caches)[key][id], failing) then Some(StorageFailed)
              else None
      ensures err.Some? ==> caches == old(caches) && records == old(records)
      ensures err.None? ==> caches == Drop(old(caches), key, id) && records == Without(old(caches), old(records), key, id)
    {
      hide TotalCount, TotalSize, SizeOf, Matched, Fits, SizesOk;
      if key !in caches { return Some(CacheNotFound); }
      if id !in caches[key] { return Some(InstanceNotFound); }
      var entry := caches[key][id];
      ghost var was, before := caches, records;
      NoStorageNoRecord(key, id);
      if entry.recordId != "" && hasStorage {
        var ok := DeleteRecord(entry.recordId, failing);
        if !ok { return Some(StorageFailed); }
      }
      TakeOff(key, id);
      DropTotals(was, key, id);
      DropSizesOk(was, key, id);
      DropMatches(was, before, key, id);
      if old(AllFit()) { DropKeepsFit(was, key, id); }
      err := None;
    }

    /**
     * Removes a category entry by entry, in the order the map yields them. A failing
     * deletion leaves the category in place and the entries before it uncounted, so
     * the ledger stays exact only if the removal ran to its end or never began.
     */
    method RemoveCache(key: string, order: seq<string>, failing: set<string>) returns (err: Option<Error>)
      requires Ledger() && (key in caches ==> Lists(order, caches[key].Keys))
      modifies this`caches, this`instances, this`sizeBytes, this`records
      ensures key !in old(caches) ==> err == Some(CacheNotFound) && caches == old(caches) && Ledger()
      ensures key in old(caches) ==>
                var c := old(caches)[key];
                var n := StopsAt(c, order, failing);
                && err == (if n == |order| then None else Some(StorageFailed))
                && caches == (if n == |order| then old(caches) - {key} else old(caches))
                && records == old(records) - RecordIds(c, order, n)
                && instances == old(instances) - n && sizeBytes == old(sizeBytes) - SizeOf(c) + SizeOf(Left(c, order, n))
                && (Ledger() <==> n == |order| || n == 0)
      ensures old(AllFit()) ==> AllFit()
    {
      hide TotalCount, TotalSize, SizeOf, Matched, SizesOk, Fits, Left, RecordIds, Lists, StopsAt;
      if key !in caches { return Some(CacheNotFound); }
      ghost var c := caches[key];
      var n := TakeAllOff(key, order, failing);
      LeftEnds(c, order);
      assert old(records) - {} == old(records);
      if n < |order| { return Some(StorageFailed); }
      caches := caches - {key};
      DropCategory(old(caches), key);
      ListLength(order, c.Keys);
      EmptySize();
      CategoryMatches(old(caches), old(records), key, order);
      CategorySizesOk(old(caches), key);
      if old(AllFit()) { RemovalFits(old(caches), key); }
      err := None;
    }

    lemma RemovalFits(was: Caches, key: string)
      requires caches == was - {key} && forall k :: Fits(EntriesOf(was, k), LimitsOf(configs, k))
      ensures AllFit()
    {
      hide SizeOf;
      EmptySize();
      forall k ensures Fits(EntriesOf(caches, k), LimitsOf(configs, k)) {
        assert Fits(EntriesOf(was, k), LimitsOf(configs, k));
        assert k == key ==> EntriesOf(caches, k) == map[];
      }
    }

    /** The loop of RemoveCache: deletes records and counts down until a deletion fails. */
    method TakeAllOff(key: string, order: seq<string>, failing: set<string>) returns (n: nat)
      requires Ledger() && key in caches && Lists(order, caches[key].Keys)
      modifies this`instances, this`sizeBytes, this`records
      ensures n == StopsAt(caches[key], order, failing)
      ensures records == old(records) - RecordIds(caches[key], order, n)
      ensures instances == old(instances) - n && sizeBytes == old(sizeBytes) - SizeOf(caches[key]) + SizeOf(Left(caches[key], order, n))
    {
      hide TotalCount, TotalSize, SizeOf, Matched, SizesOk, Left, RecordIds, Lists, StopsAt;
      var c := caches[key];
      LeftEnds(c, order);
      ListedAreKeys(c, order);
      forall x | x in c ensures !hasStorage ==> c[x].recordId == "" { NoStorageNoRecord(key, x); }
      n := 0;
      while n < |order|
        invariant n <= |order|
        invariant forall i :: 0 <= i < n ==> !Sticks(c[order[i]], failing)
        invariant records == old(records) - RecordIds(c, order, n)
        invariant instances == old(instances) - n && sizeBytes == old(sizeBytes) - SizeOf(c) + SizeOf(Left(c, order, n))
      {
        var entry := c[order[n]];
        if entry.recordId != "" && hasStorage {
          var ok := DeleteRecord(entry.recordId, failing);
          if !ok {
            StoppedAt(c, order, failing, n);
            return;
          }
        }
        LeftStep(c, order, n);
        RecordIdsStep(c, order, n);
        DropEntry(Left(c, order, n), order[n]);
        instances := instances - 1;
        sizeBytes := sizeBytes - entry.size;
        n := n + 1;
      }
      StoppedAt(c, order, failing, n);
    }

    /** Counts a loaded record as new, whatever is already there. */
    method AddLoaded(r: string, value: nat) returns (err: Option<Error>)
      requires r in records
      modifies this`caches, this`instances, this`sizeBytes
      ensures err.None? ==>
                && caches == Put(old(caches), records[r].key, records[r].id, Instance(value, |records[r].config|, r, records[r].config))
                && instances == old(instances) + 1 && sizeBytes == old(sizeBytes) + |records[r].config|
      ensures err.None? && old(AllFit()) && SizesOk(old(caches)) ==> AllFit()
      ensures LimitsOf(configs, records[r].key).maxInstances == 0 && LimitsOf(configs, records[r].key).maxSizeBytes == 0 ==> err.None?
    {
      hide SizeOf, Fits, SizesOk;
      var record := records[r];
      ghost var c, limits := EntriesOf(caches, record.key), LimitsOf(configs, record.key);
      err := CheckLimits(record.key, false, 0, |record.config|);
      if err.None? {
        ghost var was := caches;
        var entry := LoadedEntry(records, r, value);
        Store(record.key, record.id, entry, false, 0);
        if old(AllFit()) && SizesOk(was) {
          StricterRefusal(was, record.key, limits, record.id, entry);
          PutFits(was, record.key, record.id, entry);
        }
      }
    }

    /**
     * NewManager with a storage: every record becomes an instance, in the order the
     * storage lists them. The counters and the correspondence with the records are
     * right exactly when no two records are for the same instance.
     */
    method Load(order: seq<string>, built: map<string, nat>) returns (err: Option<Error>)
      requires hasStorage && caches == map[] && instances == 0 && sizeBytes == 0
      requires Lists(order, records.Keys) && "" !in records
      modifies this`caches, this`instances, this`sizeBytes
      ensures err.None? ==> instances == |records| && (Ledger() <==> DistinctInstances(records))
      ensures err.None? ==> forall r :: r in records ==> HasEntry(caches, records[r].key, records[r].id)
      ensures err.None? ==> forall k, i :: HasEntry(caches, k, i) ==> EntryIsLoaded(caches, records, built, order, k, i)
      ensures old(AllFit()) && err.None? ==> AllFit()
      ensures (forall r :: r in records ==> r in built && LimitsOf(configs, records[r].key) == Limits(true, 0, 0)) ==> err.None?
    {
      hide TotalCount, TotalSize, SizeOf, Matched, Fits, SizesOk, EntryIsLoaded, Lists, Distinct, HasEntry;
      LoadStart();
      ListedAreRecords(records, order);
      var n := 0;
      while n < |order|
        invariant n <= |order| && instances == n && SizesOk(caches)
        invariant TotalCount(caches) <= n && (TotalCount(caches) == n <==> Distinct(records, order[..n]))
        invariant Distinct(records, order[..n]) ==> sizeBytes == TotalSize(caches)
        invariant LoadedFrom(caches, records, built, order[..n])
        invariant old(AllFit()) ==> AllFit()
      {
        var r := order[n];
        if !LimitsOf(configs, records[r].key).hasFactory { return Some(FactoryNotFound); }
        if r !in built { return Some(BuildFailed); }
        ghost var was := caches;
        var e := AddLoaded(r, built[r]);
        if e.Some? { return e; }
        LoadStep(was, records, built, order, n);
        n := n + 1;
      }
      assert order[..n] == order;
      LoadEnd(caches, records, built, order);
      err := None;
    }

    lemma DropKeepsFit(was: Caches, key: string, id: string)
      requires HasEntry(was, key, id) && SizesOk(was) && caches == Drop(was, key, id)
      requires forall k :: Fits(EntriesOf(was, k), LimitsOf(configs, k))
      ensures AllFit()
    {
      hide Fits;
      forall k ensures Fits(EntriesOf(caches, k), LimitsOf(configs, k)) {
        assert Fits(EntriesOf(was, k), LimitsOf(configs, k));
        if k == key {
          DropFits(was[key], LimitsOf(configs, k), id);
          assert EntriesOf(caches, k) == was[key] - {id};
        }
      }
    }
  }

  /** Two records of one instance, as left behind by a storage that was written twice, are loaded into an inexact ledger. */
  method LoadTwice() returns (m: Manager)
    ensures fresh(m) && m.instances == 2 && |m.records| == 2 && !m.Ledger()
  {
    var records := map["r1" := Record("k", "i", "a"), "r2" := Record("k", "i", "b")];
    m := new Manager(map["k" := Limits(true, 0, 0)], true, records);
    assert Lists(["r1", "r2"], records.Keys);
    assert SameInstance(records, "r1", "r2");
    assert |records| == 2 by { ListLength(["r1", "r2"], records.Keys); }
    var err := m.Load(["r1", "r2"], map["r1" := 1, "r2" := 2]);
  }

  // ----- Loading -----

  function LoadedEntry(records: map<string, Record>, r: string, value: nat): Instance
    requires r in records
  {
    Instance(value, |records[r].config|, r, records[r].config)
  }

  predicate SameInstance(records: map<string, Record>, r: string, q: string)
    requires r in records && q in records
  {
    records[r].key == records[q].key && records[r].id == records[q].id
  }

  /** No two records are for the same instance. */
  predicate DistinctInstances(records: map<string, Record>) {
    forall r, q :: r in records && q in records && SameInstance(records, r, q) ==> r == q
  }

  predicate Distinct(records: map<string, Record>, list: seq<string>)
  {
    forall i, j :: 0 <= i < j < |list| && list[i] in records && list[j] in records ==> !SameInstance(records, list[i], list[j])
  }

  /** The entry came from a listed record of that instance. */
  ghost predicate EntryIsLoaded(caches: Caches, records: map<string, Record>, built: map<string, nat>, list: seq<string>, k: string, i: string) {
    HasEntry(caches, k, i) ==>
      exists r :: r in list && r in records && r in built && records[r].key == k && records[r].id == i
        && caches[k][i] == Instance(built[r], |records[r].config|, r, records[r].config)
  }

  /** Exactly the instances of the listed records are there. */
  ghost predicate LoadedFrom(caches: Caches, records: map<string, Record>, built: map<string, nat>, list: seq<string>) {
    && (forall r :: r in list && r in records ==> HasEntry(caches, records[r].key, records[r].id))
    && (forall k, i :: EntryIsLoaded(caches, records, built, list, k, i))
  }

  lemma ListedAreRecords(records: map<string, Record>, order: seq<string>)
    requires Lists(order, records.Keys)
    ensures forall r :: r in order <==> r in records
    ensures |order| == |records|
  {
    forall r ensures r in order <==> r in records { assert r in (set x | x in order) <==> r in order; }
    ListLength(order, records.Keys);
    assert |records.Keys| == |records|;
  }

  lemma LoadStart()
    ensures TotalCount(map[]) == 0 && TotalSize(map[]) == 0 && SizesOk(map[])
    ensures forall records: map<string, Record>, built: map<string, nat> :: LoadedFrom(map[], records, built, [])
    ensures forall records: map<string, Record> :: Distinct(records, [])
  {
    assert Counts(map[]) == map[] && Sizes(map[]) == map[];
  }

  /** One more record keeps the list distinct exactly when its instance is not there yet. */
  lemma DistinctStep(caches: Caches, records: map<string, Record>, built: map<string, nat>, order: seq<string>, n: nat)
    requires n < |order| && (forall r :: r in order ==> r in records) && LoadedFrom(caches, records, built, order[..n])
    ensures Distinct(records, order[..n + 1]) <==>
            Distinct(records, order[..n]) && !HasEntry(caches, records[order[n]].key, records[order[n]].id)
  {
    hide HasEntry;
    var rec := records[order[n]];
    var now := order[..n + 1];
    assert now == order[..n] + [order[n]];
    if HasEntry(caches, rec.key, rec.id) {
      assert EntryIsLoaded(caches, records, built, order[..n], rec.key, rec.id);
      var r :| r in order[..n] && r in records && records[r].key == rec.key && records[r].id == rec.id;
      var i :| 0 <= i < n && order[i] == r;
      assert SameInstance(records, now[i], now[n]);
    } else {
      forall i | 0 <= i < n ensures !SameInstance(records, now[i], now[n]) {
        assert order[i] in order[..n];
      }
      if Distinct(records, order[..n]) {
        forall i, j | 0 <= i < j < |now| ensures !SameInstance(records, now[i], now[j]) {
          if j < n { assert now[i] == order[..n][i] && now[j] == order[..n][j]; }
        }
      }
      if Distinct(records, now) {
        forall i, j | 0 <= i < j < n ensures !SameInstance(records, order[..n][i], order[..n][j]) {
          assert !SameInstance(records, now[i], now[j]);
        }
      }
    }
  }

  lemma LoadedFromStep(caches: Caches, records: map<string, Record>, built: map<string, nat>, order: seq<string>, n: nat)
    requires n < |order| && order[n] in records && order[n] in built && LoadedFrom(caches, records, built, order[..n])
    ensures var r := order[n]; LoadedFrom(Put(caches, records[r].key, records[r].id, LoadedEntry(records, r, built[r])), records, built, order[..n + 1])
  {
    hide Put, HasEntry;
    var r := order[n];
    var now := order[..n + 1];
    assert now == order[..n] + [r];
    var entry := LoadedEntry(records, r, built[r]);
    var after := Put(caches, records[r].key, records[r].id, entry);
    forall q | q in now && q in records ensures HasEntry(after, records[q].key, records[q].id) {
      PutElsewhere(caches, records[r].key, records[r].id, entry, records[q].key, records[q].id);
    }
    forall k, i ensures EntryIsLoaded(after, records, built, now, k, i) {
      PutElsewhere(caches, records[r].key, records[r].id, entry, k, i);
      assert EntryIsLoaded(caches, records, built, order[..n], k, i);
      assert r in now;
    }
  }

  lemma LoadStep(caches: Caches, records: map<string, Record>, built: map<string, nat>, order: seq<string>, n: nat)
    requires n < |order| && (forall r :: r in order ==> r in records) && order[n] in built && SizesOk(caches) && LoadedFrom(caches, records, built, order[..n])
    requires TotalCount(caches) <= n && (TotalCount(caches) == n <==> Distinct(records, order[..n]))
    ensures var r := order[n];
            var after := Put(caches, records[r].key, records[r].id, LoadedEntry(records, r, built[r]));
            && SizesOk(after) && LoadedFrom(after, records, built, order[..n + 1])
            && TotalCount(after) <= n + 1 && (TotalCount(after) == n + 1 <==> Distinct(records, order[..n + 1]))
            && (Distinct(records, order[..n + 1]) ==> Distinct(records, order[..n]) && TotalSize(after) == TotalSize(caches) + |records[r].config|)
  {
    hide Put, TotalCount, TotalSize, SizesOk, LoadedFrom, Distinct;
    var r := order[n];
    var entry := LoadedEntry(records, r, built[r]);
    PutTotals(caches, records[r].key, records[r].id, entry);
    PutSizesOk(caches, records[r].key, records[r].id, entry);
    LoadedFromStep(caches, records, built, order, n);
    DistinctStep(caches, records, built, order, n);
  }

  lemma DistinctIffListed(records: map<string, Record>, order: seq<string>)
    requires Lists(order, records.Keys)
    ensures Distinct(records, order) <==> DistinctInstances(records)
  {
    ListedAreRecords(records, order);
    if Distinct(records, order) {
      forall r, q | r in records && q in records && SameInstance(records, r, q) ensures r == q {
        var i :| 0 <= i < |order| && order[i] == r;
        var j :| 0 <= j < |order| && order[j] == q;
        assert !(i < j) && !(j < i);
      }
    }
  }

  /** Records of distinct instances correspond to their entries. */
  lemma LoadedMatches(caches: Caches, records: map<string, Record>, built: map<string, nat>, order: seq<string>)
    requires LoadedFrom(caches, records, built, order) && DistinctInstances(records) && "" !in records && (forall r :: r in order <==> r in records)
    ensures Matched(caches, records)
  {
    forall r ensures RecordHasEntry(caches, records, r) {
      if r in records { assert EntryIsLoaded(caches, records, built, order, records[r].key, records[r].id); }
    }
    forall k, i ensures EntryHasRecord(caches, records, k, i) { assert EntryIsLoaded(caches, records, built, order, k, i); }
  }

  lemma LoadEnd(caches: Caches, records: map<string, Record>, built: map<string, nat>, order: seq<string>)
    requires Lists(order, records.Keys) && "" !in records && LoadedFrom(caches, records, built, order)
    ensures Distinct(records, order) <==> DistinctInstances(records)
    ensures DistinctInstances(records) ==> Matched(caches, records)
    ensures |order| == |records|
    ensures forall r :: r in records ==> HasEntry(caches, records[r].key, records[r].id)
    ensures forall k, i :: HasEntry(caches, k, i) ==> EntryIsLoaded(caches, records, built, order, k, i)
  {
    hide Distinct, Matched, HasEntry, EntryIsLoaded, DistinctInstances;
    DistinctIffListed(records, order);
    ListedAreRecords(records, order);
    if DistinctInstances(records) { LoadedMatches(caches, records, built, order); }
  }

  /** Counting a present entry as new refuses at least what would break a limit. */
  lemma StricterRefusal(was: Caches, key: string, limits: Limits, id: string, entry: Instance)
    requires SizesOk(was) && Judge(|EntriesOf(was, key)|, SizeOf(EntriesOf(was, key)), limits, false, 0, entry.size).None?
    ensures Refusal(EntriesOf(was, key), limits, id, entry).None?
  {
    hide SizeOf;
    PutEntry(EntriesOf(was, key), id, entry);
    assert HasEntry(was, key, id) ==> was[key][id].size >= 0;
  }

  /** An entry keeps its record; a new one gets one if there is a storage. */
  function RecordIdFor(c: Entries, id: string, hasStorage: bool, newId: string): string {
    if id in c && c[id].recordId != "" then c[id].recordId else if hasStorage then newId else ""
  }

  /** Without records no entry is persisted. */
  lemma NothingPersisted(caches: Caches, key: string, id: string)
    requires Matched(caches, map[])
    ensures HasEntry(caches, key, id) ==> caches[key][id].recordId == ""
  {
    assert EntryHasRecord(caches, map[], key, id);
  }
}
