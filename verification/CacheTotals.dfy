/** The cache manager's tables as values: what is in them, and how much. */
module CacheTotals {
  import opened Basics
  import opened Sums

  /** A live instance; `recordId` is empty for one that is not persisted. */
  datatype Instance = Instance(value: nat, size: int, recordId: string, config: string)

  datatype Record = Record(key: string, id: string, config: string)

  /** Limits of a category; zero means no limit. */
  datatype Limits = Limits(hasFactory: bool, maxInstances: int, maxSizeBytes: int)

  datatype Error = FactoryNotFound | BuildFailed | NotAPointer | NegativeSize | MaxInstances | MaxSize | StorageFailed | CacheNotFound | InstanceNotFound

  type Entries = map<string, Instance>
  type Caches = map<string, Entries>

  function EntriesOf(caches: Caches, key: string): Entries {
    if key in caches then caches[key] else map[]
  }

  function LimitsOf(configs: map<string, Limits>, key: string): Limits {
    if key in configs then configs[key] else Limits(false, 0, 0)
  }

  function Put(caches: Caches, key: string, id: string, entry: Instance): Caches {
    caches[key := EntriesOf(caches, key)[id := entry]]
  }

  function Drop(caches: Caches, key: string, id: string): Caches
    requires key in caches
  {
    var rest := caches[key] - {id};
    if rest == map[] then caches - {key} else caches[key := rest]
  }

  // ----- Totals -----

  ghost function EntrySizes(c: Entries): map<string, int> {
    map id | id in c :: c[id].size
  }

  /** Bytes held by one category. */
  ghost function SizeOf(c: Entries): int {
    Sum(EntrySizes(c))
  }

  ghost function Counts(caches: Caches): map<string, int> {
    map k | k in caches :: |caches[k]|
  }

  ghost function Sizes(caches: Caches): map<string, int> {
    map k | k in caches :: SizeOf(caches[k])
  }

  ghost function TotalCount(caches: Caches): int {
    Sum(Counts(caches))
  }

  ghost function TotalSize(caches: Caches): int {
    Sum(Sizes(caches))
  }

  function OldSize(c: Entries, id: string): int {
    if id in c then c[id].size else 0
  }

  lemma PutCount(c: Entries, id: string, entry: Instance)
    ensures |c[id := entry]| == |c| + (if id in c then 0 else 1)
  {
    var n := c[id := entry];
    assert n.Keys == c.Keys + {id};
    assert |n.Keys| == |n| && |c.Keys| == |c|;
  }

  lemma PutSizes(c: Entries, id: string, entry: Instance)
    ensures EntrySizes(c[id := entry]) == EntrySizes(c)[id := entry.size]
  {
  }

  lemma PutEntry(c: Entries, id: string, entry: Instance)
    ensures |c[id := entry]| == |c| + (if id in c then 0 else 1)
    ensures SizeOf(c[id := entry]) == SizeOf(c) + entry.size - OldSize(c, id)
  {
    hide Sum;
    PutCount(c, id, entry);
    PutSizes(c, id, entry);
    SumUpdate(EntrySizes(c), id, entry.size);
  }

  lemma DropEntry(c: Entries, id: string)
    requires id in c
    ensures |c - {id}| == |c| - 1 && SizeOf(c - {id}) == SizeOf(c) - c[id].size
  {
    hide Sum;
    SumPick(EntrySizes(c), id);
    assert EntrySizes(c - {id}) == EntrySizes(c) - {id};
    assert (c - {id}).Keys == c.Keys - {id};
  }

  lemma EmptySize()
    ensures SizeOf(map[]) == 0
  {
    assert EntrySizes(map[]) == map[];
  }

  /** Replacing a whole category. */
  lemma SetCategory(caches: Caches, key: string, c: Entries)
    ensures TotalCount(caches[key := c]) == TotalCount(caches) - |EntriesOf(caches, key)| + |c|
    ensures TotalSize(caches[key := c]) == TotalSize(caches) - SizeOf(EntriesOf(caches, key)) + SizeOf(c)
  {
    hide Sum, SizeOf;
    SumUpdate(Counts(caches), key, |c|);
    SumUpdate(Sizes(caches), key, SizeOf(c));
    assert Counts(caches[key := c]) == Counts(caches)[key := |c|];
    assert Sizes(caches[key := c]) == Sizes(caches)[key := SizeOf(c)];
    EmptySize();
  }

  lemma DropCategory(caches: Caches, key: string)
    requires key in caches
    ensures TotalCount(caches - {key}) == TotalCount(caches) - |caches[key]|
    ensures TotalSize(caches - {key}) == TotalSize(caches) - SizeOf(caches[key])
  {
    hide Sum, SizeOf;
    SumPick(Counts(caches), key);
    SumPick(Sizes(caches), key);
    assert Counts(caches - {key}) == Counts(caches) - {key};
    assert Sizes(caches - {key}) == Sizes(caches) - {key};
  }

  lemma PutTotals(caches: Caches, key: string, id: string, entry: Instance)
    ensures var c := EntriesOf(caches, key); var n := Put(caches, key, id, entry);
            && TotalCount(n) == TotalCount(caches) + (if id in c then 0 else 1)
            && TotalSize(n) == TotalSize(caches) + entry.size - OldSize(c, id)
  {
    hide TotalCount, TotalSize, SizeOf;
    PutEntry(EntriesOf(caches, key), id, entry);
    SetCategory(caches, key, EntriesOf(caches, key)[id := entry]);
  }

  lemma DropTotals(caches: Caches, key: string, id: string)
    requires key in caches && id in caches[key]
    ensures TotalCount(Drop(caches, key, id)) == TotalCount(caches) - 1
    ensures TotalSize(Drop(caches, key, id)) == TotalSize(caches) - caches[key][id].size
  {
    hide TotalCount, TotalSize, SizeOf;
    DropEntry(caches[key], id);
    if caches[key] - {id} == map[] {
      DropCategory(caches, key);
      EmptySize();
    } else {
      SetCategory(caches, key, caches[key] - {id});
    }
  }

  // ----- Records and entries -----

  predicate HasEntry(caches: Caches, key: string, id: string) {
    key in caches && id in caches[key]
  }

  /** The entry of a record. */
  predicate RecordHasEntry(caches: Caches, records: map<string, Record>, r: string) {
    r in records ==>
      var Record(key, id, config) := records[r];
      r != "" && HasEntry(caches, key, id) && caches[key][id].recordId == r && caches[key][id].config == config
  }

  /** The record of a persisted entry. */
  predicate EntryHasRecord(caches: Caches, records: map<string, Record>, key: string, id: string) {
    HasEntry(caches, key, id) && caches[key][id].recordId != "" ==>
      caches[key][id].recordId in records && records[caches[key][id].recordId] == Record(key, id, caches[key][id].config)
  }

  /** Stored records and persisted entries correspond one to one. */
  ghost predicate Matched(caches: Caches, records: map<string, Record>) {
    (forall r :: RecordHasEntry(caches, records, r)) && (forall key, id :: EntryHasRecord(caches, records, key, id))
  }

  /** Two persisted entries never share a record. */
  lemma RecordsAreOwned(caches: Caches, records: map<string, Record>, k1: string, i1: string, k2: string, i2: string)
    requires Matched(caches, records) && HasEntry(caches, k1, i1) && HasEntry(caches, k2, i2)
    requires caches[k1][i1].recordId != "" && caches[k1][i1].recordId == caches[k2][i2].recordId
    ensures k1 == k2 && i1 == i2
  {
    assert EntryHasRecord(caches, records, k1, i1) && EntryHasRecord(caches, records, k2, i2);
  }

  /** What Put makes of every other entry. */
  lemma PutElsewhere(caches: Caches, key: string, id: string, entry: Instance, k: string, i: string)
    ensures var n := Put(caches, key, id, entry);
            && HasEntry(n, key, id) && n[key][id] == entry
            && ((k, i) != (key, id) ==>
                  (HasEntry(n, k, i) <==> HasEntry(caches, k, i)) && (HasEntry(caches, k, i) ==> n[k][i] == caches[k][i]))
  {
  }

  lemma DropElsewhere(caches: Caches, key: string, id: string, k: string, i: string)
    requires key in caches
    ensures var n := Drop(caches, key, id);
            && !HasEntry(n, key, id)
            && ((k, i) != (key, id) ==>
                  (HasEntry(n, k, i) <==> HasEntry(caches, k, i)) && (HasEntry(caches, k, i) ==> n[k][i] == caches[k][i]))
  {
    assert i in caches[key] && i != id ==> i in caches[key] - {id};
  }

  /** The records left when the entry at (key, id) gives up its own. */
  function Without(caches: Caches, records: map<string, Record>, key: string, id: string): map<string, Record> {
    if HasEntry(caches, key, id) && caches[key][id].recordId != "" then records - {caches[key][id].recordId} else records
  }

  /** Storing a persisted entry under its own or a new record. */
  lemma PersistMatches(caches: Caches, records: map<string, Record>, key: string, id: string, entry: Instance)
    requires Matched(caches, records) && entry.recordId != ""
    requires if HasEntry(caches, key, id) && caches[key][id].recordId != "" then entry.recordId == caches[key][id].recordId else entry.recordId !in records
    ensures Matched(Put(caches, key, id, entry), records[entry.recordId := Record(key, id, entry.config)])
  {
    hide Put;
    var n, after := Put(caches, key, id, entry), records[entry.recordId := Record(key, id, entry.config)];
    assert EntryHasRecord(caches, records, key, id);
    forall r ensures RecordHasEntry(n, after, r) {
      assert RecordHasEntry(caches, records, r);
      if r in after { PutElsewhere(caches, key, id, entry, after[r].key, after[r].id); }
    }
    forall k, i ensures EntryHasRecord(n, after, k, i) {
      assert EntryHasRecord(caches, records, k, i);
      PutElsewhere(caches, key, id, entry, k, i);
    }
  }

  /** Replacing an entry by one that is not persisted. */
  lemma RuntimeMatches(caches: Caches, records: map<string, Record>, key: string, id: string, entry: Instance)
    requires Matched(caches, records) && entry.recordId == ""
    ensures Matched(Put(caches, key, id, entry), Without(caches, records, key, id))
  {
    hide Put;
    var n, after := Put(caches, key, id, entry), Without(caches, records, key, id);
    assert EntryHasRecord(caches, records, key, id);
    forall r ensures RecordHasEntry(n, after, r) {
      assert RecordHasEntry(caches, records, r);
      if r in after { PutElsewhere(caches, key, id, entry, after[r].key, after[r].id); }
    }
    forall k, i ensures EntryHasRecord(n, after, k, i) {
      assert EntryHasRecord(caches, records, k, i);
      PutElsewhere(caches, key, id, entry, k, i);
    }
  }

  lemma DropMatches(caches: Caches, records: map<string, Record>, key: string, id: string)
    requires Matched(caches, records) && HasEntry(caches, key, id)
    ensures Matched(Drop(caches, key, id), Without(caches, records, key, id))
  {
    hide Drop;
    var n, after := Drop(caches, key, id), Without(caches, records, key, id);
    assert EntryHasRecord(caches, records, key, id);
    forall r ensures RecordHasEntry(n, after, r) {
      assert RecordHasEntry(caches, records, r);
      if r in after { DropElsewhere(caches, key, id, after[r].key, after[r].id); }
    }
    forall k, i ensures EntryHasRecord(n, after, k, i) {
      assert EntryHasRecord(caches, records, k, i);
      DropElsewhere(caches, key, id, k, i);
    }
  }

  // ----- Limits -----

  ghost predicate Fits(c: Entries, limits: Limits) {
    && (limits.maxInstances > 0 ==> |c| <= limits.maxInstances)
    && (limits.maxSizeBytes > 0 ==> SizeOf(c) <= limits.maxSizeBytes)
  }

  /** Why a category may not take an entry, judged by what it would hold afterwards. */
  ghost function Refusal(c: Entries, limits: Limits, id: string, entry: Instance): Option<Error> {
    var n := c[id := entry];
    if id !in c && limits.maxInstances > 0 && |n| > limits.maxInstances then Some(MaxInstances)
    else if limits.maxSizeBytes > 0 && SizeOf(n) > limits.maxSizeBytes then Some(MaxSize)
    else None
  }

  /** A category nobody has configured has no factory and no limits. */
  lemma UnconfiguredIsUnlimited(configs: map<string, Limits>, key: string, c: Entries, id: string, entry: Instance)
    requires key !in configs
    ensures !LimitsOf(configs, key).hasFactory && Fits(c, LimitsOf(configs, key)) && Refusal(c, LimitsOf(configs, key), id, entry) == None
  {
  }

  /** An entry is admitted exactly when its category stays within its limits; too many instances are named before too many bytes. */
  lemma AdmittedFits(c: Entries, limits: Limits, id: string, entry: Instance)
    requires Fits(c, limits)
    ensures Refusal(c, limits, id, entry).None? <==> Fits(c[id := entry], limits)
    ensures Refusal(c, limits, id, entry) == Some(MaxInstances) <==> limits.maxInstances > 0 && |c[id := entry]| > limits.maxInstances
  {
    hide SizeOf;
    PutEntry(c, id, entry);
  }

  lemma DropFits(c: Entries, limits: Limits, id: string)
    requires Fits(c, limits) && id in c && c[id].size >= 0
    ensures Fits(c - {id}, limits)
  {
    hide SizeOf;
    DropEntry(c, id);
  }

  ghost predicate SizesOk(caches: Caches) {
    forall k, i :: HasEntry(caches, k, i) ==> caches[k][i].size >= 0
  }

  lemma PutSizesOk(caches: Caches, key: string, id: string, entry: Instance)
    requires SizesOk(caches) && entry.size >= 0
    ensures SizesOk(Put(caches, key, id, entry))
  {
    hide Put;
    forall k, i | HasEntry(Put(caches, key, id, entry), k, i) ensures Put(caches, key, id, entry)[k][i].size >= 0 {
      PutElsewhere(caches, key, id, entry, k, i);
    }
  }

  lemma DropSizesOk(caches: Caches, key: string, id: string)
    requires SizesOk(caches) && key in caches
    ensures SizesOk(Drop(caches, key, id))
  {
    hide Drop;
    forall k, i | HasEntry(Drop(caches, key, id), k, i) ensures Drop(caches, key, id)[k][i].size >= 0 {
      DropElsewhere(caches, key, id, k, i);
    }
  }
}
