/** The index of what the cache believes it holds, and its least-recently-read order. */
module Index {
  import opened Items
  import opened Sorting
  import opened Fingerprints
  import B = Budget

  datatype IndexEntry = IndexEntry(fingerprint: Fingerprint, byteSize: u64, lastRead: u64, worldId: Uuid) {
    function Touched(seqNo: u64): IndexEntry { this.(lastRead := seqNo) }
  }

  type Rows = map<ItemId, IndexEntry>

  /** What a stored file's size alone says about it. */
  datatype BlobShape = Absent | Incomplete | Complete {
    predicate IsReadable() { Complete? }
    predicate IsReclaimable() { Complete? }
  }

  /** The next read number; it freezes at the top rather than wrapping. */
  function NextSeq(s: u64): u64 { SaturatingAdd(s, 1) }

  ghost predicate IsHighWater(rows: Rows, mark: u64) {
    && (forall id :: id in rows ==> rows[id].lastRead <= mark)
    && (mark != 0 ==> exists id :: id in rows && rows[id].lastRead == mark)
  }

  function HighWater(entries: seq<IndexEntry>): (mark: u64)
    ensures forall e :: e in entries ==> e.lastRead <= mark
    ensures mark != 0 ==> exists e :: e in entries && e.lastRead == mark
  {
    if entries == [] then 0
    else
      var rest := HighWater(entries[1..]);
      assert entries == [entries[0]] + entries[1..];
      Max(entries[0].lastRead, rest)
  }

  // ---- Listings ----

  /** Some order of the rows, each once. */
  ghost predicate IsListing(list: seq<(ItemId, IndexEntry)>, rows: Rows) {
    && FirstsDistinct(list)
    && (forall p :: p in list <==> p.0 in rows && rows[p.0] == p.1)
  }

  predicate ReadEarlier(a: (ItemId, IndexEntry), b: (ItemId, IndexEntry)) {
    a.1.lastRead < b.1.lastRead || (a.1.lastRead == b.1.lastRead && ItemLe(a.0, b.0))
  }

  function PairIds(list: seq<(ItemId, IndexEntry)>): (ids: seq<ItemId>)
    ensures |ids| == |list|
  {
    seq(|list|, i requires 0 <= i < |list| => list[i].0)
  }

  /** Item ids, least recently read first. */
  function LruOrder(list: seq<(ItemId, IndexEntry)>): seq<ItemId> {
    PairIds(SortBy(list, ReadEarlier))
  }

  function BudgetEntry(id: ItemId, entry: IndexEntry): B.IndexEntry {
    B.IndexEntry(id, entry.worldId, entry.byteSize, entry.lastRead)
  }

  /** The rows as the budget planner sees them. */
  function BudgetEntries(list: seq<(ItemId, IndexEntry)>): (r: seq<B.IndexEntry>)
    ensures |r| == |list|
    ensures forall i :: 0 <= i < |list| ==>
              && r[i].id == list[i].0 && r[i].worldId == list[i].1.worldId
              && r[i].byteSize == list[i].1.byteSize && r[i].lastReadSeq == list[i].1.lastRead
  {
    seq(|list|, i requires 0 <= i < |list| => BudgetEntry(list[i].0, list[i].1))
  }

  // ---- The two halves of a repair's diff ----

  /** Items whose file is not there at all. */
  function MissingBlobs(list: seq<(ItemId, IndexEntry)>, onDisk: set<Fingerprint>): (ids: seq<ItemId>)
    ensures forall id :: id in ids <==> exists p :: p in list && p.0 == id && p.1.fingerprint !in onDisk
  {
    if list == [] then []
    else
      var rest := MissingBlobs(list[1..], onDisk);
      assert list == [list[0]] + list[1..];
      if list[0].1.fingerprint !in onDisk then [list[0].0] + rest else rest
  }

  /** Files no row of the world names. */
  function OrphanedBlobs(list: seq<(ItemId, IndexEntry)>, onDisk: seq<Fingerprint>): (fps: seq<Fingerprint>)
    ensures forall fp :: fp in fps <==> fp in onDisk && forall p :: p in list ==> p.1.fingerprint != fp
  {
    if onDisk == [] then []
    else
      var rest := OrphanedBlobs(list, onDisk[1..]);
      assert onDisk == [onDisk[0]] + onDisk[1..];
      if exists p :: p in list && p.1.fingerprint == onDisk[0] then rest else [onDisk[0]] + rest
  }

  lemma {:induction false} MissingDistinct(list: seq<(ItemId, IndexEntry)>, onDisk: set<Fingerprint>)
    requires FirstsDistinct(list)
    ensures Distinct(MissingBlobs(list, onDisk))
  {
    if list != [] {
      assert FirstsDistinct(list[1..]);
      MissingDistinct(list[1..], onDisk);
      var rest := MissingBlobs(list[1..], onDisk);
      forall i | 0 <= i < |rest| ensures rest[i] != list[0].0 {
        assert rest[i] in rest;
        var p :| p in list[1..] && p.0 == rest[i];
        var k :| 0 <= k < |list[1..]| && list[1..][k] == p;
        assert list[k + 1] == p;
      }
    }
  }

  lemma {:induction false} OrphansDistinct(list: seq<(ItemId, IndexEntry)>, onDisk: seq<Fingerprint>)
    requires Distinct(onDisk)
    ensures Distinct(OrphanedBlobs(list, onDisk))
  {
    if onDisk != [] {
      OrphansDistinct(list, onDisk[1..]);
      var rest := OrphanedBlobs(list, onDisk[1..]);
      forall i | 0 <= i < |rest| ensures rest[i] != onDisk[0] {
        assert rest[i] in onDisk[1..];
      }
    }
  }

  ghost predicate FirstsDistinct<S, T>(s: seq<(S, T)>) {
    forall i, j :: 0 <= i < j < |s| ==> s[i].0 != s[j].0
  }

  method PartitionOrphans(orphans: seq<(Fingerprint, BlobShape)>)
    returns (reclaimable: seq<Fingerprint>, kept: seq<Fingerprint>)
    ensures forall fp :: fp in reclaimable <==> exists o :: o in orphans && o.0 == fp && o.1 == Complete
    ensures forall fp :: fp in kept <==> exists o :: o in orphans && o.0 == fp && o.1 != Complete
    ensures |reclaimable| + |kept| == |orphans|
    ensures FirstsDistinct(orphans) ==> Distinct(reclaimable) && Distinct(kept)
  {
    reclaimable, kept := [], [];
    for i := 0 to |orphans|
      invariant forall fp :: fp in reclaimable <==> exists o :: o in orphans[..i] && o.0 == fp && o.1 == Complete
      invariant forall fp :: fp in kept <==> exists o :: o in orphans[..i] && o.0 == fp && o.1 != Complete
      invariant |reclaimable| + |kept| == i
      invariant FirstsDistinct(orphans) ==> Distinct(reclaimable) && Distinct(kept)
    {
      if FirstsDistinct(orphans) {
        forall fp | fp in reclaimable || fp in kept ensures fp != orphans[i].0 {
          var o :| o in orphans[..i] && o.0 == fp;
          var k :| 0 <= k < i && orphans[..i][k] == o;
          assert orphans[k] == o;
        }
        PushedDistinct(if orphans[i].1 == Complete then reclaimable else kept, orphans[i].0);
      }
      assert orphans[..i + 1] == orphans[..i] + [orphans[i]];
      if orphans[i].1.IsReclaimable() {
        reclaimable := reclaimable + [orphans[i].0];
      } else {
        kept := kept + [orphans[i].0];
      }
    }
    assert orphans[..|orphans|] == orphans;
  }

  // ---- The store ----

  class IndexStore {
    var rows: Rows
    var lastSeq: u64

    /** Open over stored rows, counting on from the newest read among them. */
    constructor Open(stored: Rows)
      ensures rows == stored && IsHighWater(stored, lastSeq)
    {
      rows, lastSeq := stored, 0;
      new;
      var list := All();
      var entries := seq(|list|, i requires 0 <= i < |list| => list[i].1);
      lastSeq := HighWater(entries);
      forall id | id in rows ensures rows[id].lastRead <= lastSeq {
        assert (id, rows[id]) in list;
        var i :| 0 <= i < |list| && list[i] == (id, rows[id]);
        assert entries[i] in entries;
      }
      if lastSeq != 0 {
        var e :| e in entries && e.lastRead == lastSeq;
        var i :| 0 <= i < |entries| && entries[i] == e;
        assert list[i] in list;
      }
    }

    method Tick() returns (s: u64)
      modifies this`lastSeq
      ensures s == lastSeq == NextSeq(old(lastSeq))
    {
      lastSeq := NextSeq(lastSeq);
      s := lastSeq;
    }

    method Get(id: ItemId) returns (entry: Option<IndexEntry>)
      ensures entry == if id in rows then Some(rows[id]) else None
    {
      entry := if id in rows then Some(rows[id]) else None;
    }

    method Put(id: ItemId, entry: IndexEntry)
      modifies this`rows
      ensures rows == old(rows)[id := entry]
    {
      rows := rows[id := entry];
    }

    method Touch(id: ItemId)
      modifies this
      ensures Ledger(rows, lastSeq) == Apply(old(Ledger(rows, lastSeq)), Read(id))
    {
      var entry := Get(id);
      if entry.Some? {
        var s := Tick();
        Put(id, entry.value.Touched(s));
      }
    }

    method Remove(id: ItemId)
      modifies this`rows
      ensures rows == old(rows) - {id}
    {
      rows := rows - {id};
    }

    method All() returns (list: seq<(ItemId, IndexEntry)>)
      ensures IsListing(list, rows)
    {
      var stored := rows;
      var keys := ListKeys(stored);
      list := seq(|keys|, i requires 0 <= i < |keys| => assert keys[i] in keys; (keys[i], stored[keys[i]]));
      forall p ensures p in list <==> p.0 in rows && rows[p.0] == p.1 {
        if p.0 in rows && rows[p.0] == p.1 {
          var i :| 0 <= i < |keys| && keys[i] == p.0;
          assert list[i] == p;
        }
      }
    }

    method ForWorld(world: Uuid) returns (list: seq<(ItemId, IndexEntry)>)
      ensures IsListing(list, WorldRows(rows, world))
    {
      var all := All();
      list := [];
      for i := 0 to |all|
        invariant FirstsDistinct(list)
        invariant forall p :: p in list <==> p in all[..i] && p.1.worldId == world
      {
        assert all[..i + 1] == all[..i] + [all[i]];
        assert all[i] in all;
        if all[i].1.worldId == world {
          assert forall j :: 0 <= j < |list| ==> list[j] in list;
          list := list + [all[i]];
        }
      }
      assert all[..|all|] == all;
    }

    method RemoveWorld(world: Uuid)
      modifies this`rows
      ensures rows == OtherRows(old(rows), world)
    {
      var list := ForWorld(world);
      for i := 0 to |list|
        invariant rows == old(rows) - set p | p in list[..i] :: p.0
      {
        assert list[..i + 1] == list[..i] + [list[i]];
        Remove(list[i].0);
      }
      assert list[..|list|] == list;
      assert forall id :: id in old(rows) && old(rows)[id].worldId == world ==> (id, old(rows)[id]) in list;
    }
  }

  function WorldRows(rows: Rows, world: Uuid): Rows {
    map id | id in rows && rows[id].worldId == world :: rows[id]
  }

  function OtherRows(rows: Rows, world: Uuid): Rows {
    map id | id in rows && rows[id].worldId != world :: rows[id]
  }

  // ---- Recency over whole runs ----

  datatype Ledger = Ledger(rows: Rows, lastSeq: u64)

  datatype Access =
    | Store(id: ItemId, fingerprint: Fingerprint, byteSize: u64, world: Uuid)
    | Read(id: ItemId)
    | Forget(id: ItemId)
    | Reload

  /** The mark a reopened store counts on from. */
  ghost function Recovered(rows: Rows): (mark: u64)
    ensures IsHighWater(rows, mark)
  {
    HighWaterExists(rows);
    var mark :| IsHighWater(rows, mark);
    mark
  }

  ghost function Apply(l: Ledger, a: Access): Ledger {
    match a
    case Store(id, fp, size, world) =>
      var s := NextSeq(l.lastSeq);
      Ledger(l.rows[id := IndexEntry(fp, size, s, world)], s)
    case Read(id) =>
      if id in l.rows then
        var s := NextSeq(l.lastSeq);
        Ledger(l.rows[id := l.rows[id].Touched(s)], s)
      else l
    case Forget(id) => l.(rows := l.rows - {id})
    case Reload => l.(lastSeq := Recovered(l.rows))
  }

  ghost function Run(accesses: seq<Access>): Ledger {
    if accesses == [] then Ledger(map[], 0)
    else Apply(Run(accesses[..|accesses| - 1]), accesses[|accesses| - 1])
  }

  function Except(s: seq<ItemId>, id: ItemId): (r: seq<ItemId>)
    ensures forall x :: x in r <==> x in s && x != id
  {
    if s == [] then []
    else
      assert s == [s[0]] + s[1..];
      if s[0] == id then Except(s[1..], id) else [s[0]] + Except(s[1..], id)
  }

  /** An access moves its item to the back; forgetting takes it out. */
  function Reorder(order: seq<ItemId>, a: Access): seq<ItemId> {
    match a
    case Store(id, _, _, _) => Except(order, id) + [id]
    case Read(id) => if id in order then Except(order, id) + [id] else order
    case Forget(id) => Except(order, id)
    case Reload => order
  }

  /** The held items in the true order of their last access, read off the history alone. */
  function Recency(accesses: seq<Access>): seq<ItemId> {
    if accesses == [] then []
    else Reorder(Recency(accesses[..|accesses| - 1]), accesses[|accesses| - 1])
  }

  lemma HighWaterExists(rows: Rows)
    ensures exists mark :: IsHighWater(rows, mark)
  {
    if rows == map[] {
      assert IsHighWater(rows, 0);
    } else {
      var id :| id in rows;
      HighWaterExists(rows - {id});
      var mark: u64 :| IsHighWater(rows - {id}, mark);
      var higher: u64 := Max(mark, rows[id].lastRead);
      if higher == mark && mark != 0 {
        var top :| top in rows - {id} && rows[top].lastRead == mark;
      }
      assert forall x :: x in rows && x != id ==> x in rows - {id};
      assert IsHighWater(rows, higher);
    }
  }

  ghost predicate Rising(rows: Rows, order: seq<ItemId>) {
    && (forall x :: x in order ==> x in rows)
    && (forall i, j :: 0 <= i < j < |order| ==>
         order[i] in rows && order[j] in rows && rows[order[i]].lastRead < rows[order[j]].lastRead)
  }

  /** Along `order`, which is all of the rows, the read numbers climb, and none is ahead of the counter. */
  ghost predicate Climbs(l: Ledger, order: seq<ItemId>) {
    && (forall id :: id in l.rows ==> id in order && l.rows[id].lastRead <= l.lastSeq)
    && Rising(l.rows, order)
  }

  lemma {:induction false} ExceptRises(rows: Rows, order: seq<ItemId>, id: ItemId)
    requires Rising(rows, order)
    ensures Rising(rows, Except(order, id))
  {
    if order != [] {
      assert Rising(rows, order[1..]);
      ExceptRises(rows, order[1..], id);
      var rest := Except(order[1..], id);
      forall j | 0 <= j < |rest| ensures rows[order[0]].lastRead < rows[rest[j]].lastRead {
        assert rest[j] in order[1..];
        var k :| 0 <= k < |order[1..]| && order[1..][k] == rest[j];
        assert order[k + 1] == rest[j];
      }
    }
  }

  lemma OthersStillRise(rows: Rows, order: seq<ItemId>, id: ItemId, entry: IndexEntry)
    requires Rising(rows, order) && id !in order
    ensures Rising(rows[id := entry], order)
  {
    assert forall i :: 0 <= i < |order| ==> order[i] in order;
  }

  lemma PushedBack(rows: Rows, order: seq<ItemId>, id: ItemId)
    requires Rising(rows, order) && id in rows
    requires forall x :: x in order ==> rows[x].lastRead < rows[id].lastRead
    ensures Rising(rows, order + [id])
  {
    assert forall i :: 0 <= i < |order| ==> order[i] in order;
  }

  lemma NewestLast(l: Ledger, order: seq<ItemId>, id: ItemId, entry: IndexEntry)
    requires Climbs(l, order) && l.lastSeq <= entry.lastRead
    requires forall x :: x in l.rows && x != id ==> l.rows[x].lastRead < entry.lastRead
    ensures Climbs(Ledger(l.rows[id := entry], entry.lastRead), Except(order, id) + [id])
  {
    ExceptRises(l.rows, order, id);
    OthersStillRise(l.rows, Except(order, id), id, entry);
    PushedBack(l.rows[id := entry], Except(order, id), id);
  }

  lemma ForgottenClimbs(l: Ledger, order: seq<ItemId>, id: ItemId)
    requires Climbs(l, order)
    ensures Climbs(l.(rows := l.rows - {id}), Except(order, id))
  {
    ExceptRises(l.rows, order, id);
    var r := Except(order, id);
    assert forall i :: 0 <= i < |r| ==> r[i] in r;
  }

  lemma ReloadedClimbs(l: Ledger, order: seq<ItemId>)
    requires Climbs(l, order)
    ensures Climbs(Apply(l, Reload), order)
    ensures Apply(l, Reload).lastSeq <= l.lastSeq
  {
    var mark := Recovered(l.rows);
    if mark != 0 {
      var id :| id in l.rows && l.rows[id].lastRead == mark;
    }
  }

  /**
   * The access leaves the rows' numbers apart: it numbers nothing, or the counter is below the top, or
   * no other row is numbered at the top.
   */
  ghost predicate KeepsApart(l: Ledger, a: Access) {
    a.Store? || (a.Read? && a.id in l.rows) ==>
      l.lastSeq < U64_MAX || forall x :: x in l.rows && x != a.id ==> l.rows[x].lastRead < U64_MAX
  }

  lemma StoreClimbsExactly(l: Ledger, order: seq<ItemId>, a: Access)
    requires Climbs(l, order) && a.Store?
    ensures Climbs(Apply(l, a), Reorder(order, a)) <==> KeepsApart(l, a)
  {
    var entry := IndexEntry(a.fingerprint, a.byteSize, NextSeq(l.lastSeq), a.world);
    if KeepsApart(l, a) {
      NewestLast(l, order, a.id, entry);
    } else {
      var x :| x in l.rows && x != a.id && l.rows[x].lastRead == U64_MAX;
      TopNumberTies(Apply(l, a), Except(order, a.id), a.id, x);
    }
  }

  /** An item at the top number cannot come before another. */
  lemma TopNumberTies(l: Ledger, order: seq<ItemId>, id: ItemId, x: ItemId)
    requires x in order && x in l.rows && l.rows[x].lastRead == U64_MAX
    ensures !Climbs(l, order + [id])
  {
    var i :| 0 <= i < |order| && order[i] == x;
    assert (order + [id])[i] == x && (order + [id])[|order|] == id;
  }

  /** Reading a held item orders it as storing the same content again would. */
  lemma ReadIsStore(l: Ledger, order: seq<ItemId>, id: ItemId)
    requires Climbs(l, order) && id in l.rows
    ensures var again := Store(id, l.rows[id].fingerprint, l.rows[id].byteSize, l.rows[id].worldId);
            Apply(l, Read(id)) == Apply(l, again) && Reorder(order, Read(id)) == Reorder(order, again)
  {
  }

  /** An access keeps the numbers climbing in the order of last access exactly when it leaves them apart. */
  lemma AccessClimbsExactly(l: Ledger, order: seq<ItemId>, a: Access)
    requires Climbs(l, order)
    ensures Climbs(Apply(l, a), Reorder(order, a)) <==> KeepsApart(l, a)
  {
    match a
    case Store(_, _, _, _) => StoreClimbsExactly(l, order, a);
    case Read(id) =>
      if id in l.rows {
        ReadIsStore(l, order, id);
        StoreClimbsExactly(l, order, Store(id, l.rows[id].fingerprint, l.rows[id].byteSize, l.rows[id].worldId));
      }
    case Forget(id) => ForgottenClimbs(l, order, id);
    case Reload => ReloadedClimbs(l, order);
  }

  /** After the first `k` accesses of the run the numbers climb in the order of last access. */
  ghost predicate ClimbsAfter(accesses: seq<Access>, k: nat)
    requires k <= |accesses|
  {
    Climbs(Run(accesses[..k]), Recency(accesses[..k]))
  }

  ghost predicate AlwaysApart(accesses: seq<Access>) {
    forall k :: 0 <= k < |accesses| ==> KeepsApart(Run(accesses[..k]), accesses[k])
  }

  lemma NextAccess(accesses: seq<Access>, k: nat)
    requires k < |accesses| && ClimbsAfter(accesses, k)
    ensures ClimbsAfter(accesses, k + 1) <==> KeepsApart(Run(accesses[..k]), accesses[k])
  {
    assert accesses[..k + 1][..k] == accesses[..k];
    AccessClimbsExactly(Run(accesses[..k]), Recency(accesses[..k]), accesses[k]);
  }

  lemma {:induction false} ApartClimbs(accesses: seq<Access>, k: nat)
    requires k <= |accesses| && AlwaysApart(accesses)
    ensures ClimbsAfter(accesses, k)
  {
    if k > 0 {
      ApartClimbs(accesses, k - 1);
      NextAccess(accesses, k - 1);
    } else {
      assert accesses[..0] == [];
    }
  }

  /** A run keeps true order throughout if and only if each of its accesses leaves the numbers apart. */
  lemma RunClimbsExactly(accesses: seq<Access>)
    ensures (forall k :: 0 <= k <= |accesses| ==> ClimbsAfter(accesses, k)) <==> AlwaysApart(accesses)
  {
    if AlwaysApart(accesses) {
      forall k | 0 <= k <= |accesses| ensures ClimbsAfter(accesses, k) {
        ApartClimbs(accesses, k);
      }
    } else {
      var k :| 0 <= k < |accesses| && !KeepsApart(Run(accesses[..k]), accesses[k]);
      if ClimbsAfter(accesses, k) {
        NextAccess(accesses, k);
      }
    }
  }

  lemma {:induction false} CounterIsBounded(accesses: seq<Access>)
    requires |accesses| <= U64_MAX
    ensures Run(accesses).lastSeq <= |accesses|
    ensures forall id :: id in Run(accesses).rows ==> Run(accesses).rows[id].lastRead <= |accesses|
  {
    if accesses != [] {
      CounterIsBounded(accesses[..|accesses| - 1]);
    }
  }

  /** No run of fewer accesses than there are numbers reaches the top too early. */
  lemma ShortRunsStayApart(accesses: seq<Access>)
    requires |accesses| <= U64_MAX
    ensures AlwaysApart(accesses)
  {
    forall k | 0 <= k < |accesses| ensures KeepsApart(Run(accesses[..k]), accesses[k]) {
      CounterIsBounded(accesses[..k]);
    }
  }

  lemma RunClimbs(accesses: seq<Access>)
    requires |accesses| <= U64_MAX || AlwaysApart(accesses)
    ensures Climbs(Run(accesses), Recency(accesses))
  {
    if |accesses| <= U64_MAX {
      ShortRunsStayApart(accesses);
    }
    ApartClimbs(accesses, |accesses|);
    assert accesses[..|accesses|] == accesses;
  }

  lemma ReadOrder()
    ensures Comparable(ReadEarlier)
  {
  }

  /** A listing already in read order is what sorting any other listing gives. */
  lemma SortedListing(list: seq<(ItemId, IndexEntry)>, sorted: seq<(ItemId, IndexEntry)>, rows: Rows)
    requires IsListing(list, rows) && IsListing(sorted, rows) && SortedBy(sorted, ReadEarlier)
    ensures SortBy(list, ReadEarlier) == sorted
  {
    ReadOrder();
    MultisetOfDistinct(list, sorted);
    SortBySorts(list, ReadEarlier);
    SortedUnique(sorted, SortBy(list, ReadEarlier), ReadEarlier);
  }

  /**
   * However a run stores, reads, forgets and reopens, sorting the surviving rows by read number
   * gives the true order of their last access, though the counter is rederived at each reopening;
   * every run of fewer accesses than there are numbers is one of these.
   */
  lemma LruIsTrueRecency(accesses: seq<Access>, list: seq<(ItemId, IndexEntry)>)
    requires |accesses| <= U64_MAX || AlwaysApart(accesses)
    requires IsListing(list, Run(accesses).rows)
    ensures LruOrder(list) == Recency(accesses)
  {
    RunClimbs(accesses);
    ClimbIsLruOrder(Run(accesses), Recency(accesses), list);
  }

  lemma ClimbIsLruOrder(l: Ledger, order: seq<ItemId>, list: seq<(ItemId, IndexEntry)>)
    requires Climbs(l, order) && IsListing(list, l.rows)
    ensures LruOrder(list) == order
  {
    var rows := l.rows;
    var pairs := seq(|order|, i requires 0 <= i < |order| => assert order[i] in order; (order[i], rows[order[i]]));
    forall p: (ItemId, IndexEntry) | p.0 in rows && rows[p.0] == p.1 ensures p in pairs {
      var i :| 0 <= i < |order| && order[i] == p.0;
      assert pairs[i] == p;
    }
    SortedListing(list, pairs, rows);
    assert PairIds(pairs) == order;
  }

  /** Past the last number there is no order left to keep: two reads then tie, and the id decides. */
  lemma FrozenCounterLosesOrder(fp: Fingerprint)
    ensures var first, second := Store(CanvasAsset(2), fp, 1, 0), Store(CanvasAsset(1), fp, 1, 0);
            var rows := Apply(Apply(Ledger(map[], U64_MAX), first), second).rows;
            forall list :: IsListing(list, rows) ==> LruOrder(list) == [second.id, first.id]
  {
    var entry := IndexEntry(fp, 1, U64_MAX, 0);
    var rows: Rows := map[CanvasAsset(2) := entry, CanvasAsset(1) := entry];
    var sorted := [(CanvasAsset(1), entry), (CanvasAsset(2), entry)];
    forall list | IsListing(list, rows) ensures LruOrder(list) == [CanvasAsset(1), CanvasAsset(2)] {
      assert forall p :: p in sorted <==> p == sorted[0] || p == sorted[1];
      SortedListing(list, sorted, rows);
      assert PairIds(sorted) == [CanvasAsset(1), CanvasAsset(2)];
    }
  }
}
