/** The storage passes, each run by one tab with nothing failing under it. */
module Sync {
  import opened Items
  import opened Sorting
  import opened Fingerprints
  import opened Index
  import opened Opfs
  import opened Delta
  import B = Budget

  // ---- What the two stores say about each other ----

  predicate Referenced(rows: Rows, world: Uuid, fp: Fingerprint) {
    exists id :: id in rows && rows[id].worldId == world && rows[id].fingerprint == fp
  }

  function FileOf(entry: IndexEntry): BlobKey { (entry.worldId, entry.fingerprint) }

  /** Every row's file is finished. */
  ghost predicate Consistent(rows: Rows, files: Files) {
    forall id :: id in rows ==> ShapeOf(files, FileOf(rows[id])) == Complete
  }

  /** The manifest to send for one world. */
  method ManifestForWorld(world: Uuid, entries: seq<(ItemId, IndexEntry)>, ghost rows: Rows)
    returns (manifest: Manifest)
    requires IsListing(entries, rows)
    ensures manifest == HeldIn(rows, world)
  {
    manifest := map[];
    for i := 0 to |entries|
      invariant forall id :: id in manifest <==>
                             id in rows && rows[id].worldId == world && (id, rows[id]) in entries[..i]
      invariant forall id :: id in manifest ==> manifest[id] == rows[id].fingerprint
    {
      assert entries[..i + 1] == entries[..i] + [entries[i]];
      assert entries[i] in entries;
      if entries[i].1.worldId == world {
        manifest := manifest[entries[i].0 := entries[i].1.fingerprint];
      }
    }
    assert entries[..|entries|] == entries;
  }

  function HeldIn(rows: Rows, world: Uuid): Manifest {
    map id | id in rows && rows[id].worldId == world :: rows[id].fingerprint
  }

  // ---- What the index weighs ----

  ghost function AnyKey(rows: Rows): (id: ItemId)
    requires rows != map[]
    ensures id in rows
  {
    var id :| id in rows; id
  }

  ghost function BytesOf(rows: Rows): nat {
    if rows == map[] then 0
    else
      var id := AnyKey(rows);
      rows[id].byteSize + BytesOf(rows - {id})
  }

  lemma {:induction false} BytesWithout(rows: Rows, id: ItemId)
    requires id in rows
    ensures BytesOf(rows) == rows[id].byteSize + BytesOf(rows - {id})
    decreases |rows|
  {
    var any := AnyKey(rows);
    if any != id {
      BytesWithout(rows - {any}, id);
      BytesWithout(rows - {id}, any);
      assert rows - {any} - {id} == rows - {id} - {any};
    }
  }

  function KeptRows(rows: Rows, gone: set<Uuid>): Rows {
    map id | id in rows && rows[id].worldId !in gone :: rows[id]
  }

  lemma ListingTail(list: seq<(ItemId, IndexEntry)>, rows: Rows)
    requires IsListing(list, rows) && list != []
    ensures list[0].0 in rows && rows[list[0].0] == list[0].1
    ensures IsListing(list[1..], rows - {list[0].0})
  {
    assert list[0] in list;
    assert list == [list[0]] + list[1..];
    forall p | p in list[1..] ensures p.0 != list[0].0 {
      var i :| 0 <= i < |list[1..]| && list[1..][i] == p;
      assert list[i + 1] == p;
    }
  }

  lemma EmptyListing(rows: Rows)
    requires IsListing([], rows)
    ensures rows == map[]
  {
    assert forall id :: id in rows ==> (id, rows[id]) !in [];
  }

  /** Summing any listing gives the same total, whatever worlds are left out of it. */
  lemma {:induction false} ListingBytes(list: seq<(ItemId, IndexEntry)>, rows: Rows, gone: set<Uuid>)
    requires IsListing(list, rows)
    ensures B.TotalBytes(B.Holding(BudgetEntries(list), gone)) == BytesOf(KeptRows(rows, gone))
  {
    if list == [] {
      EmptyListing(rows);
    } else {
      ListingTail(list, rows);
      var id, rest := list[0].0, rows - {list[0].0};
      ListingBytes(list[1..], rest, gone);
      var more := BudgetEntries(list[1..]);
      assert BudgetEntries(list)[1..] == more;
      if rows[id].worldId in gone {
        assert KeptRows(rows, gone) == KeptRows(rest, gone);
      } else {
        BytesWithout(KeptRows(rows, gone), id);
        assert KeptRows(rows, gone) - {id} == KeptRows(rest, gone);
        assert ([BudgetEntries(list)[0]] + B.Holding(more, gone))[1..] == B.Holding(more, gone);
      }
    }
  }

  // ---- Evicting ----

  datatype ApplyOutcome = ApplyOutcome(evicted: nat, blobsRemoved: nat)

  /** The files of `world` that the evicted rows named and no surviving row of it does. */
  function Released(before: Rows, after: Rows, world: Uuid): set<BlobKey> {
    set id | id in before && id !in after && !Referenced(after, world, before[id].fingerprint)
      :: (world, before[id].fingerprint)
  }

  ghost predicate AllInWorld(rows: Rows, ids: set<ItemId>, world: Uuid) {
    forall id :: id in ids && id in rows ==> rows[id].worldId == world
  }

  method StillReferenced(index: IndexStore, world: Uuid, fp: Fingerprint) returns (r: bool)
    ensures r <==> Referenced(index.rows, world, fp)
  {
    var rows := index.ForWorld(world);
    r := false;
    for i := 0 to |rows|
      invariant r <==> exists p :: p in rows[..i] && p.1.fingerprint == fp
    {
      assert rows[..i + 1] == rows[..i] + [rows[i]];
      r := r || rows[i].1.fingerprint == fp;
    }
    assert rows[..|rows|] == rows;
    if Referenced(index.rows, world, fp) {
      var id :| id in index.rows && index.rows[id].worldId == world && index.rows[id].fingerprint == fp;
      assert id in WorldRows(index.rows, world);
      assert (id, index.rows[id]) in rows;
    }
  }

  lemma OneRowLess(rows: Rows, id: ItemId, world: Uuid, fp: Fingerprint)
    requires id in rows
    ensures Referenced(rows - {id}, world, fp) ==> Referenced(rows, world, fp)
    ensures Referenced(rows, world, fp) && FileOf(rows[id]) != (world, fp) ==> Referenced(rows - {id}, world, fp)
  {
    if Referenced(rows, world, fp) && FileOf(rows[id]) != (world, fp) {
      var x :| x in rows && rows[x].worldId == world && rows[x].fingerprint == fp;
      assert x in rows - {id};
    }
  }

  lemma ReleasedStep(before: Rows, now: Rows, id: ItemId, world: Uuid)
    requires id in now && forall x :: x in now ==> x in before && now[x] == before[x]
    ensures Released(before, now - {id}, world) == Released(before, now, world) +
            if Referenced(now - {id}, world, now[id].fingerprint) then {} else {(world, now[id].fingerprint)}
    ensures now[id].worldId == world ==> (world, now[id].fingerprint) !in Released(before, now, world)
  {
    forall fp {
      OneRowLess(now, id, world, fp);
    }
  }

  /** The loop both evicting passes run: the row goes first, and its file with the last row naming it. */
  method EvictItems(store: OpfsStore, index: IndexStore, world: Uuid, ids: seq<ItemId>)
    returns (outcome: ApplyOutcome, freed: nat)
    modifies store`files, index`rows
    ensures index.rows == old(index.rows) - Members(ids)
    ensures store.files == old(store.files) - Released(old(index.rows), index.rows, world)
    ensures outcome.evicted == |ids|
    ensures AllInWorld(old(index.rows), Members(ids), world) ==>
              outcome.blobsRemoved == |Released(old(index.rows), index.rows, world)|
    ensures freed == BytesOf(old(index.rows)) - BytesOf(index.rows)
    ensures Distinct(ids) && Members(ids) <= old(index.rows).Keys ==> |old(index.rows)| == |index.rows| + |ids|
  {
    outcome, freed := ApplyOutcome(0, 0), 0;
    ghost var before := index.rows;
    for i := 0 to |ids|
      invariant index.rows == before - Members(ids[..i])
      invariant store.files == old(store.files) - Released(before, index.rows, world)
      invariant outcome.evicted == i
      invariant AllInWorld(before, Members(ids), world) ==>
                  outcome.blobsRemoved == |Released(before, index.rows, world)|
      invariant freed == BytesOf(before) - BytesOf(index.rows)
    {
      OneMoreMember(ids, i);
      var blobs, bytes := EvictItem(store, index, world, ids[i], before);
      outcome := ApplyOutcome(outcome.evicted + 1, outcome.blobsRemoved + blobs);
      freed := freed + bytes;
    }
    assert ids[..|ids|] == ids;
    if Distinct(ids) && Members(ids) <= before.Keys {
      DistinctSize(ids);
      assert index.rows.Keys == before.Keys - Members(ids);
      assert |before| == |before.Keys| && |index.rows| == |index.rows.Keys|;
    }
  }

  lemma OneMoreMember<T>(s: seq<T>, i: nat)
    requires i < |s|
    ensures Members(s[..i + 1]) == Members(s[..i]) + {s[i]} && s[i] in Members(s)
  {
    assert s[..i + 1] == s[..i] + [s[i]];
  }

  method EvictItem(store: OpfsStore, index: IndexStore, world: Uuid, id: ItemId, ghost before: Rows)
    returns (blobs: nat, bytes: nat)
    requires forall x :: x in index.rows ==> x in before && index.rows[x] == before[x]
    modifies store`files, index`rows
    ensures index.rows == old(index.rows) - {id}
    ensures bytes == BytesOf(old(index.rows)) - BytesOf(index.rows)
    ensures forall files: Files :: old(store.files) == files - Released(before, old(index.rows), world) ==>
              store.files == files - Released(before, index.rows, world)
    ensures (id in old(index.rows) ==> before[id].worldId == world) ==>
              |Released(before, index.rows, world)| == |Released(before, old(index.rows), world)| + blobs
  {
    ghost var now := index.rows;
    var entry := index.Get(id);
    index.Remove(id);
    if entry == None {
      assert index.rows == now;
      return 0, 0;
    }
    BytesWithout(now, id);
    ReleasedStep(before, now, id, world);
    bytes := entry.value.byteSize;
    var referenced := StillReferenced(index, world, entry.value.fingerprint);
    if referenced {
      return 0, bytes;
    }
    store.RemoveBlob(world, entry.value.fingerprint);
    blobs := 1;
  }

  /** Carry out the eviction half of a plan. */
  method ApplyPlan(store: OpfsStore, index: IndexStore, world: Uuid, plan: SyncPlan) returns (outcome: ApplyOutcome)
    modifies store`files, index`rows
    ensures index.rows == old(index.rows) - Members(plan.evict)
    ensures store.files == old(store.files) - Released(old(index.rows), index.rows, world)
    ensures outcome.evicted == |plan.evict|
    ensures AllInWorld(old(index.rows), Members(plan.evict), world) ==>
              outcome.blobsRemoved == |Released(old(index.rows), index.rows, world)|
  {
    var freed: nat;
    outcome, freed := EvictItems(store, index, world, plan.evict);
  }

  /** Evicting leaves every surviving row its file, shared files included. */
  lemma EvictionKeepsSurvivors(before: Rows, after: Rows, files: Files, world: Uuid)
    requires forall id :: id in after ==> id in before && after[id] == before[id]
    requires Consistent(before, files)
    ensures Consistent(after, files - Released(before, after, world))
  {
    forall id | id in after ensures FileOf(after[id]) !in Released(before, after, world) {
      assert Referenced(after, after[id].worldId, after[id].fingerprint);
    }
  }

  /** File fetched bytes under the name they were promised by, then index them as the newest read. */
  method RecordFetched(store: OpfsStore, index: IndexStore, key: SessionKey, nonce: Nonce,
                       world: Uuid, id: ItemId, fp: Fingerprint, bytes: seq<bv8>)
    returns (r: Result<(), IntegrityError>)
    requires |bytes| <= U64_MAX
    modifies store`files, index
    ensures r.Ok? <==> store.hash(bytes) == fp
    ensures r.Err? ==> store.files == old(store.files) && index.rows == old(index.rows)
    ensures r.Ok? ==>
              var sealed := SealEnvelope(nonce, store.cipher.encrypt(key, nonce, bytes));
              store.files == old(store.files)[(world, fp) := sealed]
    ensures r.Ok? ==> Ledger(index.rows, index.lastSeq) ==
                      Apply(old(Ledger(index.rows, index.lastSeq)), Store(id, fp, |bytes|, world))
  {
    r := store.WriteBlob(world, fp, bytes, key, nonce);
    if r.Err? {
      return;
    }
    var s := index.Tick();
    index.Put(id, IndexEntry(fp, |bytes|, s, world));
  }

  // ---- Discarding a refused world ----

  datatype DiscardOutcome = DiscardOutcome(rows: nat, indexCleared: bool, blobsCleared: bool)

  method DiscardWorld(store: OpfsStore, index: IndexStore, world: Uuid) returns (outcome: DiscardOutcome)
    modifies store`files, index`rows
    ensures index.rows == OtherRows(old(index.rows), world)
    ensures store.files == OtherFiles(old(store.files), world)
    ensures outcome == DiscardOutcome(|WorldRows(old(index.rows), world)|, true, true)
  {
    var list := index.ForWorld(world);
    ListingSize(list, WorldRows(index.rows, world));
    index.RemoveWorld(world);
    store.RemoveWorld(world);
    outcome := DiscardOutcome(|list|, true, true);
  }

  lemma {:induction false} ListingSize(list: seq<(ItemId, IndexEntry)>, rows: Rows)
    requires IsListing(list, rows)
    ensures |list| == |rows|
  {
    if list == [] {
      EmptyListing(rows);
    } else {
      ListingTail(list, rows);
      ListingSize(list[1..], rows - {list[0].0});
      assert (rows - {list[0].0}).Keys == rows.Keys - {list[0].0};
    }
  }

  // ---- Repair ----

  datatype RepairOutcome = RepairOutcome(rowsDropped: nat, blobsReclaimed: nat, unfinishedKept: nat)

  /** Rows of the world whose file is not there at all. */
  function Lies(rows: Rows, files: Files, world: Uuid): set<ItemId> {
    set id | id in rows && rows[id].worldId == world && FileOf(rows[id]) !in files
  }

  /** Files of the world, of one shape, that no row names. */
  function Orphans(rows: Rows, files: Files, world: Uuid, shape: BlobShape): set<BlobKey> {
    set at | at in files && at.0 == world && !Referenced(rows, world, at.1) && ShapeOf(files, at) == shape
  }

  function RepairedRows(rows: Rows, files: Files, world: Uuid): Rows { rows - Lies(rows, files, world) }

  function RepairedFiles(rows: Rows, files: Files, world: Uuid): Files { files - Orphans(rows, files, world, Complete) }

  method RemoveRows(index: IndexStore, ids: seq<ItemId>)
    modifies index`rows
    ensures index.rows == old(index.rows) - Members(ids)
  {
    for i := 0 to |ids|
      invariant index.rows == old(index.rows) - Members(ids[..i])
    {
      OneMoreMember(ids, i);
      index.Remove(ids[i]);
    }
    assert ids[..|ids|] == ids;
  }

  method ShapesOf(store: OpfsStore, world: Uuid, fps: seq<Fingerprint>) returns (shaped: seq<(Fingerprint, BlobShape)>)
    ensures |shaped| == |fps|
    ensures forall k :: 0 <= k < |fps| ==> shaped[k] == (fps[k], ShapeOf(store.files, (world, fps[k])))
  {
    shaped := [];
    for i := 0 to |fps|
      invariant |shaped| == i
      invariant forall k :: 0 <= k < i ==> shaped[k] == (fps[k], ShapeOf(store.files, (world, fps[k])))
    {
      var shape := store.BlobShapeAt(world, fps[i]);
      shaped := shaped + [(fps[i], shape)];
    }
  }

  method RemoveBlobs(store: OpfsStore, world: Uuid, fps: seq<Fingerprint>)
    modifies store`files
    ensures store.files == old(store.files) - NamesIn(fps, world)
  {
    for i := 0 to |fps|
      invariant store.files == old(store.files) - NamesIn(fps[..i], world)
    {
      assert fps[..i + 1] == fps[..i] + [fps[i]];
      assert NamesIn(fps[..i + 1], world) == NamesIn(fps[..i], world) + {(world, fps[i])};
      store.RemoveBlob(world, fps[i]);
    }
    assert fps[..|fps|] == fps;
  }

  /** Reconcile one world's rows with the files actually there. */
  method RepairWorld(store: OpfsStore, index: IndexStore, world: Uuid) returns (outcome: RepairOutcome)
    modifies store`files, index`rows
    ensures index.rows == RepairedRows(old(index.rows), old(store.files), world)
    ensures store.files == RepairedFiles(old(index.rows), old(store.files), world)
    ensures outcome == RepairOutcome(|Lies(old(index.rows), old(store.files), world)|,
                                     |Orphans(old(index.rows), old(store.files), world, Complete)|,
                                     |Orphans(old(index.rows), old(store.files), world, Incomplete)|)
  {
    ghost var rows, files := index.rows, store.files;
    var entries := index.ForWorld(world);
    var onDisk := store.ListFingerprints(world);
    var missing := MissingBlobs(entries, Members(onDisk));
    MissingAreLies(entries, onDisk, rows, files, world);
    RemoveRows(index, missing);
    var orphans := OrphanedBlobs(entries, onDisk);
    OrphansDistinct(entries, onDisk);
    OrphansAreUnnamed(entries, onDisk, rows, files, world);
    var shaped := ShapesOf(store, world, orphans);
    var reclaimable, kept := PartitionOrphans(shaped);
    PartedByShape(orphans, shaped, reclaimable, rows, files, world, Complete);
    PartedByShape(orphans, shaped, kept, rows, files, world, Incomplete);
    RemoveBlobs(store, world, reclaimable);
    outcome := RepairOutcome(|missing|, |reclaimable|, |kept|);
  }

  function NamesIn(fps: seq<Fingerprint>, world: Uuid): set<BlobKey> { set fp | fp in fps :: (world, fp) }

  lemma {:induction false} DistinctSize<T>(s: seq<T>)
    requires Distinct(s)
    ensures |Members(s)| == |s|
  {
    if s != [] {
      var last := |s| - 1;
      DistinctSize(s[..last]);
      assert s == s[..last] + [s[last]];
      assert Members(s) == Members(s[..last]) + {s[last]};
    }
  }

  lemma NamedSize(fps: seq<Fingerprint>, world: Uuid)
    requires Distinct(fps)
    ensures |NamesIn(fps, world)| == |fps|
  {
    var keys := seq(|fps|, i requires 0 <= i < |fps| => (world, fps[i]));
    forall fp | fp in fps ensures (world, fp) in keys {
      var i :| 0 <= i < |fps| && fps[i] == fp;
      assert keys[i] == (world, fp);
    }
    assert Members(keys) == NamesIn(fps, world);
    DistinctSize(keys);
  }

  lemma MissingAreLies(entries: seq<(ItemId, IndexEntry)>, onDisk: seq<Fingerprint>, rows: Rows, files: Files,
                       world: Uuid)
    requires IsListing(entries, WorldRows(rows, world))
    requires forall fp :: fp in onDisk <==> (world, fp) in files
    ensures Members(MissingBlobs(entries, Members(onDisk))) == Lies(rows, files, world)
    ensures |MissingBlobs(entries, Members(onDisk))| == |Lies(rows, files, world)|
  {
    var missing := MissingBlobs(entries, Members(onDisk));
    MissingDistinct(entries, Members(onDisk));
    DistinctSize(missing);
    forall id | id in Lies(rows, files, world) ensures id in missing {
      assert id in WorldRows(rows, world);
      assert (id, rows[id]) in entries;
    }
    assert Members(missing) == Lies(rows, files, world);
  }

  lemma OrphansAreUnnamed(entries: seq<(ItemId, IndexEntry)>, onDisk: seq<Fingerprint>, rows: Rows, files: Files,
                          world: Uuid)
    requires IsListing(entries, WorldRows(rows, world))
    requires forall fp :: fp in onDisk <==> (world, fp) in files
    ensures forall fp :: fp in OrphanedBlobs(entries, onDisk) <==> (world, fp) in files && !Referenced(rows, world, fp)
  {
    forall fp ensures Referenced(rows, world, fp) <==> exists p :: p in entries && p.1.fingerprint == fp {
      if Referenced(rows, world, fp) {
        var id :| id in rows && rows[id].worldId == world && rows[id].fingerprint == fp;
        assert id in WorldRows(rows, world);
        assert (id, rows[id]) in entries;
      }
    }
  }

  lemma PartedByShape(orphans: seq<Fingerprint>, shaped: seq<(Fingerprint, BlobShape)>, part: seq<Fingerprint>,
                      rows: Rows, files: Files, world: Uuid, shape: BlobShape)
    requires shape != Absent && Distinct(part) && |shaped| == |orphans|
    requires forall k :: 0 <= k < |orphans| ==> shaped[k] == (orphans[k], ShapeOf(files, (world, orphans[k])))
    requires forall fp :: fp in orphans <==> (world, fp) in files && !Referenced(rows, world, fp)
    requires forall fp :: fp in part <==>
               exists o :: o in shaped && o.0 == fp && (o.1 == Complete <==> shape == Complete)
    ensures NamesIn(part, world) == Orphans(rows, files, world, shape)
    ensures |part| == |Orphans(rows, files, world, shape)|
  {
    NamedSize(part, world);
    forall fp ensures fp in part <==> (world, fp) in Orphans(rows, files, world, shape) {
      if fp in part {
        var o :| o in shaped && o.0 == fp && (o.1 == Complete <==> shape == Complete);
        var k :| 0 <= k < |shaped| && shaped[k] == o;
        assert orphans[k] in orphans;
      }
      if (world, fp) in Orphans(rows, files, world, shape) {
        var k :| 0 <= k < |orphans| && orphans[k] == fp;
        assert shaped[k] in shaped;
      }
    }
    assert NamesIn(part, world) == Orphans(rows, files, world, shape);
  }

  /** The world's rows all name present files, and its finished files are all named. */
  ghost predicate Settled(rows: Rows, files: Files, world: Uuid) {
    Lies(rows, files, world) == {} && Orphans(rows, files, world, Complete) == {}
  }

  lemma RepairKeepsReferences(rows: Rows, files: Files, world: Uuid, at: BlobKey)
    requires at in files
    ensures Referenced(RepairedRows(rows, files, world), at.0, at.1) <==> Referenced(rows, at.0, at.1)
  {
    if Referenced(rows, at.0, at.1) {
      var id :| id in rows && rows[id].worldId == at.0 && rows[id].fingerprint == at.1;
      assert id in RepairedRows(rows, files, world);
    }
  }

  /** From any disagreement, a repair settles its world, and a second repair finds nothing to do. */
  lemma RepairSettles(rows: Rows, files: Files, world: Uuid)
    ensures var r, f := RepairedRows(rows, files, world), RepairedFiles(rows, files, world);
            && Settled(r, f, world)
            && RepairedRows(r, f, world) == r && RepairedFiles(r, f, world) == f
  {
    var r, f := RepairedRows(rows, files, world), RepairedFiles(rows, files, world);
    forall at | at in files {
      RepairKeepsReferences(rows, files, world, at);
    }
    forall id | id in r && r[id].worldId == world ensures FileOf(r[id]) in f {
      assert Referenced(rows, world, r[id].fingerprint);
    }
  }

  /** A repair drops only rows with no file and finished files with no row, all of them its own world's. */
  lemma RepairSparesTheRest(rows: Rows, files: Files, world: Uuid)
    ensures var r, f := RepairedRows(rows, files, world), RepairedFiles(rows, files, world);
            && (forall id :: id in rows && (rows[id].worldId != world || FileOf(rows[id]) in files) ==>
                  id in r && r[id] == rows[id])
            && (forall at :: at in files && (at.0 != world || ShapeOf(files, at) == Incomplete) ==>
                  at in f && f[at] == files[at])
            && (forall id :: id in r && FileOf(r[id]) in files ==> FileOf(r[id]) in f)
  {
    var r, f := RepairedRows(rows, files, world), RepairedFiles(rows, files, world);
    forall id | id in r && FileOf(r[id]) in files ensures FileOf(r[id]) in f {
      assert Referenced(rows, rows[id].worldId, rows[id].fingerprint);
    }
  }

  /**
   * A repair makes every row of its world readable exactly when none of them names an unfinished
   * file: such a row is a lie too, and the one the repair does not look for.
   */
  lemma RepairRestoresReadability(rows: Rows, files: Files, world: Uuid)
    ensures Consistent(WorldRows(RepairedRows(rows, files, world), world), RepairedFiles(rows, files, world)) <==>
            forall id :: id in rows && rows[id].worldId == world ==> ShapeOf(files, FileOf(rows[id])) != Incomplete
  {
    var r, f := RepairedRows(rows, files, world), RepairedFiles(rows, files, world);
    RepairSparesTheRest(rows, files, world);
    var mine := WorldRows(r, world);
    forall id | id in rows && rows[id].worldId == world && FileOf(rows[id]) in files
      ensures id in mine && mine[id] == rows[id] && ShapeOf(f, FileOf(rows[id])) == ShapeOf(files, FileOf(rows[id]))
    {
      assert id in r;
    }
    forall id | id in mine ensures FileOf(mine[id]) in files {
      assert id !in Lies(rows, files, world);
    }
  }

  // ---- The budget ----

  datatype BudgetOutcome = BudgetOutcome(limitBytes: u64, inUseBytes: u64, freedBytes: nat, evicted: nat,
                                         blobsRemoved: nat, insufficient: bool, unknownQuota: bool)

  function FilesIn(rows: Rows, worlds: set<Uuid>): set<BlobKey> {
    set id | id in rows && rows[id].worldId in worlds :: FileOf(rows[id])
  }

  lemma EntriesAreRows(list: seq<(ItemId, IndexEntry)>, rows: Rows)
    requires IsListing(list, rows)
    ensures B.OneRowPerItem(BudgetEntries(list))
    ensures forall e :: e in BudgetEntries(list) <==> e.id in rows && e == BudgetEntry(e.id, rows[e.id])
  {
    var entries := BudgetEntries(list);
    forall e ensures e in entries <==> e.id in rows && e == BudgetEntry(e.id, rows[e.id]) {
      if e in entries {
        var i :| 0 <= i < |entries| && entries[i] == e;
        assert list[i] in list;
      }
      if e.id in rows && e == BudgetEntry(e.id, rows[e.id]) {
        assert (e.id, rows[e.id]) in list;
        var i :| 0 <= i < |list| && list[i] == (e.id, rows[e.id]);
        assert entries[i] == e;
      }
    }
  }

  /** What the planner's promises say about the rows it was shown. */
  lemma PlanOverRows(list: seq<(ItemId, IndexEntry)>, rows: Rows, limit: u64, incoming: u64, open: Uuid,
                     plan: B.BudgetPlan)
    returns (gone: set<Uuid>)
    requires IsListing(list, rows)
    requires B.IsEvictionPlan(BudgetEntries(list), limit, incoming, open, plan)
    ensures open !in gone
    ensures Distinct(plan.evict)
    ensures forall id :: id in plan.evict <==> id in rows && rows[id].worldId in gone
    ensures BytesOf(KeptRows(rows, gone)) + incoming <= limit || KeptRows(rows, gone) == WorldRows(rows, open)
    ensures plan.insufficient <==> BytesOf(WorldRows(rows, open)) + incoming > limit
  {
    var entries := BudgetEntries(list);
    EntriesAreRows(list, rows);
    B.PlanNamesOnce(entries, limit, incoming, open, plan);
    gone := B.PlanReleasesWorlds(entries, limit, incoming, open, plan);
    OpenWorldBytes(list, rows, open);
    ListingBytes(list, rows, gone);
    ReleasedRows(list, rows, plan.evict, gone);
    if gone == B.RowWorlds(entries) - {open} {
      AllButOpen(list, rows, open);
    }
  }

  lemma ReleasedRows(list: seq<(ItemId, IndexEntry)>, rows: Rows, evict: seq<ItemId>, gone: set<Uuid>)
    requires IsListing(list, rows)
    requires forall id :: id in evict <==> exists e :: e in BudgetEntries(list) && e.id == id && e.worldId in gone
    ensures forall id :: id in evict <==> id in rows && rows[id].worldId in gone
  {
    EntriesAreRows(list, rows);
    forall id | id in rows ensures BudgetEntry(id, rows[id]) in BudgetEntries(list) {
    }
  }

  lemma AllButOpen(list: seq<(ItemId, IndexEntry)>, rows: Rows, open: Uuid)
    requires IsListing(list, rows)
    ensures KeptRows(rows, B.RowWorlds(BudgetEntries(list)) - {open}) == WorldRows(rows, open)
  {
    EntriesAreRows(list, rows);
    forall id | id in rows ensures rows[id].worldId in B.RowWorlds(BudgetEntries(list)) {
      assert BudgetEntry(id, rows[id]) in BudgetEntries(list);
    }
  }

  lemma OpenWorldBytes(list: seq<(ItemId, IndexEntry)>, rows: Rows, open: Uuid)
    requires IsListing(list, rows)
    ensures B.WorldBytes(BudgetEntries(list), open) == BytesOf(WorldRows(rows, open))
  {
    var entries := BudgetEntries(list);
    EntriesAreRows(list, rows);
    var others := B.RowWorlds(entries) - {open};
    ListingBytes(list, rows, others);
    B.InWorldIsHolding(entries, open, others);
    AllButOpen(list, rows, open);
  }

  /** Group the planned items by the world that holds them. */
  method GroupByWorld(index: IndexStore, evict: seq<ItemId>) returns (byWorld: map<Uuid, seq<ItemId>>)
    requires Distinct(evict) && forall id :: id in evict ==> id in index.rows
    ensures forall w, id :: w in byWorld && id in byWorld[w] <==> id in evict && index.rows[id].worldId == w
    ensures forall w :: w in byWorld ==> Distinct(byWorld[w]) && byWorld[w] != []
  {
    byWorld := map[];
    for i := 0 to |evict|
      invariant forall w, id :: w in byWorld && id in byWorld[w] <==> id in evict[..i] && index.rows[id].worldId == w
      invariant forall w :: w in byWorld ==> Distinct(byWorld[w]) && byWorld[w] != []
    {
      var id := evict[i];
      assert evict[..i + 1] == evict[..i] + [id];
      assert id in evict && id !in evict[..i];
      var entry := index.Get(id);
      var world := entry.value.worldId;
      var group := if world in byWorld then byWorld[world] else [];
      PushedDistinct(group, id);
      byWorld := byWorld[world := group + [id]];
    }
    assert evict[..|evict|] == evict;
  }

  lemma OneMoreWorld(rows: Rows, done: set<Uuid>, w: Uuid, ids: seq<ItemId>)
    requires w !in done
    requires forall id :: id in ids <==> id in rows && rows[id].worldId == w
    ensures KeptRows(rows, done) - Members(ids) == KeptRows(rows, done + {w})
    ensures Released(KeptRows(rows, done), KeptRows(rows, done + {w}), w) == FilesIn(rows, {w})
    ensures AllInWorld(KeptRows(rows, done), Members(ids), w) && Members(ids) <= KeptRows(rows, done).Keys
  {
    var before, after := KeptRows(rows, done), KeptRows(rows, done + {w});
    assert before - Members(ids) == after;
    assert forall fp :: !Referenced(after, w, fp);
    forall id | id in rows && rows[id].worldId == w ensures FileOf(rows[id]) in Released(before, after, w) {
      assert id in before && id !in after;
    }
  }

  lemma OneMoreWorldsFiles(rows: Rows, files: Files, done: set<Uuid>, w: Uuid)
    requires w !in done
    ensures files - FilesIn(rows, done) - FilesIn(rows, {w}) == files - FilesIn(rows, done + {w})
    ensures |FilesIn(rows, done + {w})| == |FilesIn(rows, done)| + |FilesIn(rows, {w})|
  {
    var a, b := FilesIn(rows, done), FilesIn(rows, {w});
    assert a !! b;
    assert FilesIn(rows, done + {w}) == a + b;
  }

  /** Release each group under its own world. The order of the worlds does not matter to the result. */
  method ReleaseGroups(store: OpfsStore, index: IndexStore, byWorld: map<Uuid, seq<ItemId>>)
    returns (evicted: nat, blobs: nat, freed: nat)
    requires forall w, id :: w in byWorld ==> (id in byWorld[w] <==> id in index.rows && index.rows[id].worldId == w)
    requires forall w :: w in byWorld ==> Distinct(byWorld[w])
    modifies store`files, index`rows
    ensures index.rows == KeptRows(old(index.rows), byWorld.Keys)
    ensures store.files == old(store.files) - FilesIn(old(index.rows), byWorld.Keys)
    ensures evicted == |old(index.rows)| - |index.rows|
    ensures blobs == |FilesIn(old(index.rows), byWorld.Keys)|
    ensures freed == BytesOf(old(index.rows)) - BytesOf(index.rows)
  {
    ghost var rows, files := index.rows, store.files;
    evicted, blobs, freed := 0, 0, 0;
    var worlds := ListKeys(byWorld);
    NothingReleased(rows, files);
    for i := 0 to |worlds|
      invariant index.rows == KeptRows(rows, Members(worlds[..i]))
      invariant store.files == files - FilesIn(rows, Members(worlds[..i]))
      invariant evicted == |rows| - |index.rows|
      invariant blobs == |FilesIn(rows, Members(worlds[..i]))|
      invariant freed == BytesOf(rows) - BytesOf(index.rows)
    {
      OneMoreMember(worlds, i);
      assert worlds[i] in worlds && worlds[i] !in Members(worlds[..i]);
      var e, b, f := ReleaseGroup(store, index, worlds[i], byWorld[worlds[i]], rows, files, Members(worlds[..i]));
      evicted, blobs, freed := evicted + e, blobs + b, freed + f;
    }
    assert worlds[..|worlds|] == worlds;
    assert Members(worlds) == byWorld.Keys;
  }

  method ReleaseGroup(store: OpfsStore, index: IndexStore, world: Uuid, ids: seq<ItemId>,
                      ghost rows: Rows, ghost files: Files, ghost done: set<Uuid>)
    returns (evicted: nat, blobs: nat, freed: nat)
    requires world !in done && Distinct(ids)
    requires forall id :: id in ids <==> id in rows && rows[id].worldId == world
    requires index.rows == KeptRows(rows, done) && store.files == files - FilesIn(rows, done)
    modifies store`files, index`rows
    ensures index.rows == KeptRows(rows, done + {world})
    ensures store.files == files - FilesIn(rows, done + {world})
    ensures evicted == |old(index.rows)| - |index.rows|
    ensures blobs == |FilesIn(rows, done + {world})| - |FilesIn(rows, done)|
    ensures freed == BytesOf(old(index.rows)) - BytesOf(index.rows)
  {
    ghost var before := index.rows;
    OneMoreWorld(rows, done, world, ids);
    OneMoreWorldsFiles(rows, files, done, world);
    var outcome, bytes := EvictItems(store, index, world, ids);
    assert index.rows == KeptRows(rows, done + {world});
    assert Released(before, index.rows, world) == FilesIn(rows, {world});
    evicted, blobs, freed := outcome.evicted, outcome.blobsRemoved, bytes;
  }

  /** Plan over whatever order the index lists its rows in; every order gives this plan. */
  method PlanRelease(index: IndexStore, limit: u64, incoming: u64, open: Uuid)
    returns (plan: B.BudgetPlan, ghost gone: set<Uuid>)
    requires BytesOf(index.rows) + incoming <= U64_MAX
    ensures open !in gone
    ensures Distinct(plan.evict)
    ensures forall id :: id in plan.evict <==> id in index.rows && index.rows[id].worldId in gone
    ensures BytesOf(KeptRows(index.rows, gone)) + incoming <= limit ||
            KeptRows(index.rows, gone) == WorldRows(index.rows, open)
    ensures plan.inUseBytes == BytesOf(index.rows)
    ensures plan.insufficient <==> BytesOf(WorldRows(index.rows, open)) + incoming > limit
    ensures Plans(index.rows, limit, incoming, open, plan)
  {
    var list := index.All();
    WholeListingBytes(list, index.rows);
    plan := B.PlanEviction(BudgetEntries(list), limit, incoming, open);
    gone := PlanOverRows(list, index.rows, limit, incoming, open, plan);
    forall other | IsListing(other, index.rows)
      ensures B.IsEvictionPlan(BudgetEntries(other), limit, incoming, open, plan)
    {
      ListingsPermute(list, other, index.rows);
      WholeListingBytes(other, index.rows);
      B.PlanHoldsForAnyOrder(BudgetEntries(list), BudgetEntries(other), limit, incoming, open, plan);
    }
  }

  /**
   * Shrink the store to what the browser's current quota allows, whole worlds at a time, coldest
   * first, sparing the open one; an unknown quota changes nothing.
   */
  method EnforceBudget(store: OpfsStore, index: IndexStore, open: Uuid, incoming: u64, quota: Option<u64>)
    returns (outcome: BudgetOutcome, ghost gone: set<Uuid>, ghost plan: B.BudgetPlan)
    requires BytesOf(index.rows) + incoming <= U64_MAX
    modifies store`files, index`rows
    ensures open !in gone
    ensures index.rows == KeptRows(old(index.rows), gone)
    ensures store.files == old(store.files) - FilesIn(old(index.rows), gone)
    ensures outcome.freedBytes == BytesOf(old(index.rows)) - BytesOf(index.rows)
    ensures outcome.evicted == |old(index.rows)| - |index.rows|
    ensures outcome.blobsRemoved == |FilesIn(old(index.rows), gone)|
    ensures quota == None ==> outcome == BudgetOutcome(0, 0, 0, 0, 0, false, true) && gone == {}
    ensures quota.Some? ==> !outcome.unknownQuota && outcome.limitBytes == B.LimitBytes(quota.value)
    ensures quota.Some? ==> outcome.inUseBytes == BytesOf(old(index.rows))
    ensures quota.Some? ==>
              (outcome.insufficient <==>
               BytesOf(WorldRows(old(index.rows), open)) + incoming > B.LimitBytes(quota.value))
    ensures quota.Some? ==>
              BytesOf(index.rows) + incoming <= B.LimitBytes(quota.value) ||
              index.rows == WorldRows(old(index.rows), open)
    ensures quota.Some? ==> Plans(old(index.rows), B.LimitBytes(quota.value), incoming, open, plan)
    ensures quota.Some? ==> index.rows == old(index.rows) - Members(plan.evict)
  {
    outcome := BudgetOutcome(0, 0, 0, 0, 0, false, false);
    if quota == None {
      NothingReleased(index.rows, store.files);
      outcome, gone, plan := outcome.(unknownQuota := true), {}, B.BudgetPlan(0, 0, [], false);
      return;
    }
    var limit := B.LimitBytes(quota.value);
    var planned, worlds := PlanRelease(index, limit, incoming, open);
    var evicted, blobs, freed;
    evicted, blobs, freed, gone := ReleasePlanned(store, index, planned.evict, worlds);
    plan := planned;
    outcome := BudgetOutcome(limit, planned.inUseBytes, freed, evicted, blobs, planned.insufficient, false);
  }

  /** Group the plan by world and release the groups; an empty plan releases nothing. */
  method ReleasePlanned(store: OpfsStore, index: IndexStore, evict: seq<ItemId>, ghost worlds: set<Uuid>)
    returns (evicted: nat, blobs: nat, freed: nat, ghost gone: set<Uuid>)
    requires Distinct(evict)
    requires forall id :: id in evict <==> id in index.rows && index.rows[id].worldId in worlds
    modifies store`files, index`rows
    ensures gone <= worlds
    ensures index.rows == KeptRows(old(index.rows), gone) == KeptRows(old(index.rows), worlds)
    ensures index.rows == old(index.rows) - Members(evict)
    ensures store.files == old(store.files) - FilesIn(old(index.rows), gone)
    ensures evicted == |old(index.rows)| - |index.rows|
    ensures blobs == |FilesIn(old(index.rows), gone)|
    ensures freed == BytesOf(old(index.rows)) - BytesOf(index.rows)
  {
    if evict == [] {
      NothingReleased(index.rows, store.files);
      return 0, 0, 0, {};
    }
    var byWorld := GroupByWorld(index, evict);
    GroupsAreWorlds(index.rows, worlds, evict, byWorld);
    gone := byWorld.Keys;
    evicted, blobs, freed := ReleaseGroups(store, index, byWorld);
  }

  lemma NothingReleased(rows: Rows, files: Files)
    ensures KeptRows(rows, {}) == rows
    ensures FilesIn(rows, {}) == {} && files - FilesIn(rows, {}) == files
  {
  }

  /** The planner's answer for these rows, in whatever order it is shown them. */
  ghost predicate Plans(rows: Rows, limit: u64, incoming: u64, open: Uuid, plan: B.BudgetPlan) {
    forall list :: IsListing(list, rows) ==> B.IsEvictionPlan(BudgetEntries(list), limit, incoming, open, plan)
  }

  lemma GroupsAreWorlds(rows: Rows, gone: set<Uuid>, evict: seq<ItemId>, byWorld: map<Uuid, seq<ItemId>>)
    requires forall id :: id in evict <==> id in rows && rows[id].worldId in gone
    requires forall w, id :: w in byWorld && id in byWorld[w] <==> id in evict && rows[id].worldId == w
    requires forall w :: w in byWorld ==> byWorld[w] != []
    ensures byWorld.Keys <= gone
    ensures KeptRows(rows, byWorld.Keys) == KeptRows(rows, gone) == rows - Members(evict)
    ensures forall w, id :: w in byWorld ==> (id in byWorld[w] <==> id in rows && rows[id].worldId == w)
  {
    forall w | w in byWorld ensures w in gone {
      var id := byWorld[w][0];
      assert id in byWorld[w];
      assert id in evict;
    }
    forall id | id in rows && rows[id].worldId in gone ensures rows[id].worldId in byWorld {
      assert id in evict;
    }
  }

  lemma WholeListingBytes(list: seq<(ItemId, IndexEntry)>, rows: Rows)
    requires IsListing(list, rows)
    ensures B.TotalBytes(BudgetEntries(list)) == BytesOf(rows)
  {
    ListingBytes(list, rows, {});
    B.HoldingAll(BudgetEntries(list));
    assert KeptRows(rows, {}) == rows;
  }

  lemma ListingsPermute(a: seq<(ItemId, IndexEntry)>, b: seq<(ItemId, IndexEntry)>, rows: Rows)
    requires IsListing(a, rows) && IsListing(b, rows)
    ensures multiset(BudgetEntries(a)) == multiset(BudgetEntries(b))
  {
    EntriesMatch(a, b, rows);
    EntriesMatch(b, a, rows);
    MultisetOfDistinct(BudgetEntries(a), BudgetEntries(b));
  }

  lemma EntriesMatch(a: seq<(ItemId, IndexEntry)>, b: seq<(ItemId, IndexEntry)>, rows: Rows)
    requires IsListing(a, rows) && IsListing(b, rows)
    ensures Distinct(BudgetEntries(a))
    ensures forall e :: e in BudgetEntries(a) ==> e in BudgetEntries(b)
  {
    var entries, others := BudgetEntries(a), BudgetEntries(b);
    forall i, j | 0 <= i < j < |entries| ensures entries[i] != entries[j] {
      assert a[i].0 != a[j].0;
    }
    forall e | e in entries ensures e in others {
      var i :| 0 <= i < |entries| && entries[i] == e;
      assert a[i] in a;
      var j :| 0 <= j < |b| && b[j] == a[i];
      assert others[j] == e;
    }
  }

  /** Releasing whole worlds leaves the files of every surviving row in place. */
  lemma ReleaseKeepsSurvivors(rows: Rows, files: Files, gone: set<Uuid>)
    requires Consistent(rows, files)
    ensures Consistent(KeptRows(rows, gone), files - FilesIn(rows, gone))
    ensures forall at :: at in files && at.0 !in gone ==> at in files - FilesIn(rows, gone)
  {
  }
}
