/** The small steps of a pass that nobody interleaves with add up to what the pass computes as a whole. */
module SyncRefinement {
  import opened Items
  import opened Fingerprints
  import opened Index
  import opened Opfs
  import opened SyncProtocol
  import S = Sync

  /** The two stores as the protocol sees them. */
  function DiskOf(rows: Rows, files: Files): Disk {
    Disk(map id | id in rows :: S.FileOf(rows[id]), map at | at in files :: |files[at]| >= MIN_BLOB_LEN)
  }

  lemma SameConsistency(rows: Rows, files: Files)
    ensures S.Consistent(rows, files) <==> Consistent(DiskOf(rows, files))
  {
    var d := DiskOf(rows, files);
    forall id | id in rows
      ensures ShapeOf(files, S.FileOf(rows[id])) == Complete <==> d.rows[id] in d.files && d.files[d.rows[id]]
    {
      assert d.rows[id] == S.FileOf(rows[id]);
    }
    if Consistent(d) {
      forall id | id in rows ensures ShapeOf(files, S.FileOf(rows[id])) == Complete {
        assert id in d.rows;
      }
    }
  }

  lemma DiskWithoutRow(rows: Rows, files: Files, id: ItemId)
    ensures WithoutRow(DiskOf(rows, files), id) == DiskOf(rows - {id}, files)
  {
    assert WithoutRow(DiskOf(rows, files), id).rows == DiskOf(rows - {id}, files).rows;
  }

  lemma DiskWithoutFile(rows: Rows, files: Files, at: BlobKey)
    ensures WithoutFile(DiskOf(rows, files), at) == DiskOf(rows, files - {at})
  {
    assert WithoutFile(DiskOf(rows, files), at).files == DiskOf(rows, files - {at}).files;
  }

  lemma SameNaming(rows: Rows, files: Files, w: Uuid, fp: Fingerprint)
    ensures S.Referenced(rows, w, fp) <==> SyncProtocol.Named(DiskOf(rows, files), (w, fp))
  {
    var d := DiskOf(rows, files);
    if S.Referenced(rows, w, fp) {
      var id :| id in rows && rows[id].worldId == w && rows[id].fingerprint == fp;
      assert d.rows[id] == (w, fp);
    }
    if SyncProtocol.Named(d, (w, fp)) {
      var id :| id in d.rows && d.rows[id] == (w, fp);
      assert S.FileOf(rows[id]) == (w, fp);
    }
  }

  /** A pass with the disk to itself and no failing call; `picks` settles what it takes next. */
  function Alone(d: Disk, w: Uuid, out: Outcome, picks: seq<(ItemId, Fingerprint)>): (Disk, Outcome)
    decreases |picks|
  {
    if picks == [] || !out.More? then (d, out)
    else
      var (d', out') := Act(d, w, out.work, true, picks[0].0, picks[0].1);
      Alone(d', w, out', picks[1..])
  }

  // ---- Repair ----

  function UnnamedFiles(rows: Rows, files: Files, w: Uuid): set<Fingerprint> {
    set at | at in files && at.0 == w && !S.Referenced(rows, w, at.1) :: at.1
  }

  function FinishedOrphans(rows: Rows, files: Files, w: Uuid): set<Fingerprint> {
    set at | at in S.Orphans(rows, files, w, Complete) :: at.1
  }

  function InWorld(fps: set<Fingerprint>, w: Uuid): set<BlobKey> { set fp | fp in fps :: (w, fp) }

  ghost predicate Repairing(rows: Rows, files: Files, w: Uuid, d: Disk, out: Outcome) {
    var d0, lies, finished := DiskOf(rows, files), S.Lies(rows, files, w), FinishedOrphans(rows, files, w);
    match out
    case More(ListingRows) => d == d0
    case More(ListingFiles(listed)) =>
      d == d0 && listed == map i | i in d0.rows && d0.rows[i].0 == w :: d0.rows[i].1
    case More(DroppingLies(left, orphans)) =>
      left <= lies && d == Disk(d0.rows - (lies - left), d0.files) && orphans == UnnamedFiles(rows, files, w)
    case More(Shaping(orphans, shaped)) =>
      orphans <= UnnamedFiles(rows, files, w) && d == Disk(d0.rows - lies, d0.files) && shaped == finished - orphans
    case More(Reclaiming(left)) =>
      left <= finished && d == Disk(d0.rows - lies, d0.files - InWorld(finished - left, w))
    case Ended => d == DiskOf(S.RepairedRows(rows, files, w), S.RepairedFiles(rows, files, w))
    case _ => false
  }

  lemma RepairStep(rows: Rows, files: Files, w: Uuid, d: Disk, out: Outcome, id: ItemId, fp: Fingerprint)
    requires Repairing(rows, files, w, d, out) && out.More?
    ensures var (d', out') := Act(d, w, out.work, true, id, fp); Repairing(rows, files, w, d', out')
  {
    match out.work
    case ListingFiles(_) => FoundByListing(rows, files, w);
    case DroppingLies(_, _) => DropStep(rows, files, w, d, out, id, fp);
    case Shaping(_, _) => ShapeStep(rows, files, w, d, out, id, fp);
    case Reclaiming(_) => ReclaimStep(rows, files, w, d, out, id, fp);
    case _ =>
  }

  lemma DropStep(rows: Rows, files: Files, w: Uuid, d: Disk, out: Outcome, id: ItemId, fp: Fingerprint)
    requires Repairing(rows, files, w, d, out) && out.More? && out.work.DroppingLies?
    ensures var (d', out') := Act(d, w, out.work, true, id, fp); Repairing(rows, files, w, d', out')
  {
    var left, orphans, lies := out.work.lies, out.work.orphans, S.Lies(rows, files, w);
    if left == {} {
      assert lies - {} == lies && FinishedOrphans(rows, files, w) - orphans == {};
    } else if id in left {
      assert d.rows - {id} == DiskOf(rows, files).rows - (lies - (left - {id}));
    }
  }

  lemma ShapeStep(rows: Rows, files: Files, w: Uuid, d: Disk, out: Outcome, id: ItemId, fp: Fingerprint)
    requires Repairing(rows, files, w, d, out) && out.More? && out.work.Shaping?
    ensures var (d', out') := Act(d, w, out.work, true, id, fp); Repairing(rows, files, w, d', out')
  {
    var orphans, finished := out.work.orphans, FinishedOrphans(rows, files, w);
    if orphans == {} {
      assert finished - finished == {} && InWorld({}, w) == {} && finished - {} == finished;
    } else if fp in orphans {
      assert (w, fp) in files;
      assert fp in finished <==> d.files[(w, fp)];
    }
  }

  lemma ReclaimStep(rows: Rows, files: Files, w: Uuid, d: Disk, out: Outcome, id: ItemId, fp: Fingerprint)
    requires Repairing(rows, files, w, d, out) && out.More? && out.work.Reclaiming?
    ensures var (d', out') := Act(d, w, out.work, true, id, fp); Repairing(rows, files, w, d', out')
  {
    var left, finished := out.work.finished, FinishedOrphans(rows, files, w);
    if left == {} {
      Reclaimed(rows, files, w);
    } else if fp in left {
      assert InWorld(finished - (left - {fp}), w) == InWorld(finished - left, w) + {(w, fp)};
    }
  }

  lemma FoundByListing(rows: Rows, files: Files, w: Uuid)
    ensures var d := DiskOf(rows, files);
            var listed := map i | i in d.rows && d.rows[i].0 == w :: d.rows[i].1;
            && (set i | i in listed && (w, listed[i]) !in d.files) == S.Lies(rows, files, w)
            && (set at | at in d.files && at.0 == w && at.1 !in listed.Values :: at.1) == UnnamedFiles(rows, files, w)
  {
    var d := DiskOf(rows, files);
    var listed := map i | i in d.rows && d.rows[i].0 == w :: d.rows[i].1;
    forall i | i in rows && rows[i].worldId == w ensures i in listed && (w, listed[i]) == S.FileOf(rows[i]) {
    }
    forall fp ensures fp in listed.Values <==> S.Referenced(rows, w, fp) {
      SameNaming(rows, files, w, fp);
      if S.Referenced(rows, w, fp) {
        var i :| i in rows && rows[i].worldId == w && rows[i].fingerprint == fp;
        assert listed[i] == fp;
      }
    }
  }

  lemma Reclaimed(rows: Rows, files: Files, w: Uuid)
    ensures var d0, finished := DiskOf(rows, files), FinishedOrphans(rows, files, w);
            Disk(d0.rows - S.Lies(rows, files, w), d0.files - InWorld(finished - {}, w)) ==
            DiskOf(S.RepairedRows(rows, files, w), S.RepairedFiles(rows, files, w))
  {
    var finished, orphans := FinishedOrphans(rows, files, w), S.Orphans(rows, files, w, Complete);
    assert finished - {} == finished;
    assert InWorld(finished, w) == orphans by {
      forall at | at in orphans ensures at in InWorld(finished, w) {
        assert at.1 in finished;
      }
    }
    assert (DiskOf(rows, files).files - orphans) == DiskOf(rows, S.RepairedFiles(rows, files, w)).files;
  }

  lemma {:induction false} RepairStaysOnTrack(rows: Rows, files: Files, w: Uuid, d: Disk, out: Outcome,
                                              picks: seq<(ItemId, Fingerprint)>)
    requires Repairing(rows, files, w, d, out)
    ensures var (d', out') := Alone(d, w, out, picks); Repairing(rows, files, w, d', out')
    decreases |picks|
  {
    if picks != [] && out.More? {
      RepairStep(rows, files, w, d, out, picks[0].0, picks[0].1);
      var (d', out') := Act(d, w, out.work, true, picks[0].0, picks[0].1);
      RepairStaysOnTrack(rows, files, w, d', out', picks[1..]);
    }
  }

  /** How far a repair or a discard is from its end. */
  function Stage(out: Outcome): (r: (nat, nat)) {
    match out
    case More(ListingRows) => (5, 0)
    case More(ListingFiles(_)) => (4, 0)
    case More(DroppingLies(lies, _)) => (3, |lies|)
    case More(Shaping(orphans, _)) => (2, |orphans|)
    case More(Reclaiming(finished)) => (1, |finished|)
    case More(ListingWorld) => (3, 0)
    case More(Clearing(left)) => (2, |left|)
    case More(Wiping) => (1, 0)
    case _ => (0, 0)
  }

  /** What a pass may take next, if it has anything to choose from. */
  ghost function Pick(out: Outcome): (ItemId, Fingerprint) {
    var items := if out.More? && out.work.DroppingLies? then out.work.lies
                 else if out.More? && out.work.Clearing? then out.work.left else {};
    var id := if items != {} then (var i :| i in items; i) else ITEM;
    var some := if out.More? && out.work.Shaping? then out.work.orphans
                else if out.More? && out.work.Reclaiming? then out.work.finished else {};
    var fp := if some != {} then (var f :| f in some; f) else Fingerprint(seq(DIGEST_LEN, _ => 0 as bv8));
    (id, fp)
  }

  lemma {:induction false} RepairEnds(rows: Rows, files: Files, w: Uuid, d: Disk, out: Outcome)
    returns (picks: seq<(ItemId, Fingerprint)>)
    requires Repairing(rows, files, w, d, out)
    ensures Alone(d, w, out, picks).1 == Ended
    decreases Stage(out).0, Stage(out).1
  {
    if out == Ended {
      picks := [];
    } else {
      var pick := Pick(out);
      RepairStep(rows, files, w, d, out, pick.0, pick.1);
      var (d', out') := Act(d, w, out.work, true, pick.0, pick.1);
      var rest := RepairEnds(rows, files, w, d', out');
      picks := [pick] + rest;
      assert picks[1..] == rest;
    }
  }

  /**
   * A repair pass alone on the disk can end, and whenever it has, whichever lies and orphans it
   * took first, the disk is the one the whole pass computes.
   */
  lemma RepairAlone(rows: Rows, files: Files, w: Uuid, picks: seq<(ItemId, Fingerprint)>)
    ensures var (d, out) := Alone(DiskOf(rows, files), w, More(ListingRows), picks);
            out == Ended ==> d == DiskOf(S.RepairedRows(rows, files, w), S.RepairedFiles(rows, files, w))
    ensures exists all :: picks <= all && Alone(DiskOf(rows, files), w, More(ListingRows), all).1 == Ended
  {
    var d0 := DiskOf(rows, files);
    RepairStaysOnTrack(rows, files, w, d0, More(ListingRows), picks);
    var (d, out) := Alone(d0, w, More(ListingRows), picks);
    var rest := RepairEnds(rows, files, w, d, out);
    AloneJoin(d0, w, More(ListingRows), picks, rest);
    assert picks <= picks + rest;
  }

  lemma {:induction false} AloneJoin(d: Disk, w: Uuid, out: Outcome, before: seq<(ItemId, Fingerprint)>,
                                     after: seq<(ItemId, Fingerprint)>)
    ensures Alone(d, w, out, before + after) ==
            var (d', out') := Alone(d, w, out, before); Alone(d', w, out', after)
    decreases |before|
  {
    if before == [] {
      assert before + after == after;
    } else if out.More? {
      var (d', out') := Act(d, w, out.work, true, before[0].0, before[0].1);
      AloneJoin(d', w, out', before[1..], after);
      assert (before + after)[1..] == before[1..] + after;
    }
  }

  // ---- Eviction ----

  function RowsAt(rows: Rows, ids: seq<ItemId>, k: nat): Rows
    requires k <= |ids|
  {
    rows - Members(ids[..k])
  }

  function FilesAt(rows: Rows, files: Files, w: Uuid, ids: seq<ItemId>, k: nat): Files
    requires k <= |ids|
  {
    files - S.Released(rows, RowsAt(rows, ids, k), w)
  }

  ghost predicate Evicting(rows: Rows, files: Files, w: Uuid, ids: seq<ItemId>, rest: seq<Group>, d: Disk,
                           out: Outcome) {
    match out
    case More(Picking(left, later)) =>
      later == rest && |left| <= |ids| &&
      var k := |ids| - |left|;
      left == ids[k..] && d == DiskOf(RowsAt(rows, ids, k), FilesAt(rows, files, w, ids, k))
    case More(Removing(id, found, left, later)) =>
      later == rest && |left| < |ids| &&
      var k := |ids| - |left| - 1;
      var now := RowsAt(rows, ids, k);
      && left == ids[k + 1..] && id == ids[k]
      && d == DiskOf(now, FilesAt(rows, files, w, ids, k))
      && found == if id in now then Some(now[id].fingerprint) else None
    case More(Checking(fp, left, later)) => later == rest && Unindexed(rows, files, w, ids, d, fp, left)
    case More(Unlinking(fp, left, later)) =>
      later == rest && Unindexed(rows, files, w, ids, d, fp, left) && !SyncProtocol.Named(d, (w, fp))
    case NextGroup(later) => later == rest && d == DiskOf(RowsAt(rows, ids, |ids|), FilesAt(rows, files, w, ids, |ids|))
    case _ => false
  }

  /** The row before `left` is gone, its file not yet. */
  ghost predicate Unindexed(rows: Rows, files: Files, w: Uuid, ids: seq<ItemId>, d: Disk, fp: Fingerprint,
                            left: seq<ItemId>) {
    |left| < |ids| &&
    var k := |ids| - |left| - 1;
    var now := RowsAt(rows, ids, k);
    && left == ids[k + 1..] && ids[k] in now && fp == now[ids[k]].fingerprint
    && d == DiskOf(RowsAt(rows, ids, k + 1), FilesAt(rows, files, w, ids, k))
  }

  lemma NextFiles(rows: Rows, files: Files, w: Uuid, ids: seq<ItemId>, k: nat)
    requires k < |ids|
    ensures RowsAt(rows, ids, k + 1) == RowsAt(rows, ids, k) - {ids[k]}
    ensures var now, next := RowsAt(rows, ids, k), RowsAt(rows, ids, k + 1);
            FilesAt(rows, files, w, ids, k + 1) ==
            if ids[k] in now && !S.Referenced(next, w, now[ids[k]].fingerprint)
            then FilesAt(rows, files, w, ids, k) - {(w, now[ids[k]].fingerprint)} else FilesAt(rows, files, w, ids, k)
  {
    S.OneMoreMember(ids, k);
    var now := RowsAt(rows, ids, k);
    assert RowsAt(rows, ids, k + 1) == now - {ids[k]};
    if ids[k] in now {
      S.ReleasedStep(rows, now, ids[k], w);
    } else {
      assert now - {ids[k]} == now;
    }
  }

  lemma EvictStep(rows: Rows, files: Files, w: Uuid, ids: seq<ItemId>, rest: seq<Group>, d: Disk, out: Outcome,
                  id: ItemId, fp: Fingerprint)
    requires Evicting(rows, files, w, ids, rest, d, out) && out.More?
    ensures var (d', out') := Act(d, w, out.work, true, id, fp); Evicting(rows, files, w, ids, rest, d', out')
  {
    match out.work
    case Picking(_, _) => PickStep(rows, files, w, ids, rest, d, out, id, fp);
    case Removing(_, _, _, _) => RemoveStep(rows, files, w, ids, rest, d, out, id, fp);
    case Checking(_, _, _) => CheckStep(rows, files, w, ids, rest, d, out, id, fp);
    case Unlinking(_, _, _) => UnlinkStep(rows, files, w, ids, rest, d, out, id, fp);
  }

  lemma PickStep(rows: Rows, files: Files, w: Uuid, ids: seq<ItemId>, rest: seq<Group>, d: Disk, out: Outcome,
                 id: ItemId, fp: Fingerprint)
    requires Evicting(rows, files, w, ids, rest, d, out) && out.More? && out.work.Picking?
    ensures var (d', out') := Act(d, w, out.work, true, id, fp); Evicting(rows, files, w, ids, rest, d', out')
  {
    if out.work.ids != [] {
      var k := |ids| - |out.work.ids|;
      assert out.work.ids[1..] == ids[k + 1..];
      assert forall i :: i in d.rows <==> i in RowsAt(rows, ids, k);
    }
  }

  lemma RemoveStep(rows: Rows, files: Files, w: Uuid, ids: seq<ItemId>, rest: seq<Group>, d: Disk, out: Outcome,
                   id: ItemId, fp: Fingerprint)
    requires Evicting(rows, files, w, ids, rest, d, out) && out.More? && out.work.Removing?
    ensures var (d', out') := Act(d, w, out.work, true, id, fp); Evicting(rows, files, w, ids, rest, d', out')
  {
    var left, found, k := out.work.ids, out.work.found, |ids| - |out.work.ids| - 1;
    RemoveTo(rows, files, w, ids, k, d);
    if found.Some? {
      assert Unindexed(rows, files, w, ids, WithoutRow(d, out.work.id), found.value, left);
    } else {
      assert |ids| - |left| == k + 1;
      assert WithoutRow(d, out.work.id) == DiskOf(RowsAt(rows, ids, k + 1), FilesAt(rows, files, w, ids, k + 1));
    }
  }

  lemma RemoveTo(rows: Rows, files: Files, w: Uuid, ids: seq<ItemId>, k: nat, d: Disk)
    requires k < |ids| && d == DiskOf(RowsAt(rows, ids, k), FilesAt(rows, files, w, ids, k))
    ensures WithoutRow(d, ids[k]) == DiskOf(RowsAt(rows, ids, k + 1), FilesAt(rows, files, w, ids, k))
    ensures ids[k] !in RowsAt(rows, ids, k) ==> FilesAt(rows, files, w, ids, k) == FilesAt(rows, files, w, ids, k + 1)
  {
    NextFiles(rows, files, w, ids, k);
    DiskWithoutRow(RowsAt(rows, ids, k), FilesAt(rows, files, w, ids, k), ids[k]);
  }

  lemma CheckStep(rows: Rows, files: Files, w: Uuid, ids: seq<ItemId>, rest: seq<Group>, d: Disk, out: Outcome,
                  id: ItemId, fp: Fingerprint)
    requires Evicting(rows, files, w, ids, rest, d, out) && out.More? && out.work.Checking?
    ensures var (d', out') := Act(d, w, out.work, true, id, fp); Evicting(rows, files, w, ids, rest, d', out')
  {
    var k := |ids| - |out.work.ids| - 1;
    NextFiles(rows, files, w, ids, k);
    SameNaming(RowsAt(rows, ids, k + 1), FilesAt(rows, files, w, ids, k), w, out.work.fp);
  }

  lemma UnlinkStep(rows: Rows, files: Files, w: Uuid, ids: seq<ItemId>, rest: seq<Group>, d: Disk, out: Outcome,
                   id: ItemId, fp: Fingerprint)
    requires Evicting(rows, files, w, ids, rest, d, out) && out.More? && out.work.Unlinking?
    ensures var (d', out') := Act(d, w, out.work, true, id, fp); Evicting(rows, files, w, ids, rest, d', out')
  {
    var k := |ids| - |out.work.ids| - 1;
    UnlinkTo(rows, files, w, ids, k, d, out.work.fp);
  }

  lemma UnlinkTo(rows: Rows, files: Files, w: Uuid, ids: seq<ItemId>, k: nat, d: Disk, fp: Fingerprint)
    requires k < |ids| && ids[k] in RowsAt(rows, ids, k) && fp == RowsAt(rows, ids, k)[ids[k]].fingerprint
    requires d == DiskOf(RowsAt(rows, ids, k + 1), FilesAt(rows, files, w, ids, k)) && !SyncProtocol.Named(d, (w, fp))
    ensures WithoutFile(d, (w, fp)) == DiskOf(RowsAt(rows, ids, k + 1), FilesAt(rows, files, w, ids, k + 1))
  {
    NextFiles(rows, files, w, ids, k);
    SameNaming(RowsAt(rows, ids, k + 1), FilesAt(rows, files, w, ids, k), w, fp);
    DiskWithoutFile(RowsAt(rows, ids, k + 1), FilesAt(rows, files, w, ids, k), (w, fp));
  }

  /** Calls an eviction still makes. */
  function CallsLeft(out: Outcome): nat {
    match out
    case More(Picking(left, _)) => 4 * |left| + 1
    case More(Removing(_, _, left, _)) => 4 * |left| + 4
    case More(Checking(_, left, _)) => 4 * |left| + 3
    case More(Unlinking(_, left, _)) => 4 * |left| + 2
    case _ => 0
  }

  lemma {:induction false} EvictStays(rows: Rows, files: Files, w: Uuid, ids: seq<ItemId>, rest: seq<Group>, d: Disk,
                                      out: Outcome, picks: seq<(ItemId, Fingerprint)>)
    requires Evicting(rows, files, w, ids, rest, d, out)
    ensures var (d', out') := Alone(d, w, out, picks);
            && Evicting(rows, files, w, ids, rest, d', out')
            && (out'.More? ==> CallsLeft(out') + |picks| <= CallsLeft(out))
    decreases |picks|
  {
    if picks != [] && out.More? {
      EvictStep(rows, files, w, ids, rest, d, out, picks[0].0, picks[0].1);
      var (d', out') := Act(d, w, out.work, true, picks[0].0, picks[0].1);
      EvictStays(rows, files, w, ids, rest, d', out', picks[1..]);
    }
  }

  /**
   * One group of an eviction, alone on the disk, ends within four calls for each item and one more, as
   * the whole loop does, and goes on to the groups that are left.
   */
  lemma EvictAlone(rows: Rows, files: Files, w: Uuid, ids: seq<ItemId>, rest: seq<Group>,
                   picks: seq<(ItemId, Fingerprint)>)
    requires |picks| > 4 * |ids|
    ensures var left := rows - Members(ids);
            Alone(DiskOf(rows, files), w, More(Picking(ids, rest)), picks) ==
            (DiskOf(left, files - S.Released(rows, left, w)), NextGroup(rest))
  {
    assert ids[..0] == [] && ids[0..] == ids && ids[..|ids|] == ids;
    assert Members<ItemId>([]) == {};
    assert RowsAt(rows, ids, 0) == rows;
    assert FilesAt(rows, files, w, ids, 0) == files;
    EvictStays(rows, files, w, ids, rest, DiskOf(rows, files), More(Picking(ids, rest)), picks);
  }

  function WorldsOf(groups: seq<Group>): set<Uuid> { set g | g in groups :: g.0 }

  /** The groups are whole worlds, each once, as a budget pass groups its plan. */
  ghost predicate WholeWorlds(rows: Rows, groups: seq<Group>) {
    && (forall i, j :: 0 <= i < j < |groups| ==> groups[i].0 != groups[j].0)
    && (forall g, id :: g in groups ==> (id in g.1 <==> id in rows && rows[id].worldId == g.0))
  }

  function ReleasedDisk(rows: Rows, files: Files, done: set<Uuid>): Disk {
    DiskOf(S.KeptRows(rows, done), files - S.FilesIn(rows, done))
  }

  lemma GroupReleased(rows: Rows, files: Files, done: set<Uuid>, w: Uuid, ids: seq<ItemId>, rest: seq<Group>,
                      picks: seq<(ItemId, Fingerprint)>)
    requires w !in done && |picks| > 4 * |ids|
    requires forall id :: id in ids <==> id in rows && rows[id].worldId == w
    ensures Alone(ReleasedDisk(rows, files, done), w, More(Picking(ids, rest)), picks) ==
            (ReleasedDisk(rows, files, done + {w}), NextGroup(rest))
  {
    S.OneMoreWorld(rows, done, w, ids);
    S.OneMoreWorldsFiles(rows, files, done, w);
    EvictAlone(S.KeptRows(rows, done), files - S.FilesIn(rows, done), w, ids, rest, picks);
  }

  lemma TailIsWholeWorlds(rows: Rows, groups: seq<Group>, done: set<Uuid>)
    requires WholeWorlds(rows, groups) && groups != [] && done !! WorldsOf(groups)
    ensures WholeWorlds(rows, groups[1..]) && groups[0].0 !in done && done + {groups[0].0} !! WorldsOf(groups[1..])
    ensures forall id :: id in groups[0].1 <==> id in rows && rows[id].worldId == groups[0].0
    ensures done + {groups[0].0} + WorldsOf(groups[1..]) == done + WorldsOf(groups)
  {
    assert groups == [groups[0]] + groups[1..];
    assert groups[0] in groups && groups[0].0 in WorldsOf(groups);
    forall g | g in groups[1..] ensures g.0 != groups[0].0 {
      var i :| 0 <= i < |groups[1..]| && groups[1..][i] == g;
      assert groups[i + 1] == g;
    }
  }

  // ---- Fetching and discarding ----

  lemma StoredDisk(rows: Rows, files: Files, id: ItemId, entry: IndexEntry, sealed: seq<bv8>)
    requires sealed != []
    ensures var d, at := DiskOf(rows, files), S.FileOf(entry);
            DiskOf(rows[id := entry], files[at := sealed]) == Disk(d.rows[id := at], d.files[at := true])
  {
    var d, at, stored := DiskOf(rows, files), S.FileOf(entry),
      DiskOf(rows[id := entry], files[S.FileOf(entry) := sealed]);
    assert stored.rows == d.rows[id := at];
    assert stored.files == d.files[at := true];
  }

  /** Three calls store and index fetched bytes, as the whole operation does. */
  lemma FetchAlone(rows: Rows, files: Files, w: Uuid, id: ItemId, entry: IndexEntry, sealed: seq<bv8>,
                   picks: seq<(ItemId, Fingerprint)>)
    requires |picks| >= 3 && sealed != [] && entry.worldId == w
    ensures Alone(DiskOf(rows, files), w, More(Creating(id, entry.fingerprint)), picks) ==
            (DiskOf(rows[id := entry], files[(w, entry.fingerprint) := sealed]), Ended)
  {
    var fp, d := entry.fingerprint, DiskOf(rows, files);
    var created := if (w, fp) in d.files then d else d.(files := d.files[(w, fp) := false]);
    var written := d.(files := d.files[(w, fp) := true]);
    assert created.files[(w, fp) := true] == written.files;
    var stored := written.(rows := d.rows[id := (w, fp)]);
    StoredDisk(rows, files, id, entry, sealed);
    assert Alone(d, w, More(Creating(id, fp)), picks) == Alone(created, w, More(Writing(id, fp)), picks[1..]);
    assert Alone(created, w, More(Writing(id, fp)), picks[1..]) ==
      Alone(written, w, More(Indexing(id, fp)), picks[1..][1..]);
    assert Alone(written, w, More(Indexing(id, fp)), picks[1..][1..]) == Alone(stored, w, Ended, picks[1..][1..][1..]);
  }

  function ItemsOf(rows: Rows, w: Uuid): set<ItemId> { set id | id in rows && rows[id].worldId == w }

  ghost predicate Discarding(rows: Rows, files: Files, w: Uuid, d: Disk, out: Outcome) {
    var d0, items := DiskOf(rows, files), ItemsOf(rows, w);
    match out
    case More(ListingWorld) => d == d0
    case More(Clearing(left)) => left != {} && left <= items && d == Disk(d0.rows - (items - left), d0.files)
    case More(Wiping) => d == Disk(d0.rows - items, d0.files)
    case Ended => d == DiskOf(OtherRows(rows, w), OtherFiles(files, w))
    case _ => false
  }

  lemma DiscardStep(rows: Rows, files: Files, w: Uuid, d: Disk, out: Outcome, id: ItemId, fp: Fingerprint)
    requires Discarding(rows, files, w, d, out) && out.More?
    ensures var (d', out') := Act(d, w, out.work, true, id, fp); Discarding(rows, files, w, d', out')
  {
    match out.work
    case ListingWorld => ListStep(rows, files, w, d, id, fp);
    case Clearing(left) => ClearStep(rows, files, w, d, left, id, fp);
    case Wiping => WipeStep(rows, files, w, d, id, fp);
  }

  lemma ListStep(rows: Rows, files: Files, w: Uuid, d: Disk, id: ItemId, fp: Fingerprint)
    requires Discarding(rows, files, w, d, More(ListingWorld))
    ensures var (d', out') := Act(d, w, ListingWorld, true, id, fp); Discarding(rows, files, w, d', out')
  {
    var items := ItemsOf(rows, w);
    assert (set i | i in d.rows && d.rows[i].0 == w) == items;
    assert d.rows - (items - items) == d.rows;
    assert items == {} ==> d.rows - items == d.rows;
  }

  lemma ClearStep(rows: Rows, files: Files, w: Uuid, d: Disk, left: set<ItemId>, id: ItemId, fp: Fingerprint)
    requires Discarding(rows, files, w, d, More(Clearing(left)))
    ensures var (d', out') := Act(d, w, Clearing(left), true, id, fp); Discarding(rows, files, w, d', out')
  {
    var items := ItemsOf(rows, w);
    if id in left {
      assert d.rows - {id} == DiskOf(rows, files).rows - (items - (left - {id}));
      assert left - {id} == {} ==> items - (left - {id}) == items;
    }
  }

  lemma WipeStep(rows: Rows, files: Files, w: Uuid, d: Disk, id: ItemId, fp: Fingerprint)
    requires Discarding(rows, files, w, d, More(Wiping))
    ensures var (d', out') := Act(d, w, Wiping, true, id, fp); Discarding(rows, files, w, d', out')
  {
    assert d.rows == DiskOf(OtherRows(rows, w), files).rows;
    assert (map at | at in d.files && at.0 != w :: d.files[at]) == DiskOf(rows, OtherFiles(files, w)).files;
  }

  lemma {:induction false} DiscardStays(rows: Rows, files: Files, w: Uuid, d: Disk, out: Outcome,
                                        picks: seq<(ItemId, Fingerprint)>)
    requires Discarding(rows, files, w, d, out)
    ensures var (d', out') := Alone(d, w, out, picks); Discarding(rows, files, w, d', out')
    decreases |picks|
  {
    if picks != [] && out.More? {
      DiscardStep(rows, files, w, d, out, picks[0].0, picks[0].1);
      var (d', out') := Act(d, w, out.work, true, picks[0].0, picks[0].1);
      DiscardStays(rows, files, w, d', out', picks[1..]);
    }
  }

  lemma {:induction false} DiscardEnds(rows: Rows, files: Files, w: Uuid, d: Disk, out: Outcome)
    returns (picks: seq<(ItemId, Fingerprint)>)
    requires Discarding(rows, files, w, d, out)
    ensures Alone(d, w, out, picks).1 == Ended
    decreases Stage(out).0, Stage(out).1
  {
    if out == Ended {
      picks := [];
    } else {
      var pick := Pick(out);
      DiscardStep(rows, files, w, d, out, pick.0, pick.1);
      var (d', out') := Act(d, w, out.work, true, pick.0, pick.1);
      var rest := DiscardEnds(rows, files, w, d', out');
      picks := [pick] + rest;
      assert picks[1..] == rest;
    }
  }

  /**
   * A discard alone on the disk can end, and whenever it has, whichever rows it took first, it ends
   * where the whole operation does.
   */
  lemma DiscardAlone(rows: Rows, files: Files, w: Uuid, picks: seq<(ItemId, Fingerprint)>)
    ensures var (d, out) := Alone(DiskOf(rows, files), w, More(ListingWorld), picks);
            out == Ended ==> d == DiskOf(OtherRows(rows, w), OtherFiles(files, w))
    ensures exists all :: picks <= all && Alone(DiskOf(rows, files), w, More(ListingWorld), all).1 == Ended
  {
    var d0 := DiskOf(rows, files);
    DiscardStays(rows, files, w, d0, More(ListingWorld), picks);
    var (d, out) := Alone(d0, w, More(ListingWorld), picks);
    var rest := DiscardEnds(rows, files, w, d, out);
    AloneJoin(d0, w, More(ListingWorld), picks, rest);
    assert picks <= picks + rest;
  }

  // ---- The same in the protocol's own events ----

  /** Successive calls of one pass, none failing. */
  function Calls(p: Pid, picks: seq<(ItemId, Fingerprint)>): seq<Event> {
    if picks == [] then [] else [Run(p, true, picks[0].0, picks[0].1)] + Calls(p, picks[1..])
  }

  lemma {:induction false} IdleCalls(s: State, p: Pid, picks: seq<(ItemId, Fingerprint)>)
    requires p !in s.procs || s.procs[p].Asking?
    ensures Exec(s, Calls(p, picks)) == s
    decreases |picks|
  {
    if picks != [] {
      assert Calls(p, picks)[1..] == Calls(p, picks[1..]);
      IdleCalls(s, p, picks[1..]);
    }
  }

  /** What a call leaves behind does not depend on what the pass was about to do. */
  lemma AfterForgets(s: State, p: Pid, w: Uuid, work: Work, out: Outcome)
    ensures After(s.(procs := s.procs[p := Working(w, work)]), p, w, out) == After(s, p, w, out)
  {
    assert s.procs[p := Working(w, work)] - {p} == s.procs - {p};
    if out.More? {
      assert s.procs[p := Working(w, work)][p := Working(w, out.work)] == s.procs[p := Working(w, out.work)];
    }
  }

  /** A pass under way runs through the protocol as it does alone, up to where it ends or goes on to the next group. */
  lemma {:induction false} CallsAreAlone(s: State, p: Pid, w: Uuid, work: Work, picks: seq<(ItemId, Fingerprint)>)
    requires p in s.procs && s.procs[p] == Working(w, work)
    ensures var (d, out) := Alone(s.disk, w, More(work), picks);
            Exec(s, Calls(p, picks)) == After(s.(disk := d), p, w, out)
    decreases |picks|
  {
    if picks == [] {
      assert s.procs[p := Working(w, work)] == s.procs;
    } else {
      var e, rest := Run(p, true, picks[0].0, picks[0].1), picks[1..];
      assert Calls(p, picks)[0] == e && Calls(p, picks)[1..] == Calls(p, rest);
      var (d, out) := Act(s.disk, w, work, true, picks[0].0, picks[0].1);
      var next := After(s.(disk := d), p, w, out);
      assert Step(s, e) == next;
      if out.More? {
        CallsAreAlone(next, p, w, out.work, rest);
        var (d', out') := Alone(d, w, out, rest);
        AfterForgets(s.(disk := d'), p, w, out.work, out');
        assert next.(disk := d') == s.(disk := d').(procs := s.procs[p := Working(w, out.work)]);
      } else {
        IdleCalls(next, p, rest);
      }
    }
  }

  /** One pass waiting for its lock, and nothing else. */
  function Waiting(d: Disk, p: Pid, job: Job): State { State(d, map[], map[p := Asking(job)], {}) }

  lemma GrantedPass(d: Disk, p: Pid, job: Job, picks: seq<(ItemId, Fingerprint)>)
    ensures var (d', out) := Alone(d, job.world, More(FirstWork(job)), picks);
            Exec(Waiting(d, p, job), [Grant(p)] + Calls(p, picks)) ==
            if out.More? then State(d', map[job.world := p], map[p := Working(job.world, out.work)], {})
            else if out.NextGroup? && out.later != [] then Waiting(d', p, BudgetJob(out.later))
            else Rest(d')
  {
    var s, w := Waiting(d, p, job), job.world;
    var begun := State(d, map[w := p], map[p := Working(w, FirstWork(job))], {});
    assert !Busy(s, p, w) && Step(s, Grant(p)) == begun;
    assert ([Grant(p)] + Calls(p, picks))[1..] == Calls(p, picks);
    CallsAreAlone(begun, p, w, FirstWork(job), picks);
    assert (map v | v in map[w := p] && map[w := p][v] != p :: map[w := p][v]) == map[];
    assert begun.procs - {p} == map[];
  }

  /**
   * A pass of the protocol with nothing else going on starts, is granted its lock, and once it has ended
   * leaves what it leaves alone: its effect on the disk, no lock and no trace.
   */
  lemma PassAlone(d: Disk, p: Pid, job: Job, picks: seq<(ItemId, Fingerprint)>)
    ensures var (d', out) := Alone(d, job.world, More(FirstWork(job)), picks);
            out == Ended || out == NextGroup([]) ==>
              Exec(Rest(d), [Start(p, job)] + ([Grant(p)] + Calls(p, picks))) == Rest(d')
  {
    assert ([Start(p, job)] + ([Grant(p)] + Calls(p, picks)))[1..] == [Grant(p)] + Calls(p, picks);
    assert Step(Rest(d), Start(p, job)) == Waiting(d, p, job);
    GrantedPass(d, p, job, picks);
  }

  /** A budget pass takes its worlds' locks one after another. */
  function BudgetEvents(p: Pid, groups: seq<Group>, picks: seq<(ItemId, Fingerprint)>): seq<Event> {
    if groups == [] then [] else [Grant(p)] + Calls(p, picks) + BudgetEvents(p, groups[1..], picks)
  }

  function BudgetJob(groups: seq<Group>): Job
    requires groups != []
  {
    Evict(groups[0].0, groups[0].1, groups[1..])
  }

  lemma GroupInProtocol(rows: Rows, files: Files, done: set<Uuid>, groups: seq<Group>, p: Pid,
                        picks: seq<(ItemId, Fingerprint)>)
    requires groups != [] && groups[0].0 !in done && |picks| > 4 * |groups[0].1|
    requires forall id :: id in groups[0].1 <==> id in rows && rows[id].worldId == groups[0].0
    ensures Exec(Waiting(ReleasedDisk(rows, files, done), p, BudgetJob(groups)), [Grant(p)] + Calls(p, picks)) ==
            var d := ReleasedDisk(rows, files, done + {groups[0].0});
            if groups[1..] == [] then Rest(d) else Waiting(d, p, BudgetJob(groups[1..]))
  {
    GroupReleased(rows, files, done, groups[0].0, groups[0].1, groups[1..], picks);
    GrantedPass(ReleasedDisk(rows, files, done), p, BudgetJob(groups), picks);
  }

  lemma {:induction false} GroupsReleased(rows: Rows, files: Files, done: set<Uuid>, groups: seq<Group>, p: Pid,
                                          picks: seq<(ItemId, Fingerprint)>)
    requires WholeWorlds(rows, groups) && groups != [] && done !! WorldsOf(groups)
    requires forall g :: g in groups ==> |picks| > 4 * |g.1|
    ensures Exec(Waiting(ReleasedDisk(rows, files, done), p, BudgetJob(groups)), BudgetEvents(p, groups, picks)) ==
            Rest(ReleasedDisk(rows, files, done + WorldsOf(groups)))
    decreases |groups|
  {
    var w, rest := groups[0].0, groups[1..];
    TailIsWholeWorlds(rows, groups, done);
    GroupInProtocol(rows, files, done, groups, p, picks);
    ExecJoin(Waiting(ReleasedDisk(rows, files, done), p, BudgetJob(groups)), [Grant(p)] + Calls(p, picks),
      BudgetEvents(p, rest, picks));
    if rest == [] {
      assert done + {w} + WorldsOf(rest) == done + {w};
    } else {
      GroupsReleased(rows, files, done + {w}, rest, p, picks);
    }
  }

  /**
   * A budget pass, run through the protocol by itself, takes and frees its worlds' locks one after another
   * and releases all its groups as the whole pass does.
   */
  lemma BudgetAlone(rows: Rows, files: Files, groups: seq<Group>, p: Pid, picks: seq<(ItemId, Fingerprint)>)
    requires WholeWorlds(rows, groups) && groups != [] && forall g :: g in groups ==> |picks| > 4 * |g.1|
    ensures Exec(Rest(DiskOf(rows, files)), [Start(p, BudgetJob(groups))] + BudgetEvents(p, groups, picks)) ==
            Rest(DiskOf(S.KeptRows(rows, WorldsOf(groups)), files - S.FilesIn(rows, WorldsOf(groups))))
  {
    var s, job := Rest(DiskOf(rows, files)), BudgetJob(groups);
    assert ([Start(p, job)] + BudgetEvents(p, groups, picks))[1..] == BudgetEvents(p, groups, picks);
    assert Step(s, Start(p, job)) == Waiting(s.disk, p, job);
    S.NothingReleased(rows, files);
    GroupsReleased(rows, files, {}, groups, p, picks);
    assert {} + WorldsOf(groups) == WorldsOf(groups);
  }
}
