/**
 * Every storage pass of every tab, interleaved one storage call at a time. A pass asks for its
 * world's lock and goes ahead when it is granted or denied; any call may fail; a tab may die
 * between any two calls, which frees its lock and leaves the disk as it is.
 */
module SyncProtocol {
  import opened Items
  import opened Fingerprints
  import opened Opfs

  type Pid = nat

  /** What the two stores hold: for each indexed item the file its row names, and whether each file is finished. */
  datatype Disk = Disk(rows: map<ItemId, BlobKey>, files: map<BlobKey, bool>)

  type Group = (Uuid, seq<ItemId>)

  datatype Job =
    | Fetch(world: Uuid, id: ItemId, fp: Fingerprint)
    | Evict(world: Uuid, ids: seq<ItemId>, later: seq<Group>)   // a plan is one group, a budget pass one for each world
    | Repair(world: Uuid)
    | Discard(world: Uuid)

  /** The storage call a pass makes next. */
  datatype Work =
    | Creating(id: ItemId, fp: Fingerprint)
    | Writing(id: ItemId, fp: Fingerprint)
    | Indexing(id: ItemId, fp: Fingerprint)
    | Picking(ids: seq<ItemId>, later: seq<Group>)
    | Removing(id: ItemId, found: Option<Fingerprint>, ids: seq<ItemId>, later: seq<Group>)
    | Checking(fp: Fingerprint, ids: seq<ItemId>, later: seq<Group>)
    | Unlinking(fp: Fingerprint, ids: seq<ItemId>, later: seq<Group>)
    | ListingRows
    | ListingFiles(listed: map<ItemId, Fingerprint>)
    | DroppingLies(lies: set<ItemId>, orphans: set<Fingerprint>)
    | Shaping(orphans: set<Fingerprint>, finished: set<Fingerprint>)
    | Reclaiming(finished: set<Fingerprint>)
    | ListingWorld
    | Clearing(left: set<ItemId>)
    | Wiping

  datatype Proc =
    | Asking(job: Job)
    | Working(world: Uuid, work: Work)
    | Touching(id: ItemId, row: BlobKey)   // got a row it read, about to put it back
    | Dropping(at: BlobKey)                // could not open a file it read, about to delete it

  /** The ways a run can leave the discipline the passes rely on. */
  datatype Flaw = PassesOverlap | IndexNotCleared | UnlockedTouch | UnlockedDiscard

  datatype State = State(disk: Disk, locks: map<Uuid, Pid>, procs: map<Pid, Proc>, flaws: set<Flaw>)

  /** `id` and `fp` say which of several pending items a pass takes next. */
  datatype Event =
    | Start(p: Pid, job: Job)
    | Grant(p: Pid)
    | Deny(p: Pid)
    | Run(p: Pid, ok: bool, id: ItemId, fp: Fingerprint)
    | Die(p: Pid)
    | Touch(p: Pid, id: ItemId)
    | FailToOpen(p: Pid, at: BlobKey)

  // ---- One storage call ----

  datatype Outcome = More(work: Work) | NextGroup(later: seq<Group>) | Ended

  predicate Named(d: Disk, at: BlobKey) { exists id :: id in d.rows && d.rows[id] == at }

  function WithoutRow(d: Disk, id: ItemId): Disk { d.(rows := d.rows - {id}) }

  function WithoutFile(d: Disk, at: BlobKey): Disk { d.(files := d.files - {at}) }

  function Act(d: Disk, w: Uuid, work: Work, ok: bool, id: ItemId, fp: Fingerprint): (Disk, Outcome) {
    match work
    // Storing fetched bytes: the file's entry appears empty, is committed, and then indexed.
    case Creating(i, f) =>
      if !ok then (d, Ended)
      else (if (w, f) in d.files then d else d.(files := d.files[(w, f) := false]), More(Writing(i, f)))
    case Writing(i, f) =>
      if !ok then (d, Ended) else (d.(files := d.files[(w, f) := true]), More(Indexing(i, f)))
    case Indexing(i, f) =>
      (if ok then d.(rows := d.rows[i := (w, f)]) else d, Ended)
    // Evicting: the row, then its file unless another row of the world names it.
    case Picking(ids, later) =>
      if ids == [] then (d, NextGroup(later))
      else if !ok then (d, More(Picking(ids[1..], later)))
      else (d, More(Removing(ids[0], if ids[0] in d.rows then Some(d.rows[ids[0]].1) else None, ids[1..], later)))
    case Removing(i, found, ids, later) =>
      if !ok then (d, More(Picking(ids, later)))
      else (WithoutRow(d, i), More(if found.Some? then Checking(found.value, ids, later) else Picking(ids, later)))
    case Checking(f, ids, later) =>
      (d, More(if !ok || Named(d, (w, f)) then Picking(ids, later) else Unlinking(f, ids, later)))
    case Unlinking(f, ids, later) =>
      (if ok then WithoutFile(d, (w, f)) else d, More(Picking(ids, later)))
    // Repairing: list rows, list files, drop the rows whose file is absent, reclaim finished orphans.
    case ListingRows =>
      (d, if !ok then Ended else More(ListingFiles(map i | i in d.rows && d.rows[i].0 == w :: d.rows[i].1)))
    case ListingFiles(listed) =>
      (d, if !ok then Ended
          else More(DroppingLies(set i | i in listed && (w, listed[i]) !in d.files,
                                 set at | at in d.files && at.0 == w && at.1 !in listed.Values :: at.1)))
    case DroppingLies(lies, orphans) =>
      if lies == {} then (d, More(Shaping(orphans, {})))
      else if id !in lies then (d, More(work))
      else (if ok then WithoutRow(d, id) else d, More(DroppingLies(lies - {id}, orphans)))
    case Shaping(orphans, finished) =>
      if orphans == {} then (d, More(Reclaiming(finished)))
      else if fp !in orphans then (d, More(work))
      else
        var found := ok && (w, fp) in d.files && d.files[(w, fp)];
        (d, More(Shaping(orphans - {fp}, if found then finished + {fp} else finished)))
    case Reclaiming(finished) =>
      if finished == {} then (d, Ended)
      else if fp !in finished then (d, More(work))
      else (if ok then WithoutFile(d, (w, fp)) else d, More(Reclaiming(finished - {fp})))
    // Discarding a refused world: its rows one by one, then its whole directory, even if a row would not go.
    case ListingWorld =>
      (d, More(if ok then Clear(set i | i in d.rows && d.rows[i].0 == w) else Wiping))
    case Clearing(left) =>
      if !ok then (d, More(Wiping))
      else if id !in left then (d, More(work))
      else (WithoutRow(d, id), More(Clear(left - {id})))
    case Wiping =>
      (if ok then d.(files := map at | at in d.files && at.0 != w :: d.files[at]) else d, Ended)
  }

  function Clear(left: set<ItemId>): Work { if left == {} then Wiping else Clearing(left) }

  /** The one failing call that breaks the rule: rows of a refused world that would not go. */
  predicate LeavesRows(d: Disk, w: Uuid, work: Work, ok: bool) {
    !ok && (work.ListingWorld? || work.Clearing?) && exists id :: id in d.rows && d.rows[id].0 == w
  }

  // ---- One event ----

  function FirstWork(job: Job): Work {
    match job
    case Fetch(_, id, fp) => Creating(id, fp)
    case Evict(_, ids, later) => Picking(ids, later)
    case Repair(_) => ListingRows
    case Discard(_) => ListingWorld
  }

  function Leave(s: State, p: Pid): State {
    s.(procs := s.procs - {p}, locks := map w | w in s.locks && s.locks[w] != p :: s.locks[w])
  }

  function After(s: State, p: Pid, w: Uuid, out: Outcome): State {
    match out
    case More(work) => s.(procs := s.procs[p := Working(w, work)])
    case NextGroup(later) =>
      if later == [] then Leave(s, p)
      else
        var left := Leave(s, p);
        left.(procs := left.procs[p := Asking(Evict(later[0].0, later[0].1, later[1..]))])
    case Ended => Leave(s, p)
  }

  predicate AboutToIndex(proc: Proc, at: BlobKey) {
    proc.Working? && proc.world == at.0 && proc.work.Indexing? && proc.work.fp == at.1
  }

  /** A row names the file, or a pass that has just finished it is about to write one. */
  predicate Needed(s: State, at: BlobKey) {
    Named(s.disk, at) || exists p :: p in s.procs && AboutToIndex(s.procs[p], at)
  }

  /** A pass other than `p`'s is under way in the world. */
  predicate Busy(s: State, p: Pid, w: Uuid) {
    exists q :: q in s.procs && q != p && s.procs[q].Working? && s.procs[q].world == w
  }

  /** A pass goes ahead, with its lock or without. */
  function Begin(s: State, p: Pid, job: Job): State {
    s.(procs := s.procs[p := Working(job.world, FirstWork(job))],
       flaws := if Busy(s, p, job.world) then s.flaws + {PassesOverlap} else s.flaws)
  }

  /** An event that cannot happen now changes nothing. A flaw is noted where harm becomes possible. */
  function Step(s: State, e: Event): State {
    match e
    case Start(p, job) =>
      if p in s.procs then s else s.(procs := s.procs[p := Asking(job)])
    case Grant(p) =>
      if p in s.procs && s.procs[p].Asking? && s.procs[p].job.world !in s.locks
      then
        var job := s.procs[p].job;
        Begin(s.(locks := s.locks[job.world := p]), p, job)
      else s
    case Deny(p) =>
      if p in s.procs && s.procs[p].Asking? then Begin(s, p, s.procs[p].job) else s
    case Run(p, ok, id, fp) =>
      if p !in s.procs then s
      else (
        match s.procs[p]
        case Asking(_) => s
        case Working(w, work) =>
          var (disk, out) := Act(s.disk, w, work, ok, id, fp);
          var flaws := if LeavesRows(s.disk, w, work, ok) then s.flaws + {IndexNotCleared} else s.flaws;
          After(s.(disk := disk, flaws := flaws), p, w, out)
        case Touching(i, row) =>
          var same := i in s.disk.rows && s.disk.rows[i] == row;
          if ok then
            Leave(s.(disk := s.disk.(rows := s.disk.rows[i := row]),
                     flaws := if same then s.flaws else s.flaws + {UnlockedTouch}), p)
          else Leave(s, p)
        case Dropping(at) =>
          if ok then
            Leave(s.(disk := WithoutFile(s.disk, at),
                     flaws := if Needed(s, at) then s.flaws + {UnlockedDiscard} else s.flaws), p)
          else Leave(s, p)
      )
    case Die(p) => Leave(s, p)
    case Touch(p, id) =>
      if p in s.procs || id !in s.disk.rows then s else s.(procs := s.procs[p := Touching(id, s.disk.rows[id])])
    case FailToOpen(p, at) =>
      if p !in s.procs && at in s.disk.files && s.disk.files[at] then s.(procs := s.procs[p := Dropping(at)]) else s
  }

  function Exec(s: State, events: seq<Event>): State
    decreases |events|
  {
    if events == [] then s else Exec(Step(s, events[0]), events[1..])
  }

  function Rest(disk: Disk): State { State(disk, map[], map[], {}) }

  // ---- Safety ----

  /** Every row names a finished file. */
  ghost predicate Consistent(d: Disk) {
    forall id :: id in d.rows ==> d.rows[id] in d.files && d.files[d.rows[id]]
  }

  /** What a pass that holds its world's lock may rely on before its next call. */
  ghost predicate WorkOk(d: Disk, w: Uuid, work: Work) {
    match work
    case Indexing(_, f) => (w, f) in d.files && d.files[(w, f)]
    case Unlinking(f, _, _) => !Named(d, (w, f))
    case ListingFiles(listed) => forall id :: id in d.rows && d.rows[id].0 == w ==> d.rows[id].1 in listed.Values
    case DroppingLies(_, orphans) => Unnamed(d, w, orphans)
    case Shaping(orphans, finished) => Unnamed(d, w, orphans + finished)
    case Reclaiming(finished) => Unnamed(d, w, finished)
    case Clearing(left) => forall id :: id in d.rows && d.rows[id].0 == w ==> id in left
    case Wiping => forall id :: id in d.rows ==> d.rows[id].0 != w
    case _ => true
  }

  ghost predicate Unnamed(d: Disk, w: Uuid, fps: set<Fingerprint>) {
    forall id :: id in d.rows && d.rows[id].0 == w ==> d.rows[id].1 !in fps
  }

  lemma ActKeeps(d: Disk, w: Uuid, work: Work, ok: bool, id: ItemId, fp: Fingerprint)
    requires Consistent(d) && WorkOk(d, w, work) && !LeavesRows(d, w, work, ok)
    ensures var (d', out) := Act(d, w, work, ok, id, fp); Consistent(d') && (out.More? ==> WorkOk(d', w, out.work))
  {
    var (d', out) := Act(d, w, work, ok, id, fp);
    forall i | i in d'.rows ensures d'.rows[i] in d'.files && d'.files[d'.rows[i]] {
      assert i in d.rows || d'.rows[i] in d'.files;
    }
    if work.ListingRows? && ok {
      forall i | i in d.rows && d.rows[i].0 == w ensures d.rows[i].1 in out.work.listed.Values {
        assert i in out.work.listed;
      }
    }
    if work.ListingWorld? && ok {
      var all := set i | i in d.rows && d.rows[i].0 == w;
      assert forall i :: i in d.rows && d.rows[i].0 == w ==> i in all;
    }
  }

  /** A pass of one world leaves alone what passes of other worlds rely on. */
  lemma ActFrame(d: Disk, w: Uuid, work: Work, ok: bool, id: ItemId, fp: Fingerprint, other: Uuid, theirs: Work)
    requires other != w && WorkOk(d, other, theirs)
    ensures WorkOk(Act(d, w, work, ok, id, fp).0, other, theirs)
  {
  }

  ghost predicate ProcOk(s: State, p: Pid)
    requires p in s.procs
  {
    match s.procs[p]
    case Asking(_) => true
    case Working(w, work) => !Busy(s, p, w) && WorkOk(s.disk, w, work)
    case Touching(_, _) => true
    case Dropping(_) => true
  }

  ghost predicate Disciplined(s: State) {
    Consistent(s.disk) && forall p :: p in s.procs ==> ProcOk(s, p)
  }

  lemma DisciplinedStep(s: State, e: Event)
    requires s.flaws == {} ==> Disciplined(s)
    ensures s.flaws <= Step(s, e).flaws
    ensures Step(s, e).flaws == {} ==> Disciplined(Step(s, e))
  {
    var s' := Step(s, e);
    if s'.flaws == {} {
      if e.Run? && e.p in s.procs && s.procs[e.p].Working? {
        DisciplinedRun(s, e);
      } else if e.Grant? || e.Deny? {
        DisciplinedBegin(s, e);
      } else {
        forall p | p in s'.procs ensures ProcOk(s', p) {
          assert p in s.procs ==> ProcOk(s, p);
        }
      }
    }
  }

  lemma DisciplinedBegin(s: State, e: Event)
    requires Disciplined(s) && (e.Grant? || e.Deny?) && Step(s, e).flaws == {}
    ensures Disciplined(Step(s, e))
  {
    var s' := Step(s, e);
    if s' != s {
      assert !Busy(s, e.p, s.procs[e.p].job.world);
      forall p | p in s'.procs ensures ProcOk(s', p) {
        assert ProcOk(s, p);
      }
    }
  }

  lemma DisciplinedRun(s: State, e: Event)
    requires Disciplined(s)
    requires e.Run? && e.p in s.procs && s.procs[e.p].Working? && Step(s, e).flaws == {}
    ensures Disciplined(Step(s, e))
  {
    var s' := Step(s, e);
    var w, work := s.procs[e.p].world, s.procs[e.p].work;
    assert ProcOk(s, e.p);
    ActKeeps(s.disk, w, work, e.ok, e.id, e.fp);
    forall p | p in s'.procs ensures ProcOk(s', p) {
      if p != e.p {
        assert ProcOk(s, p);
        if s.procs[p].Working? {
          ActFrame(s.disk, w, work, e.ok, e.id, e.fp, s.procs[p].world, s.procs[p].work);
        }
      }
    }
  }

  /**
   * Whatever the passes, reads, tabs, denied locks, deaths and failing calls: as long as no pass started
   * in a world where another was under way, no refused world kept its rows, no touch put back a row that
   * had gone or changed, and no read deleted a file a row named or was about to, every row names a
   * finished file.
   */
  lemma {:induction false} FlawlessRunsStayConsistent(s: State, events: seq<Event>)
    requires s.flaws == {} ==> Disciplined(s)
    ensures s.flaws <= Exec(s, events).flaws
    ensures Exec(s, events).flaws == {} ==> Disciplined(Exec(s, events))
    decreases |events|
  {
    if events != [] {
      DisciplinedStep(s, events[0]);
      FlawlessRunsStayConsistent(Step(s, events[0]), events[1..]);
    }
  }

  /**
   * When a refused world's discard makes its last call, no row of that world is left, whatever other
   * tabs are doing; and no file of it is left either unless that call fails on files that are there.
   */
  lemma DiscardLeavesNothing(s: State, p: Pid, ok: bool, id: ItemId, fp: Fingerprint)
    requires Disciplined(s) && p in s.procs && s.procs[p].Working? && s.procs[p].work == Wiping
    ensures var s', w := Step(s, Run(p, ok, id, fp)), s.procs[p].world;
            && p !in s'.procs
            && (forall i :: i in s'.disk.rows ==> s'.disk.rows[i].0 != w)
            && ((forall at :: at in s'.disk.files ==> at.0 != w) <==>
                ok || forall at :: at in s.disk.files ==> at.0 != w)
  {
    assert ProcOk(s, p);
  }

  // ---- What the locks are for ----

  /** A pass under way holds its world's lock. */
  ghost predicate HoldsLock(s: State, p: Pid)
    requires p in s.procs
  {
    s.procs[p].Working? ==> s.procs[p].world in s.locks && s.locks[s.procs[p].world] == p
  }

  lemma LockedStep(s: State, e: Event)
    requires !e.Deny? && PassesOverlap !in s.flaws && forall p :: p in s.procs ==> HoldsLock(s, p)
    ensures var s' := Step(s, e); PassesOverlap !in s'.flaws && forall p :: p in s'.procs ==> HoldsLock(s', p)
  {
    var s' := Step(s, e);
    forall p | p in s'.procs ensures HoldsLock(s', p) {
      assert p in s.procs ==> HoldsLock(s, p);
    }
    if e.Grant? && s' != s {
      assert forall q :: q in s.procs && q != e.p ==> HoldsLock(s, q);
    }
  }

  /** While nobody is denied, no two passes of one world are ever under way together. */
  lemma {:induction false} LocksKeepPassesApart(s: State, events: seq<Event>)
    requires PassesOverlap !in s.flaws && forall p :: p in s.procs ==> HoldsLock(s, p)
    requires forall e :: e in events ==> !e.Deny?
    ensures PassesOverlap !in Exec(s, events).flaws
    decreases |events|
  {
    if events != [] {
      assert events[0] in events;
      LockedStep(s, events[0]);
      LocksKeepPassesApart(Step(s, events[0]), events[1..]);
    }
  }

  // ---- The discipline is needed ----

  /** Safe for runs that show no flaws but these. */
  ghost predicate SafeWith(allowed: set<Flaw>) {
    forall d, events :: Consistent(d) && Exec(Rest(d), events).flaws <= allowed ==>
        Consistent(Exec(Rest(d), events).disk)
  }

  lemma {:induction false} ExecJoin(s: State, before: seq<Event>, after: seq<Event>)
    ensures Exec(s, before + after) == Exec(Exec(s, before), after)
    decreases |before|
  {
    if before == [] {
      assert before + after == after;
    } else {
      assert (before + after)[1..] == before[1..] + after;
      ExecJoin(Step(s, before[0]), before[1..], after);
    }
  }

  lemma Then(s: State, events: seq<Event>, e: Event)
    ensures Exec(s, events + [e]) == Step(Exec(s, events), e)
  {
    ExecJoin(s, events, [e]);
    assert [e][1..] == [];
  }

  const ITEM := SceneState(0)

  function Ok(p: Pid, f: Fingerprint): Event { Run(p, true, ITEM, f) }

  /** One item of world 0 and its file. */
  function Held(f: Fingerprint): Disk { Disk(map[ITEM := (0, f)], map[(0, f) := true]) }

  /** A call that succeeds and is not the pass's last. */
  lemma NextCall(s: State, events: seq<Event>, t: State, p: Pid, f: Fingerprint, d: Disk, work: Work)
    returns (more: seq<Event>)
    requires Exec(s, events) == t && p in t.procs && t.procs[p].Working?
    requires Act(t.disk, t.procs[p].world, t.procs[p].work, true, ITEM, f) == (d, More(work))
    ensures Exec(s, more) == t.(disk := d, procs := t.procs[p := Working(t.procs[p].world, work)])
  {
    Then(s, events, Ok(p, f));
    more := events + [Ok(p, f)];
  }

  lemma TouchResurrects(f: Fingerprint) returns (events: seq<Event>)
    ensures var s := Exec(Rest(Held(f)), events); s.flaws == {UnlockedTouch} && !Consistent(s.disk)
  {
    var s0, others := Rest(Held(f)), map[2 := Touching(ITEM, (0, f))];
    Then(s0, [], Touch(2, ITEM));
    assert [] + [Touch(2, ITEM)] == [Touch(2, ITEM)];
    assert Exec(s0, [Touch(2, ITEM)]) == State(Held(f), map[], others, {});
    events := DiscardAside(s0, [Touch(2, ITEM)], others, {}, f);
    Then(s0, events, Ok(2, f));
    events := events + [Ok(2, f)];
    assert ITEM in Exec(s0, events).disk.rows;
  }

  /** A discard of world 0 by tab 1, from start to end, beside whatever else is waiting. */
  lemma DiscardAside(s: State, events: seq<Event>, others: map<Pid, Proc>, flaws: set<Flaw>, f: Fingerprint)
    returns (more: seq<Event>)
    requires 1 !in others && Exec(s, events) == State(Held(f), map[], others, flaws)
    requires forall q :: q in others ==> !others[q].Working?
    ensures Exec(s, more) == State(Disk(map[], map[]), map[], others, flaws)
  {
    more := StartDiscard(s, events, Held(f), others, flaws);
    Then(s, more, Ok(1, f));
    more := more + [Ok(1, f)];
    assert (set i | i in Held(f).rows && Held(f).rows[i].0 == 0) == {ITEM};
    assert Exec(s, more) == State(Held(f), map[0 := 1], others[1 := Working(0, Clearing({ITEM}))], flaws);
    more := ClearItem(s, more, others, flaws, f);
    more := Wipe(s, more, Disk(map[], map[(0, f) := true]), others, flaws, f);
  }

  lemma ClearItem(s: State, events: seq<Event>, others: map<Pid, Proc>, flaws: set<Flaw>, f: Fingerprint)
    returns (more: seq<Event>)
    requires Exec(s, events) == State(Held(f), map[0 := 1], others[1 := Working(0, Clearing({ITEM}))], flaws)
    ensures Exec(s, more) ==
            State(Disk(map[], map[(0, f) := true]), map[0 := 1], others[1 := Working(0, Wiping)], flaws)
  {
    Then(s, events, Ok(1, f));
    more := events + [Ok(1, f)];
    assert WithoutRow(Held(f), ITEM) == Disk(map[], map[(0, f) := true]);
  }

  lemma StartDiscard(s: State, events: seq<Event>, d: Disk, others: map<Pid, Proc>, flaws: set<Flaw>)
    returns (more: seq<Event>)
    requires 1 !in others && Exec(s, events) == State(d, map[], others, flaws)
    requires forall q :: q in others ==> !others[q].Working?
    ensures Exec(s, more) == State(d, map[0 := 1], others[1 := Working(0, ListingWorld)], flaws)
  {
    Then(s, events, Start(1, Discard(0)));
    more := events + [Start(1, Discard(0))];
    assert Exec(s, more) == State(d, map[], others[1 := Asking(Discard(0))], flaws);
    Then(s, more, Grant(1));
    more := more + [Grant(1)];
  }

  lemma Wipe(s: State, events: seq<Event>, d: Disk, others: map<Pid, Proc>, flaws: set<Flaw>, f: Fingerprint)
    returns (more: seq<Event>)
    requires 1 !in others && Exec(s, events) == State(d, map[0 := 1], others[1 := Working(0, Wiping)], flaws)
    ensures Exec(s, more) == State(d.(files := map at | at in d.files && at.0 != 0 :: d.files[at]), map[], others,
            flaws)
  {
    Then(s, events, Ok(1, f));
    more := events + [Ok(1, f)];
    assert others[1 := Working(0, Wiping)] - {1} == others;
    assert (map w | w in map[0 := 1] && map[0 := 1][w] != 1 :: map[0 := 1][w]) == map[];
  }

  /** A write that goes ahead without the lock can index its item just before another tab wipes the world's files. */
  lemma DenialLosesAFile(f: Fingerprint) returns (events: seq<Event>)
    ensures var s := Exec(Rest(Disk(map[], map[])), events); s.flaws == {PassesOverlap} && !Consistent(s.disk)
  {
    var d := Disk(map[], map[]);
    var s0 := Rest(d);
    events := StartDiscard(s0, [], d, map[], {});
    Then(s0, events, Ok(1, f));
    events := events + [Ok(1, f)];
    assert Exec(s0, events) == State(d, map[0 := 1], map[1 := Working(0, Wiping)], {});
    events := FetchDenied(s0, events, f);
    events := Wipe(s0, events, Held(f), map[], {PassesOverlap}, f);
    assert ITEM in Exec(s0, events).disk.rows;
  }

  lemma FetchDenied(s: State, events: seq<Event>, f: Fingerprint) returns (more: seq<Event>)
    requires Exec(s, events) == State(Disk(map[], map[]), map[0 := 1], map[1 := Working(0, Wiping)], {})
    ensures Exec(s, more) == State(Held(f), map[0 := 1], map[1 := Working(0, Wiping)], {PassesOverlap})
  {
    var job := Fetch(0, ITEM, f);
    Then(s, events, Start(2, job));
    more := events + [Start(2, job)];
    var asking := State(Disk(map[], map[]), map[0 := 1], map[1 := Working(0, Wiping), 2 := Asking(job)], {});
    assert Exec(s, more) == asking && asking.procs[1].Working? && Busy(asking, 2, 0);
    Then(s, more, Deny(2));
    more := more + [Deny(2)];
    assert Exec(s, more) == State(Disk(map[], map[]), map[0 := 1],
      map[1 := Working(0, Wiping), 2 := Working(0, Creating(ITEM, f))],
                                  {PassesOverlap});
    more := StoreUnlocked(s, more, f);
  }

  lemma StoreUnlocked(s: State, events: seq<Event>, f: Fingerprint) returns (more: seq<Event>)
    requires Exec(s, events) == State(Disk(map[], map[]), map[0 := 1],
                                      map[1 := Working(0, Wiping), 2 := Working(0, Creating(ITEM, f))], {PassesOverlap})
    ensures Exec(s, more) == State(Held(f), map[0 := 1], map[1 := Working(0, Wiping)], {PassesOverlap})
  {
    var wiping := Working(0, Wiping);
    var t := State(Disk(map[], map[]), map[0 := 1], map[1 := wiping, 2 := Working(0, Creating(ITEM, f))],
      {PassesOverlap});
    var created := Disk(map[], map[(0, f) := false]);
    more := NextCall(s, events, t, 2, f, created, Writing(ITEM, f));
    t := t.(disk := created, procs := map[1 := wiping, 2 := Working(0, Writing(ITEM, f))]);
    var written := Disk(map[], map[(0, f) := true]);
    assert created.files[(0, f) := true] == written.files;
    more := NextCall(s, more, t, 2, f, written, Indexing(ITEM, f));
    more := IndexUnlocked(s, more, f);
  }

  lemma IndexUnlocked(s: State, events: seq<Event>, f: Fingerprint) returns (more: seq<Event>)
    requires Exec(s, events) == State(Disk(map[], map[(0, f) := true]), map[0 := 1],
                                      map[1 := Working(0, Wiping), 2 := Working(0, Indexing(ITEM, f))], {PassesOverlap})
    ensures Exec(s, more) == State(Held(f), map[0 := 1], map[1 := Working(0, Wiping)], {PassesOverlap})
  {
    Then(s, events, Ok(2, f));
    more := events + [Ok(2, f)];
  }

  /** A discard whose rows would not go removes the files they name all the same. */
  lemma UnclearedIndexLosesAFile(f: Fingerprint) returns (events: seq<Event>)
    ensures var s := Exec(Rest(Held(f)), events); s.flaws == {IndexNotCleared} && !Consistent(s.disk)
  {
    var s0 := Rest(Held(f));
    events := StartDiscard(s0, [], Held(f), map[], {});
    var fail := Run(1, false, ITEM, f);
    assert ITEM in Held(f).rows && Held(f).rows[ITEM].0 == 0;
    Then(s0, events, fail);
    events := events + [fail];
    assert Exec(s0, events) == State(Held(f), map[0 := 1], map[1 := Working(0, Wiping)], {IndexNotCleared});
    events := Wipe(s0, events, Held(f), map[], {IndexNotCleared}, f);
    assert ITEM in Exec(s0, events).disk.rows;
  }

  /** A read that deletes what it could not open leaves the row that named it. */
  lemma UnlockedDiscardLosesAFile(f: Fingerprint) returns (events: seq<Event>)
    ensures Exec(Rest(Held(f)), events) == State(Disk(map[ITEM := (0, f)], map[]), map[], map[], {UnlockedDiscard})
    ensures !Consistent(Exec(Rest(Held(f)), events).disk)
  {
    var s0 := Rest(Held(f));
    events := [FailToOpen(2, (0, f))];
    Then(s0, [], events[0]);
    assert [] + events == events;
    var s1 := s0.(procs := map[2 := Dropping((0, f))]);
    assert Exec(s0, events) == s1;
    Then(s0, events, Ok(2, f));
    events := events + [Ok(2, f)];
    assert ITEM in s1.disk.rows && Needed(s1, (0, f));
    assert WithoutFile(Held(f), (0, f)).files == map[];
    assert s1.procs - {2} == map[];
  }

  /**
   * A read may delete a file another tab is writing: the one it could not open went, and the name was
   * created anew, before the deletion. It harms no row; the writer has yet to finish and index the file.
   */
  lemma LateDiscardHitsAWrite(f: Fingerprint) returns (events: seq<Event>)
    ensures var at, s := (0, f), Exec(Rest(Disk(map[], map[(0, f) := true])), events);
            && s.disk.files == map[at := false] && s.flaws == {}
            && Step(s, Ok(2, f)).disk.files == map[] && Step(s, Ok(2, f)).flaws == {}
  {
    var d := Disk(map[], map[(0, f) := true]);
    var s0, others := Rest(d), map[2 := Dropping((0, f))];
    events := [FailToOpen(2, (0, f))];
    Then(s0, [], events[0]);
    assert [] + events == events;
    assert Exec(s0, events) == s0.(procs := others);
    events := OrphanGoes(s0, events, others, f);
    events := CreateAside(s0, events, others, f);
  }

  /** Tab 1 discards world 0, which has one file and no row. */
  lemma OrphanGoes(s: State, events: seq<Event>, others: map<Pid, Proc>, f: Fingerprint) returns (more: seq<Event>)
    requires 1 !in others && Exec(s, events) == State(Disk(map[], map[(0, f) := true]), map[], others, {})
    requires forall q :: q in others ==> !others[q].Working?
    ensures Exec(s, more) == State(Disk(map[], map[]), map[], others, {})
  {
    var d := Disk(map[], map[(0, f) := true]);
    more := StartDiscard(s, events, d, others, {});
    more := NextCall(s, more, State(d, map[0 := 1], others[1 := Working(0, ListingWorld)], {}), 1, f, d, Wiping);
    more := Wipe(s, more, d, others, {}, f);
  }

  /** Tab 1 starts to store an item of world 0 and has created its file. */
  lemma CreateAside(s: State, events: seq<Event>, others: map<Pid, Proc>, f: Fingerprint) returns (more: seq<Event>)
    requires 1 !in others && Exec(s, events) == State(Disk(map[], map[]), map[], others, {})
    requires forall q :: q in others ==> !others[q].Working?
    ensures Exec(s, more) == State(Disk(map[], map[(0, f) := false]), map[0 := 1],
                                   others[1 := Working(0, Writing(ITEM, f))], {})
  {
    var job := Fetch(0, ITEM, f);
    Then(s, events, Start(1, job));
    more := events + [Start(1, job)];
    assert Exec(s, more) == State(Disk(map[], map[]), map[], others[1 := Asking(job)], {});
    Then(s, more, Grant(1));
    more := more + [Grant(1)];
    var t := State(Disk(map[], map[]), map[0 := 1], others[1 := Working(0, Creating(ITEM, f))], {});
    assert Exec(s, more) == t;
    more := NextCall(s, more, t, 1, f, Disk(map[], map[(0, f) := false]), Writing(ITEM, f));
  }

  /**
   * How a row comes to name an unfinished file, which no repair looks for: its file is deleted by a
   * read, and another item with the same content is being stored when its tab dies.
   */
  lemma UnfinishedLieIsReachable(f: Fingerprint) returns (events: seq<Event>)
    ensures Exec(Rest(Held(f)), events) ==
            Rest(Disk(map[ITEM := (0, f)], map[(0, f) := false])).(flaws := {UnlockedDiscard})
  {
    var s0, job := Rest(Held(f)), Fetch(0, SceneState(1), f);
    events := UnlockedDiscardLosesAFile(f);
    var bare := Disk(map[ITEM := (0, f)], map[]);
    Then(s0, events, Start(1, job));
    events := events + [Start(1, job)];
    Then(s0, events, Grant(1));
    events := events + [Grant(1)];
    var t := State(bare, map[0 := 1], map[1 := Working(0, Creating(SceneState(1), f))], {UnlockedDiscard});
    assert Exec(s0, events) == t;
    events := NextCall(s0, events, t, 1, f, bare.(files := map[(0, f) := false]), Writing(SceneState(1), f));
    Then(s0, events, Die(1));
    events := events + [Die(1)];
  }

  /** Each part of the discipline is needed: allow any one flaw and some run loses the file of a row. */
  lemma SafetyNeedsDiscipline(allowed: set<Flaw>)
    ensures SafeWith(allowed) <==> allowed == {}
  {
    if allowed == {} {
      forall d, events | Consistent(d)
          && Exec(Rest(d), events).flaws <= {} ensures Consistent(Exec(Rest(d), events).disk) {
        FlawlessRunsStayConsistent(Rest(d), events);
      }
    } else {
      var flaw :| flaw in allowed;
      var f := Fingerprint(seq(DIGEST_LEN, _ => 0 as bv8));
      assert Consistent(Held(f)) && Consistent(Disk(map[], map[]));
      var events;
      match flaw
      case PassesOverlap => events := DenialLosesAFile(f);
      case IndexNotCleared => events := UnclearedIndexLosesAFile(f);
      case UnlockedTouch => events := TouchResurrects(f);
      case UnlockedDiscard => events := UnlockedDiscardLosesAFile(f);
    }
  }
}
