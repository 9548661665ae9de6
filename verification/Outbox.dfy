/** The offline outbox: what is queued, in what order it replays, and when a change may go. */
module Outbox {
  import opened Items
  import opened Sorting
  import opened Conflict

  datatype QueuedChange = QueuedChange(localId: Uuid, worldId: Uuid, command: string, enqueuedSeq: u64,
      actorRoleHint: Role)

  datatype RejectionReason = PermissionDenied | Superseded | GoneAway | Invalid | PlayPaused | NotYourTurn

  datatype ReconcileOutcome = ReconcileOutcome(localId: Uuid, applied: bool, reason: Option<RejectionReason>)

  // ---- The rules ----

  /** One past the highest number queued, frozen at the top; zero for an empty outbox. */
  ghost predicate IsNext(queued: set<QueuedChange>, n: u64) {
    if queued == {} then n == 0
    else exists high :: high in queued && n == SaturatingAdd(high.enqueuedSeq, 1) &&
                        forall c :: c in queued ==> c.enqueuedSeq <= high.enqueuedSeq
  }

  function Highest(queued: seq<QueuedChange>): (high: QueuedChange)
    requires queued != []
    ensures high in queued && forall c :: c in queued ==> c.enqueuedSeq <= high.enqueuedSeq
  {
    if |queued| == 1 then queued[0]
    else
      var rest := Highest(queued[1..]);
      assert queued == [queued[0]] + queued[1..];
      if queued[0].enqueuedSeq > rest.enqueuedSeq then queued[0] else rest
  }

  function NextSeq(queued: seq<QueuedChange>): (n: u64)
    ensures IsNext(Members(queued), n)
  {
    if queued == [] then 0
    else
      assert queued[0] in Members(queued);
      var high := Highest(queued);
      assert high in Members(queued);
      SaturatingAdd(high.enqueuedSeq, 1)
  }

  lemma NextIsOne(queued: set<QueuedChange>, m: u64, n: u64)
    requires IsNext(queued, m) && IsNext(queued, n)
    ensures m == n
  {
  }

  predicate BySeq(a: QueuedChange, b: QueuedChange) { a.enqueuedSeq <= b.enqueuedSeq }

  predicate ByWorldThenSeq(a: QueuedChange, b: QueuedChange) {
    a.worldId < b.worldId || (a.worldId == b.worldId && a.enqueuedSeq <= b.enqueuedSeq)
  }

  function ReplayOrder(queued: seq<QueuedChange>): seq<QueuedChange> { SortBy(queued, ByWorldThenSeq) }

  function OfWorld(queued: seq<QueuedChange>, world: Uuid): seq<QueuedChange> {
    if queued == [] then []
    else (if queued[0].worldId == world then [queued[0]] else []) + OfWorld(queued[1..], world)
  }

  function ReplayForWorld(queued: seq<QueuedChange>, world: Uuid): seq<QueuedChange> {
    OfWorld(ReplayOrder(queued), world)
  }

  function ResolvedIds(outcomes: seq<ReconcileOutcome>): set<Uuid> { set o | o in outcomes :: o.localId }

  /** What no outcome names, in order. */
  function Unresolved(queued: seq<QueuedChange>, resolved: set<Uuid>): seq<QueuedChange> {
    if queued == [] then []
    else
      var last := queued[|queued| - 1];
      Unresolved(queued[..|queued| - 1], resolved) + if last.localId in resolved then [] else [last]
  }

  // ---- The queue in memory ----

  class ChangeQueue {
    var changes: seq<QueuedChange>

    constructor ()
      ensures changes == []
    {
      changes := [];
    }

    method Enqueue(change: QueuedChange)
      modifies this
      ensures changes == old(changes) + [change]
    {
      changes := changes + [change];
    }

    /** Drain what the server resolved and hand back everything it did not. */
    method ApplyOutcomes(outcomes: seq<ReconcileOutcome>) returns (unresolved: seq<QueuedChange>)
      modifies this
      ensures changes == unresolved == Unresolved(old(changes), ResolvedIds(outcomes))
    {
      var resolved := ResolvedIds(outcomes);
      var pending: seq<QueuedChange> := [];
      for i := 0 to |changes|
        invariant changes == old(changes)
        invariant pending == Unresolved(changes[..i], resolved)
      {
        assert changes[..i + 1][..i] == changes[..i];
        if changes[i].localId !in resolved {
          pending := pending + [changes[i]];
        }
      }
      assert changes[..|changes|] == changes;
      unresolved := pending;
      changes := pending;
    }
  }

  // ---- The durable store ----

  type Rows = map<Uuid, QueuedChange>

  ghost predicate KeyedById(rows: Rows) { forall id :: id in rows ==> rows[id].localId == id }

  /** Every row once, oldest first. */
  ghost predicate ListsByAge(list: seq<QueuedChange>, rows: Rows) {
    && Distinct(list)
    && (forall c :: c in list <==> c.localId in rows && rows[c.localId] == c)
    && SortedBy(list, BySeq)
  }

  function Appended(rows: Rows, world: Uuid, id: Uuid, command: string, role: Role, n: u64): Rows {
    rows[id := QueuedChange(id, world, command, n, role)]
  }

  class OutboxStore {
    var rows: Rows

    constructor ()
      ensures rows == map[]
    {
      rows := map[];
    }

    method All() returns (list: seq<QueuedChange>)
      requires KeyedById(rows)
      ensures ListsByAge(list, rows)
    {
      var stored := rows;
      var keys := ListKeys(stored);
      var found := seq(|keys|, i requires 0 <= i < |keys| => assert keys[i] in keys; stored[keys[i]]);
      forall i, j | 0 <= i < j < |found| ensures found[i] != found[j] {
        assert keys[i] in keys && keys[j] in keys;
      }
      forall c ensures c in found <==> c.localId in rows && rows[c.localId] == c {
        if c in found {
          var i :| 0 <= i < |found| && found[i] == c;
          assert keys[i] in keys;
        }
        if c.localId in rows && rows[c.localId] == c {
          var i :| 0 <= i < |keys| && keys[i] == c.localId;
          assert found[i] == c;
        }
      }
      list := SortBy(found, BySeq);
      SortBySorts(found, BySeq);
      DistinctFromMultiset(found, list);
      MembersFromMultiset(found, list);
    }

    /** Number and store one change. */
    method Append(world: Uuid, id: Uuid, command: string, role: Role) returns (change: QueuedChange)
      requires KeyedById(rows)
      modifies this
      ensures KeyedById(rows)
      ensures IsNext(old(rows).Values, change.enqueuedSeq)
      ensures rows == Appended(old(rows), world, id, command, role, change.enqueuedSeq) && rows[id] == change
    {
      var queued := All();
      ListingMembers(queued, rows);
      change := QueuedChange(id, world, command, NextSeq(queued), role);
      rows := rows[id := change];
    }

    /** Drop exactly the rows an outcome names, but for deletions that fail, and list what is left. */
    method ForgetResolved(outcomes: seq<ReconcileOutcome>, failing: set<Uuid>) returns (left: seq<QueuedChange>)
      requires KeyedById(rows)
      modifies this
      ensures KeyedById(rows)
      ensures rows == old(rows) - (ResolvedIds(outcomes) - failing)
      ensures ListsByAge(left, rows)
    {
      for i := 0 to |outcomes|
        invariant rows == old(rows) - (ResolvedIds(outcomes[..i]) - failing)
      {
        assert outcomes[..i + 1] == outcomes[..i] + [outcomes[i]];
        if outcomes[i].localId !in failing {
          rows := rows - {outcomes[i].localId};
        }
      }
      assert outcomes[..|outcomes|] == outcomes;
      left := All();
    }

    method ForWorld(world: Uuid) returns (list: seq<QueuedChange>)
      requires KeyedById(rows)
      ensures exists all :: ListsByAge(all, rows) && list == ReplayForWorld(all, world)
      ensures forall pending :: Represents(rows, pending) ==> list == OfWorld(pending, world)
    {
      var all := All();
      list := ReplayForWorld(all, world);
      forall pending | Represents(rows, pending) ensures list == OfWorld(pending, world) {
        ListingIsPending(rows, pending, all);
        ReplayIsHistory(pending, all, world);
      }
    }
  }

  lemma ListingMembers(list: seq<QueuedChange>, rows: Rows)
    requires KeyedById(rows) && ListsByAge(list, rows)
    ensures Members(list) == rows.Values
  {
    forall c ensures c in Members(list) <==> c in rows.Values {
      if c in rows.Values {
        var id :| id in rows && rows[id] == c;
      }
    }
  }

  // ---- The store keeps the order changes were made in ----

  ghost predicate Increasing(queued: seq<QueuedChange>) {
    forall i, j :: 0 <= i < j < |queued| ==> queued[i].enqueuedSeq < queued[j].enqueuedSeq
  }

  /** The rows are these changes, numbered in this order. */
  ghost predicate Represents(rows: Rows, pending: seq<QueuedChange>) {
    && Increasing(pending)
    && KeyedById(rows)
    && (forall c :: c in pending <==> c.localId in rows && rows[c.localId] == c)
  }

  /** The one listing of the rows is the pending changes in order. */
  lemma ListingIsPending(rows: Rows, pending: seq<QueuedChange>, list: seq<QueuedChange>)
    requires Represents(rows, pending) && ListsByAge(list, rows)
    ensures list == pending
  {
    assert Distinct(pending);
    MultisetOfDistinct(list, pending);
    SameBySeq(list, pending);
  }

  lemma SameBySeq(a: seq<QueuedChange>, b: seq<QueuedChange>)
    requires SortedBy(a, BySeq) && Increasing(b) && multiset(a) == multiset(b)
    ensures a == b
  {
    MembersFromMultiset(a, b);
    assert NoTies(b, BySeq);
    SortedUnique(b, a, BySeq);
  }

  lemma {:induction false} OfWorldCounts(queued: seq<QueuedChange>, world: Uuid, c: QueuedChange)
    ensures multiset(OfWorld(queued, world))[c] == if c.worldId == world then multiset(queued)[c] else 0
  {
    if queued != [] {
      OfWorldCounts(queued[1..], world, c);
      assert queued == [queued[0]] + queued[1..];
    }
  }

  lemma SameOfWorld(a: seq<QueuedChange>, b: seq<QueuedChange>, world: Uuid)
    requires multiset(a) == multiset(b)
    ensures multiset(OfWorld(a, world)) == multiset(OfWorld(b, world))
  {
    forall c ensures multiset(OfWorld(a, world))[c] == multiset(OfWorld(b, world))[c] {
      OfWorldCounts(a, world, c);
      OfWorldCounts(b, world, c);
    }
  }

  lemma {:induction false} OfWorldSorted(queued: seq<QueuedChange>, world: Uuid)
    requires SortedBy(queued, ByWorldThenSeq)
    ensures SortedBy(OfWorld(queued, world), BySeq)
    ensures forall c :: c in OfWorld(queued, world) ==> c in queued && c.worldId == world
  {
    if queued != [] {
      OfWorldSorted(queued[1..], world);
      var rest := OfWorld(queued[1..], world);
      forall i | 0 <= i < |rest| && queued[0].worldId == world ensures BySeq(queued[0], rest[i]) {
        assert rest[i] in queued[1..];
      }
    }
  }

  lemma {:induction false} OfWorldIncreasing(queued: seq<QueuedChange>, world: Uuid)
    requires Increasing(queued)
    ensures Increasing(OfWorld(queued, world))
    ensures forall c :: c in OfWorld(queued, world) ==> c in queued
  {
    if queued != [] {
      OfWorldIncreasing(queued[1..], world);
      var rest := OfWorld(queued[1..], world);
      forall i | 0 <= i < |rest| ensures queued[0].enqueuedSeq < rest[i].enqueuedSeq {
        assert rest[i] in queued[1..];
      }
    }
  }

  /** Replaying one world, from whatever order the rows were read in, is that world's changes as they were made. */
  lemma ReplayIsHistory(pending: seq<QueuedChange>, list: seq<QueuedChange>, world: Uuid)
    requires Increasing(pending) && multiset(list) == multiset(pending)
    ensures ReplayForWorld(list, world) == OfWorld(pending, world)
  {
    SortBySorts(list, ByWorldThenSeq);
    OfWorldSorted(ReplayOrder(list), world);
    OfWorldIncreasing(pending, world);
    SameOfWorld(ReplayOrder(list), pending, world);
    SameBySeq(ReplayForWorld(list, world), OfWorld(pending, world));
  }

  lemma PendingMembers(rows: Rows, pending: seq<QueuedChange>)
    requires Represents(rows, pending)
    ensures Members(pending) == rows.Values
  {
    forall c ensures c in rows.Values ==> c in pending {
      if c in rows.Values {
        var id :| id in rows && rows[id] == c;
      }
    }
  }

  lemma NumberedLast(rows: Rows, pending: seq<QueuedChange>, n: u64)
    requires Represents(rows, pending) && IsNext(rows.Values, n)
    requires forall c :: c in pending ==> c.enqueuedSeq < U64_MAX
    ensures n == NextSeq(pending)
    ensures forall c :: c in pending ==> c.enqueuedSeq < n
  {
    PendingMembers(rows, pending);
    NextIsOne(rows.Values, n, NextSeq(pending));
    forall c | c in pending ensures c.enqueuedSeq < n {
      assert c in rows.Values;
    }
  }

  lemma AppendRepresents(rows: Rows, pending: seq<QueuedChange>, change: QueuedChange)
    requires Represents(rows, pending) && change.localId !in rows
    requires forall c :: c in pending ==> c.enqueuedSeq < change.enqueuedSeq
    ensures Represents(rows[change.localId := change], pending + [change])
  {
  }

  lemma {:induction false} UnresolvedIs(queued: seq<QueuedChange>, resolved: set<Uuid>)
    ensures forall c :: c in Unresolved(queued, resolved) <==> c in queued && c.localId !in resolved
    ensures Increasing(queued) ==> Increasing(Unresolved(queued, resolved))
  {
    if queued != [] {
      var n := |queued| - 1;
      UnresolvedIs(queued[..n], resolved);
      assert queued == queued[..n] + [queued[n]];
      assert Increasing(queued) ==> forall c :: c in queued[..n] ==> c.enqueuedSeq < queued[n].enqueuedSeq;
    }
  }

  lemma ForgetRepresents(rows: Rows, pending: seq<QueuedChange>, resolved: set<Uuid>)
    requires Represents(rows, pending)
    ensures Represents(rows - resolved, Unresolved(pending, resolved))
  {
    UnresolvedIs(pending, resolved);
  }

  // ---- Whole histories ----

  datatype Op =
    | Append(world: Uuid, id: Uuid, command: string, role: Role)
    | Reconcile(outcomes: seq<ReconcileOutcome>, failing: set<Uuid>)   // these deletions fail
    | Reopen        // nothing is held in memory, so nothing is lost or renumbered

  /** What the store's own operations do to its rows. */
  ghost predicate Does(op: Op, rows: Rows, after: Rows) {
    match op
    case Append(w, id, command, role) =>
      id in after && IsNext(rows.Values, after[id].enqueuedSeq) &&
      after == Appended(rows, w, id, command, role, after[id].enqueuedSeq)
    case Reconcile(outcomes, failing) => after == rows - (ResolvedIds(outcomes) - failing)
    case Reopen => after == rows
  }

  /** The same history kept by the queue in memory. */
  function Pending(ops: seq<Op>): seq<QueuedChange> {
    if ops == [] then []
    else
      var before := Pending(ops[..|ops| - 1]);
      match ops[|ops| - 1]
      case Append(w, id, command, role) => before + [QueuedChange(id, w, command, NextSeq(before), role)]
      case Reconcile(outcomes, failing) => Unresolved(before, ResolvedIds(outcomes) - failing)
      case Reopen => before
  }

  ghost predicate IsHistory(ops: seq<Op>, states: seq<Rows>) {
    && |states| == |ops| + 1
    && states[0] == map[]
    && forall i :: 0 <= i < |ops| ==> Does(ops[i], states[i], states[i + 1])
  }

  /** Ids are new when used, and the numbers have not reached the top. */
  ghost predicate FreshAndBounded(ops: seq<Op>, states: seq<Rows>)
    requires |states| == |ops| + 1
  {
    && (forall i :: 0 <= i < |ops| && ops[i].Append? ==> ops[i].id !in states[i])
    && (forall i, id :: 0 <= i < |ops| && id in states[i] ==> states[i][id].enqueuedSeq < U64_MAX)
  }

  /**
   * Over any history the durable rows are the in-memory queue: the same changes, numbered apart and
   * in the order made; every listing is that queue, and each world replays its part of it.
   */
  lemma {:induction false} HistoryIsKept(ops: seq<Op>, states: seq<Rows>)
    requires IsHistory(ops, states) && FreshAndBounded(ops, states)
    ensures Represents(states[|ops|], Pending(ops))
  {
    if ops != [] {
      var n := |ops| - 1;
      assert states[..n + 1][n] == states[n];
      HistoryIsKept(ops[..n], states[..n + 1]);
      var rows, before := states[n], Pending(ops[..n]);
      assert Does(ops[n], rows, states[n + 1]);
      match ops[n]
      case Append(w, id, command, role) =>
        var change := states[n + 1][id];
        NumberedLast(rows, before, change.enqueuedSeq);
        AppendRepresents(rows, before, change);
        assert Pending(ops) == before + [change];
      case Reconcile(outcomes, failing) => ForgetRepresents(rows, before, ResolvedIds(outcomes) - failing);
      case Reopen =>
    }
  }

  lemma HistoryReplays(ops: seq<Op>, states: seq<Rows>, list: seq<QueuedChange>, world: Uuid)
    requires IsHistory(ops, states) && FreshAndBounded(ops, states)
    requires ListsByAge(list, states[|ops|])
    ensures list == Pending(ops) && Increasing(list)
    ensures ReplayForWorld(list, world) == OfWorld(Pending(ops), world)
  {
    HistoryIsKept(ops, states);
    ListingIsPending(states[|ops|], Pending(ops), list);
    ReplayIsHistory(Pending(ops), list, world);
  }

  /**
   * A change goes only when an outcome names it: what was queued after `i` operations and is not now was
   * named since.
   */
  lemma {:induction false} LeavesOnlyWhenNamed(ops: seq<Op>, i: nat, c: QueuedChange)
    requires i <= |ops| && c in Pending(ops[..i]) && c !in Pending(ops)
    ensures exists j :: i <= j < |ops| && ops[j].Reconcile? && c.localId in ResolvedIds(ops[j].outcomes)
    decreases |ops|
  {
    assert ops[..|ops|] == ops;
    if i < |ops| {
      var n := |ops| - 1;
      if c in Pending(ops[..n]) {
        if ops[n].Reconcile? {
          UnresolvedIs(Pending(ops[..n]), ResolvedIds(ops[n].outcomes) - ops[n].failing);
        }
      } else {
        assert ops[..n][..i] == ops[..i];
        LeavesOnlyWhenNamed(ops[..n], i, c);
      }
    }
  }

  // ---- Where freshness and the bound are needed ----

  /** Storing a change keeps every queued one exactly when its id was not in use. */
  lemma AppendKeepsExactly(rows: Rows, world: Uuid, id: Uuid, command: string, role: Role, n: u64)
    requires KeyedById(rows) && IsNext(rows.Values, n)
    requires forall x :: x in rows ==> rows[x].enqueuedSeq < U64_MAX
    ensures (forall x :: x in rows ==> Appended(rows, world, id, command, role, n)[x] == rows[x]) <==> id !in rows
  {
    if id in rows {
      assert rows[id] in rows.Values;
      assert n > rows[id].enqueuedSeq;
      assert Appended(rows, world, id, command, role, n)[id] != rows[id];
    }
  }

  /** At the top the numbers stop telling changes apart, and nowhere below it. */
  lemma NumbersTieExactlyAtTheTop(queued: seq<QueuedChange>)
    ensures (exists c :: c in queued && c.enqueuedSeq == NextSeq(queued)) <==>
            (exists c :: c in queued && c.enqueuedSeq == U64_MAX)
  {
    if queued != [] {
      var high := Highest(queued);
      if high.enqueuedSeq == U64_MAX {
        assert NextSeq(queued) == U64_MAX;
      }
    }
  }
}
