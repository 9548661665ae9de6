/**
 * Any number of index stores open at once over the same rows, in one tab or in several. Each counts on
 * from its own last number, which it took from the rows when it was opened.
 */
module IndexRace {
  import opened Items
  import opened Fingerprints
  import opened Index

  type Sid = nat

  /** The rows, the counter of each open store, and the held items in the true order of their last access. */
  datatype State = State(rows: Rows, counters: map<Sid, u64>, order: seq<ItemId>)

  datatype Event =
    | Open(sid: Sid)
    | Close(sid: Sid)
    | Access(sid: Sid, access: Access)   // through one store

  const EMPTY := State(map[], map[], [])

  /** The access gives its item a new number. */
  predicate Numbers(s: State, a: Access) { a.Store? || (a.Read? && a.id in s.rows) }

  /** An event that cannot happen now changes nothing. Reopening is opening again. */
  ghost function Step(s: State, e: Event): State {
    match e
    case Open(sid) => s.(counters := s.counters[sid := Recovered(s.rows)])
    case Close(sid) => s.(counters := s.counters - {sid})
    case Access(sid, a) =>
      if sid !in s.counters then s
      else
        var after := Apply(Ledger(s.rows, s.counters[sid]), a);
        State(after.rows, s.counters[sid := after.lastSeq], Reorder(s.order, a))
  }

  ghost function Exec(s: State, events: seq<Event>): State
    decreases |events|
  {
    if events == [] then s else Exec(Step(s, events[0]), events[1..])
  }

  /** The numbers climb along the true order. */
  ghost predicate Ordered(s: State) { Climbs(Ledger(s.rows, U64_MAX), s.order) }

  /** Sorting an ordered state's rows gives the true order of last access. */
  lemma OrderedIsLru(s: State, list: seq<(ItemId, IndexEntry)>)
    requires Ordered(s) && IsListing(list, s.rows)
    ensures LruOrder(list) == s.order
  {
    ClimbIsLruOrder(Ledger(s.rows, U64_MAX), s.order, list);
  }

  /** The number the store gives exceeds every other row's. */
  ghost predicate NumbersLast(s: State, sid: Sid, a: Access)
    requires sid in s.counters
  {
    Numbers(s, a) ==> forall x :: x in s.rows && x != a.id ==> s.rows[x].lastRead < NextSeq(s.counters[sid])
  }

  lemma StoreKeepsOrderExactly(s: State, sid: Sid, a: Access)
    requires Ordered(s) && sid in s.counters && a.Store?
    ensures Ordered(Step(s, Access(sid, a))) <==> NumbersLast(s, sid, a)
  {
    var entry := IndexEntry(a.fingerprint, a.byteSize, NextSeq(s.counters[sid]), a.world);
    if NumbersLast(s, sid, a) {
      NumberedLast(s.rows, s.order, a.id, entry);
    } else {
      var x :| x in s.rows && x != a.id && s.rows[x].lastRead >= entry.lastRead;
      NumberedTooLow(s.rows[a.id := entry], Except(s.order, a.id), a.id, x);
    }
  }

  lemma NumberedLast(rows: Rows, order: seq<ItemId>, id: ItemId, entry: IndexEntry)
    requires Climbs(Ledger(rows, U64_MAX), order)
    requires forall x :: x in rows && x != id ==> rows[x].lastRead < entry.lastRead
    ensures Climbs(Ledger(rows[id := entry], U64_MAX), Except(order, id) + [id])
  {
    ExceptRises(rows, order, id);
    OthersStillRise(rows, Except(order, id), id, entry);
    PushedBack(rows[id := entry], Except(order, id), id);
  }

  lemma NumberedTooLow(rows: Rows, order: seq<ItemId>, id: ItemId, x: ItemId)
    requires x in order && x in rows && id in rows && rows[id].lastRead <= rows[x].lastRead
    ensures !Climbs(Ledger(rows, U64_MAX), order + [id])
  {
    var i :| 0 <= i < |order| && order[i] == x;
    assert (order + [id])[i] == x && (order + [id])[|order|] == id;
  }

  /** An access keeps the true order exactly when its number, if it gives one, exceeds every other row's. */
  lemma AccessKeepsOrderExactly(s: State, sid: Sid, a: Access)
    requires Ordered(s) && sid in s.counters
    ensures Ordered(Step(s, Access(sid, a))) <==> NumbersLast(s, sid, a)
  {
    var l := Ledger(s.rows, U64_MAX);
    match a
    case Store(_, _, _, _) => StoreKeepsOrderExactly(s, sid, a);
    case Read(id) =>
      if id in s.rows {
        var again := Store(id, s.rows[id].fingerprint, s.rows[id].byteSize, s.rows[id].worldId);
        StoreKeepsOrderExactly(s, sid, again);
        assert Step(s, Access(sid, a)) == Step(s, Access(sid, again));
      }
    case Forget(id) => ForgottenClimbs(l, s.order, id);
    case Reload =>
  }

  // ---- How many stores may be open ----

  /** At every point of the run at most `k` stores are open and no counter has reached the top. */
  ghost predicate AtOnce(s: State, events: seq<Event>, k: nat)
    decreases |events|
  {
    && |s.counters| <= k
    && (forall sid :: sid in s.counters ==> s.counters[sid] < U64_MAX)
    && (events != [] ==> AtOnce(Step(s, events[0]), events[1..], k))
  }

  /** Every open counter is past every row. */
  ghost predicate Leads(s: State) {
    Ordered(s) && forall sid, x :: sid in s.counters && x in s.rows ==> s.rows[x].lastRead <= s.counters[sid]
  }

  lemma OnlyOne(counters: map<Sid, u64>, sid: Sid)
    requires sid in counters && |counters| <= 1
    ensures counters.Keys == {sid}
  {
    if other :| other in counters && other != sid {
      SubsetSize({sid, other}, counters.Keys);
    }
  }

  lemma LeadsStep(s: State, e: Event)
    requires Leads(s) && |s.counters| <= 1 && |Step(s, e).counters| <= 1
    requires forall sid :: sid in s.counters ==> s.counters[sid] < U64_MAX
    ensures Leads(Step(s, e))
  {
    match e
    case Open(sid) => OnlyOne(Step(s, e).counters, sid);
    case Close(_) =>
    case Access(sid, a) =>
      if sid in s.counters {
        OnlyOne(s.counters, sid);
        AccessKeepsOrderExactly(s, sid, a);
        StillPast(s, sid, a);
      }
  }

  lemma StillPast(s: State, sid: Sid, a: Access)
    requires sid in s.counters && s.counters[sid] < U64_MAX
    requires forall x :: x in s.rows ==> s.rows[x].lastRead <= s.counters[sid]
    ensures var s' := Step(s, Access(sid, a)); forall x :: x in s'.rows ==> s'.rows[x].lastRead <= s'.counters[sid]
  {
  }

  lemma {:induction false} OneAtATimeKeepsOrder(s: State, events: seq<Event>)
    requires Leads(s) && AtOnce(s, events, 1)
    ensures Ordered(Exec(s, events))
    decreases |events|
  {
    if events != [] {
      LeadsStep(s, events[0]);
      OneAtATimeKeepsOrder(Step(s, events[0]), events[1..]);
    }
  }

  lemma {:induction false} FewerAtOnceToo(s: State, events: seq<Event>, j: nat, k: nat)
    requires j <= k && AtOnce(s, events, j)
    ensures AtOnce(s, events, k)
    decreases |events|
  {
    if events != [] {
      FewerAtOnceToo(Step(s, events[0]), events[1..], j, k);
    }
  }

  /** In every run with at most `k` stores open at once, below the top number, the rows keep the true order. */
  ghost predicate KeepsOrder(k: nat) {
    forall events :: AtOnce(EMPTY, events, k) ==> Ordered(Exec(EMPTY, events))
  }

  lemma Ahead(s: State, e: Event, rest: seq<Event>)
    requires |s.counters| <= 2 && forall sid :: sid in s.counters ==> s.counters[sid] < U64_MAX
    requires AtOnce(Step(s, e), rest, 2)
    ensures AtOnce(s, [e] + rest, 2) && Exec(s, [e] + rest) == Exec(Step(s, e), rest)
  {
    assert ([e] + rest)[1..] == rest;
  }

  /** Two stores opened over the same rows give two items one number. */
  lemma TwoOpenTie() returns (events: seq<Event>)
    ensures AtOnce(EMPTY, events, 2) && !Ordered(Exec(EMPTY, events))
  {
    var fp := Fingerprint(seq(DIGEST_LEN, _ => 0 as bv8));
    var rest, end := EachStores(fp);
    var s1, s2 := State(map[], map[0 := 0], []), State(map[], map[0 := 0, 1 := 0], []);
    assert Step(EMPTY, Open(0)) == s1 && Step(s1, Open(1)) == s2;
    Ahead(s1, Open(1), rest);
    Ahead(EMPTY, Open(0), [Open(1)] + rest);
    events := [Open(0)] + ([Open(1)] + rest);
  }

  lemma EachStores(fp: Fingerprint) returns (rest: seq<Event>, end: State)
    ensures var s := State(map[], map[0 := 0, 1 := 0], []); AtOnce(s, rest, 2) && Exec(s, rest) == end
    ensures !Ordered(end)
  {
    var a, b := SceneState(0), SceneState(1);
    var first, second := Access(0, Store(a, fp, 0, 0)), Access(1, Store(b, fp, 0, 0));
    var entry := IndexEntry(fp, 0, 1, 0);
    var s2 := State(map[], map[0 := 0, 1 := 0], []);
    var s3 := State(map[a := entry], map[0 := 1, 1 := 0], [a]);
    assert Step(s2, first) == s3;
    end := State(map[a := entry, b := entry], map[0 := 1, 1 := 1], [a, b]);
    assert Except([a], b) == [a] by {
      assert Except([], b) == [];
    }
    assert Step(s3, second) == end;
    assert AtOnce(end, [], 2) && Exec(end, []) == end;
    Ahead(s3, second, []);
    Ahead(s2, first, [second] + []);
    rest := [first] + ([second] + []);
    NumberedTooLow(end.rows, [a], b, a);
    assert [a] + [b] == end.order;
  }

  /** The rows keep the true order over interleavings if and only if one store is open at a time. */
  lemma KeepsOrderExactly(k: nat)
    ensures KeepsOrder(k) <==> k <= 1
  {
    if k <= 1 {
      forall events | AtOnce(EMPTY, events, k) ensures Ordered(Exec(EMPTY, events)) {
        FewerAtOnceToo(EMPTY, events, k, 1);
        OneAtATimeKeepsOrder(EMPTY, events);
      }
    } else {
      var events := TwoOpenTie();
      FewerAtOnceToo(EMPTY, events, 2, k);
    }
  }
}
