/**
 * Any number of tabs appending to one outbox. An append reads the rows, numbers its change past them
 * and stores it later, with no lock in between.
 */
module OutboxRace {
  import opened Items
  import opened Conflict
  import opened Outbox

  type Tab = nat

  /** The stored rows, and the numbered changes on their way. */
  datatype State = State(rows: Rows, pending: map<Tab, QueuedChange>)

  datatype Event =
    | Look(tab: Tab, world: Uuid, id: Uuid, command: string, role: Role)
    | Store(tab: Tab)
    | Settle(resolved: set<Uuid>)
    | Quit(tab: Tab)

  const EMPTY := State(map[], map[])

  ghost function NextOf(rows: Rows): (n: u64)
    ensures IsNext(rows.Values, n)
  {
    NextExists(rows.Values);
    var n :| IsNext(rows.Values, n);
    n
  }

  lemma {:induction false} NextExists(queued: set<QueuedChange>)
    ensures exists n :: IsNext(queued, n)
  {
    if queued == {} {
      assert IsNext(queued, 0);
    } else {
      var high := HighestOf(queued);
      assert IsNext(queued, SaturatingAdd(high.enqueuedSeq, 1));
    }
  }

  lemma {:induction false} HighestOf(queued: set<QueuedChange>) returns (high: QueuedChange)
    requires queued != {}
    ensures high in queued && forall c :: c in queued ==> c.enqueuedSeq <= high.enqueuedSeq
    decreases |queued|
  {
    high :| high in queued;
    if queued != {high} {
      var rest := HighestOf(queued - {high});
      high := if high.enqueuedSeq < rest.enqueuedSeq then rest else high;
    }
  }

  /** An event that cannot happen now changes nothing. */
  ghost function Step(s: State, e: Event): State {
    match e
    case Look(t, world, id, command, role) =>
      if t in s.pending then s
      else s.(pending := s.pending[t := QueuedChange(id, world, command, NextOf(s.rows), role)])
    case Store(t) =>
      if t in s.pending then State(s.rows[s.pending[t].localId := s.pending[t]], s.pending - {t}) else s
    case Settle(resolved) => s.(rows := s.rows - resolved)
    case Quit(t) => s.(pending := s.pending - {t})
  }

  ghost function Exec(s: State, events: seq<Event>): State
    decreases |events|
  {
    if events == [] then s else Exec(Step(s, events[0]), events[1..])
  }

  /** No two queued changes share a number. */
  ghost predicate Apart(rows: Rows) {
    forall a, b :: a in rows && b in rows && a != b ==> rows[a].enqueuedSeq != rows[b].enqueuedSeq
  }

  /** Storing a numbered change keeps the numbers apart exactly when no other queued change has its number. */
  lemma StoreKeepsApartExactly(s: State, t: Tab)
    requires Apart(s.rows) && t in s.pending
    ensures Apart(Step(s, Store(t)).rows) <==>
            forall id :: id in s.rows && id != s.pending[t].localId ==>
              s.rows[id].enqueuedSeq != s.pending[t].enqueuedSeq
  {
    var c, after := s.pending[t], Step(s, Store(t)).rows;
    if id :| id in s.rows && id != c.localId && s.rows[id].enqueuedSeq == c.enqueuedSeq {
      assert after[id].enqueuedSeq == after[c.localId].enqueuedSeq;
    }
  }

  /** At every point of the run at most `k` appends are on their way and no number has reached the top. */
  ghost predicate Overlapping(s: State, events: seq<Event>, k: nat)
    decreases |events|
  {
    && |s.pending| <= k
    && (forall id :: id in s.rows ==> s.rows[id].enqueuedSeq < U64_MAX)
    && (events != [] ==> Overlapping(Step(s, events[0]), events[1..], k))
  }

  /** What is on its way is numbered past everything stored. */
  ghost predicate Ahead(s: State) {
    && Apart(s.rows)
    && forall t, id :: t in s.pending && id in s.rows ==> s.rows[id].enqueuedSeq < s.pending[t].enqueuedSeq
  }

  lemma NextIsAhead(rows: Rows)
    requires forall id :: id in rows ==> rows[id].enqueuedSeq < U64_MAX
    ensures forall id :: id in rows ==> rows[id].enqueuedSeq < NextOf(rows)
  {
    forall id | id in rows ensures rows[id].enqueuedSeq < NextOf(rows) {
      assert rows[id] in rows.Values;
    }
  }

  lemma OnlyOne(pending: map<Tab, QueuedChange>, t: Tab)
    requires t in pending && |pending| <= 1
    ensures pending.Keys == {t} && pending - {t} == map[]
  {
    SubsetSize({t}, pending.Keys);
    if u :| u in pending && u != t {
      SubsetSize({t, u}, pending.Keys);
    }
  }

  lemma AheadStep(s: State, e: Event)
    requires Ahead(s) && |s.pending| <= 1 && |Step(s, e).pending| <= 1
    requires forall id :: id in s.rows ==> s.rows[id].enqueuedSeq < U64_MAX
    ensures Ahead(Step(s, e))
  {
    match e
    case Look(t, _, _, _, _) =>
      NextIsAhead(s.rows);
      if t !in s.pending {
        OnlyOne(Step(s, e).pending, t);
      }
    case Store(t) =>
      if t in s.pending {
        OnlyOne(s.pending, t);
      }
    case _ =>
  }

  lemma {:induction false} OneAtATimeStaysApart(s: State, events: seq<Event>)
    requires Ahead(s) && Overlapping(s, events, 1)
    ensures Apart(Exec(s, events).rows)
    decreases |events|
  {
    if events != [] {
      AheadStep(s, events[0]);
      OneAtATimeStaysApart(Step(s, events[0]), events[1..]);
    }
  }

  lemma {:induction false} FewerOverlapToo(s: State, events: seq<Event>, j: nat, k: nat)
    requires j <= k && Overlapping(s, events, j)
    ensures Overlapping(s, events, k)
    decreases |events|
  {
    if events != [] {
      FewerOverlapToo(Step(s, events[0]), events[1..], j, k);
    }
  }

  /** In every run with at most `k` appends at once, and below the top number, the numbers stay apart. */
  ghost predicate StaysApart(k: nat) {
    forall events :: Overlapping(EMPTY, events, k) ==> Apart(Exec(EMPTY, events).rows)
  }

  /** Two appends that both look before either stores share a number. */
  lemma TwoAtOnceCollide() returns (events: seq<Event>)
    ensures Overlapping(EMPTY, events, 2) && !Apart(Exec(EMPTY, events).rows)
  {
    var a, b := Look(0, 0, 0, "", Player), Look(1, 0, 1, "", Player);
    var x, y := QueuedChange(0, 0, "", 0, Player), QueuedChange(1, 0, "", 0, Player);
    assert NextOf(map[]) == 0;
    var s1, s2 := State(map[], map[0 := x]), State(map[], map[0 := x, 1 := y]);
    assert Step(EMPTY, a) == s1 && Step(s1, b) == s2;
    BothStore(x, y);
    var rest := [Store(0)] + ([Store(1)] + []);
    var end := State(map[0 := x, 1 := y], map[]);
    Before(s1, b, rest, end);
    Before(EMPTY, a, [b] + rest, end);
    events := [a] + ([b] + rest);
    assert !Apart(end.rows) by {
      assert 0 in end.rows && 1 in end.rows;
    }
  }

  lemma BothStore(x: QueuedChange, y: QueuedChange)
    requires x.localId == 0 && y.localId == 1 && x.enqueuedSeq < U64_MAX && y.enqueuedSeq < U64_MAX
    ensures var s, rest := State(map[], map[0 := x, 1 := y]), [Store(0)] + ([Store(1)] + []);
            Exec(s, rest) == State(map[0 := x, 1 := y], map[]) && Overlapping(s, rest, 2)
  {
    var s2, s3 := State(map[], map[0 := x, 1 := y]), State(map[0 := x], map[1 := y]);
    var s4 := State(map[0 := x, 1 := y], map[]);
    assert s2.pending - {0} == s3.pending && Step(s2, Store(0)) == s3;
    assert s3.pending - {1} == s4.pending && Step(s3, Store(1)) == s4;
    Last(s4);
    Before(s3, Store(1), [], s4);
    Before(s2, Store(0), [Store(1)] + [], s4);
  }

  lemma Last(s: State)
    requires |s.pending| <= 2 && forall id :: id in s.rows ==> s.rows[id].enqueuedSeq < U64_MAX
    ensures Exec(s, []) == s && Overlapping(s, [], 2)
  {
  }

  lemma Before(s: State, e: Event, rest: seq<Event>, end: State)
    requires |s.pending| <= 2 && forall id :: id in s.rows ==> s.rows[id].enqueuedSeq < U64_MAX
    requires Exec(Step(s, e), rest) == end && Overlapping(Step(s, e), rest, 2)
    ensures Exec(s, [e] + rest) == end && Overlapping(s, [e] + rest, 2)
  {
    assert ([e] + rest)[1..] == rest;
  }

  /** Numbers stay apart over interleavings if and only if appends come one at a time. */
  lemma StaysApartExactly(k: nat)
    ensures StaysApart(k) <==> k <= 1
  {
    if k <= 1 {
      forall events | Overlapping(EMPTY, events, k) ensures Apart(Exec(EMPTY, events).rows) {
        FewerOverlapToo(EMPTY, events, k, 1);
        OneAtATimeStaysApart(EMPTY, events);
      }
    } else {
      var events := TwoAtOnceCollide();
      FewerOverlapToo(EMPTY, events, 2, k);
    }
  }
}
