/**
 * Any number of tabs obtaining the key of one scope at once, one awaited request at a time: they
 * share the stored slot and the key-creation lock, any request for the lock may be denied, and a
 * tab may die or fail between any two requests.
 */
module KeyProtocol {
  import opened Items
  import opened KeyCreation

  type Tab = nat

  datatype Key = Preexisting | MintedBy(tab: Tab)

  datatype Phase =
    | Running(at: Acquisition, found: Option<Key>)
    | Dropping(at: Acquisition)              // read an extractable key, about to delete it
    | Putting(at: Acquisition, key: Key)     // generated a key, about to store it
    | Leaving(at: Acquisition, key: Key)     // stored it, lock not yet given up
    | Finished(key: Key)
    | Failed

  datatype State = State(slot: Slot<Key>, tabs: seq<Phase>, holder: Option<Tab>,
                         denied: set<Tab>, minted: set<Tab>, writers: set<Tab>)

  datatype Event =
    | Read(tab: Tab) | Drop(tab: Tab) | Grant(tab: Tab) | Deny(tab: Tab)
    | Mint(tab: Tab) | Put(tab: Tab) | Return(tab: Tab) | Fail(tab: Tab)

  function Start(slot: Slot<Key>, n: nat): State {
    State(slot, seq(n, _ => Running(BEGIN, None)), None, {}, {}, {})
  }

  predicate Over(p: Phase) { p.Finished? || p.Failed? }

  predicate Locked(p: Phase) { !Over(p) && p.at.locked }

  predicate AtStep(p: Phase, step: KeyStep) { p.Running? && p.at.step == step }

  /** Tab `t` is now in phase `p`; a tab that is over gives its lock up. */
  function Move(s: State, t: Tab, p: Phase): State
    requires t < |s.tabs|
  {
    s.(tabs := s.tabs[t := p], holder := if Over(p) && s.holder == Some(t) then None else s.holder)
  }

  function LookedUp(p: Phase, slot: Slot<Key>): Phase
    requires p.Running?
  {
    match slot
    case Usable(key) => Running(Next(p.at, Found), Some(key))
    case Extractable => Dropping(p.at)
    case _ => Running(Next(p.at, Missing), None)
  }

  /** One event; an event that cannot happen now changes nothing. */
  function Step(s: State, e: Event): State {
    if e.tab >= |s.tabs| then s
    else
      var t, p := e.tab, s.tabs[e.tab];
      match e
      case Read(_) =>
        if AtStep(p, Lookup) || AtStep(p, Recheck) then Move(s, t, LookedUp(p, s.slot)) else s
      case Drop(_) =>
        if p.Dropping? then Move(s.(slot := Empty), t, Running(Next(p.at, Missing), None)) else s
      case Grant(_) =>
        if AtStep(p, AcquireLock) && s.holder == None
        then Move(s.(holder := Some(t)), t, Running(Next(p.at, LockGranted), None)) else s
      case Deny(_) =>
        if AtStep(p, AcquireLock)
        then Move(s.(denied := s.denied + {t}), t, Running(Next(p.at, LockDenied), None)) else s
      case Mint(_) =>
        if AtStep(p, Generate) then Move(s.(minted := s.minted + {t}), t, Putting(p.at, MintedBy(t))) else s
      case Put(_) =>
        if p.Putting? then Move(s.(slot := Usable(p.key), writers := s.writers + {t}), t, Leaving(p.at, p.key)) else s
      case Return(_) =>
        if p.Leaving? then Move(s, t, Finished(p.key))
        else if AtStep(p, UseFound) then Move(s, t, if p.found.Some? then Finished(p.found.value) else Failed)
        else s
      case Fail(_) =>
        if Over(p) then s else Move(s, t, Failed)
  }

  function Exec(s: State, events: seq<Event>): State
    decreases |events|
  {
    if events == [] then s else Exec(Step(s, events[0]), events[1..])
  }

  // ---- Safety ----

  function HeldKey(p: Phase): Option<Key> {
    match p
    case Running(_, found) => found
    case Leaving(_, key) => Some(key)
    case Finished(key) => Some(key)
    case _ => None
  }

  /** Between finding nothing on the second look and storing the new key. */
  predicate Creating(p: Phase) { AtStep(p, Generate) || p.Putting? }

  ghost predicate TabSafe(s: State, t: Tab)
    requires t < |s.tabs|
  {
    var p := s.tabs[t];
    && (Locked(p) <==> s.holder == Some(t))
    && !p.Dropping?
    && (p.Running? ==> (p.at.step == UseFound <==> p.found.Some?))
    && (AtStep(p, Lookup) || AtStep(p, AcquireLock) ==> !p.at.locked && t !in s.denied)
    && (AtStep(p, Recheck) || Creating(p) ==> p.at.locked || t in s.denied)
    && (Locked(p) ==> t !in s.denied)
    && (Locked(p) && Creating(p) ==> s.writers <= s.denied && (s.denied == {} ==> !s.slot.Usable?))
    && (p.Putting? ==> t in s.minted)
    && (t in s.minted && t !in s.writers ==> p.Putting? || p.Failed?)
    && (t in s.writers ==> p.Leaving? || Over(p))
    && (s.denied == {} && HeldKey(p).Some? ==> s.slot == Usable(HeldKey(p).value))
  }

  ghost predicate Safe(s: State) {
    && s.slot != Extractable
    && (forall t :: 0 <= t < |s.tabs| ==> TabSafe(s, t))
    && (forall t :: t in s.minted ==> t < |s.tabs|)
    && s.writers <= s.minted
    && (s.writers != {} ==> s.slot.Usable?)
    && (forall a, b :: a in s.writers - s.denied && b in s.writers - s.denied ==> a == b)
    && (forall t :: s.holder == Some(t) ==> t < |s.tabs|)
  }

  lemma SafeStep(s: State, e: Event)
    requires Safe(s)
    ensures Safe(Step(s, e))
  {
    if e.tab < |s.tabs| {
      assert TabSafe(s, e.tab);
      OneUndeniedWriter(s, e);
      EachTabStaysSafe(s, e);
    }
  }

  lemma EachTabStaysSafe(s: State, e: Event)
    requires Safe(s) && e.tab < |s.tabs|
    ensures forall t :: 0 <= t < |s.tabs| ==> TabSafe(Step(s, e), t)
  {
    var s' := Step(s, e);
    assert TabSafe(s, e.tab);
    forall t | 0 <= t < |s.tabs| ensures TabSafe(s', t) {
      assert TabSafe(s, t);
    }
  }

  lemma OneUndeniedWriter(s: State, e: Event)
    requires Safe(s) && e.tab < |s.tabs|
    ensures var s' := Step(s, e); forall a, b :: a in s'.writers - s'.denied && b in s'.writers - s'.denied ==> a == b
  {
    var s' := Step(s, e);
    assert TabSafe(s, e.tab);
    if s' != s && e.Put? && e.tab !in s.denied {
      assert s.writers - s.denied == {};
      assert s'.writers - s'.denied == {e.tab};
    } else {
      assert s'.writers - s'.denied <= s.writers - s.denied;
    }
  }

  lemma {:induction false} SafeRun(s: State, events: seq<Event>)
    requires Safe(s)
    ensures Safe(Exec(s, events))
    decreases |events|
  {
    if events != [] {
      SafeStep(s, events[0]);
      SafeRun(Step(s, events[0]), events[1..]);
    }
  }

  lemma AtMostOne(x: set<Tab>)
    requires forall a, b :: a in x && b in x ==> a == b
    ensures |x| <= 1
  {
    if x != {} {
      var a :| a in x;
      assert x == {a};
    }
  }

  lemma SizeWithin(x: set<Tab>, a: set<Tab>, b: set<Tab>)
    requires forall t, u :: t in x - a - b && u in x - a - b ==> t == u
    ensures |x| <= |a| + |b| + 1
  {
    AtMostOne(x - a - b);
    var bound := a + b + (x - a - b);
    assert x == x * bound;
    SubsetSize(x, bound);
  }

  function Failures(s: State): set<Tab> { set t | 0 <= t < |s.tabs| && s.tabs[t].Failed? }

  /** Every tab that finished returned the key now stored. */
  ghost predicate Agreed(s: State) {
    forall t :: 0 <= t < |s.tabs| && s.tabs[t].Finished? ==> s.slot == Usable(s.tabs[t].key)
  }

  /** At most one tab holds the lock, from being granted it until it returns. */
  ghost predicate Exclusive(s: State) {
    forall t, u :: 0 <= t < |s.tabs| && 0 <= u < |s.tabs| && Locked(s.tabs[t]) && Locked(s.tabs[u]) ==> t == u
  }

  /**
   * In every interleaving from a store without an extractable key: the lock is exclusive; each
   * denial allows one more key to be stored, and each denial or failure one more to be generated;
   * while nobody was denied, every tab that finished returned the one key in the store.
   */
  lemma KeyRuns(slot: Slot<Key>, n: nat, events: seq<Event>)
    requires slot != Extractable
    ensures var s := Exec(Start(slot, n), events);
            && Exclusive(s)
            && |s.writers| <= |s.denied| + 1
            && |s.minted| <= |s.denied| + |Failures(s)| + 1
            && (s.denied == {} ==> Agreed(s))
            && (slot.Usable? ==> s.minted == {} && s.slot == slot)
  {
    if slot.Usable? {
      WarmRuns(Start(slot, n), slot.key, events);
    }
    SafeRun(Start(slot, n), events);
    var s := Exec(Start(slot, n), events);
    forall t, u | 0 <= t < |s.tabs| && 0 <= u < |s.tabs| && Locked(s.tabs[t]) && Locked(s.tabs[u]) ensures t == u {
      assert TabSafe(s, t) && TabSafe(s, u);
    }
    SizeWithin(s.writers, s.denied, {});
    OneUndeniedMint(s);
    SizeWithin(s.minted, s.denied, Failures(s));
    forall t | s.denied == {} && 0 <= t < |s.tabs| && s.tabs[t].Finished? ensures s.slot == Usable(s.tabs[t].key) {
      assert TabSafe(s, t);
    }
  }

  /** A tab that generated a key without being denied or failing is storing it under the lock, or has stored it. */
  lemma OneUndeniedMint(s: State)
    requires Safe(s)
    ensures forall t, u :: t in s.minted - s.denied - Failures(s) && u in s.minted - s.denied - Failures(s) ==> t == u
  {
    var undenied := s.minted - s.denied - Failures(s);
    forall t | t in undenied
      ensures t in s.writers - s.denied || (s.holder == Some(t) && s.writers <= s.denied)
    {
      assert TabSafe(s, t);
    }
  }

  // ---- A warm start ----

  ghost predicate Warm(s: State, key: Key) {
    && s.slot == Usable(key) && s.minted == {} && s.holder == None
    && forall t :: 0 <= t < |s.tabs| ==>
         var p := s.tabs[t];
         (AtStep(p, Lookup) && p.found == None) || (AtStep(p, UseFound) && p.found == Some(key)) || p == Finished(key)
             || p.Failed?
  }

  /** With a usable key stored nobody ever takes the lock, is denied it, or generates anything. */
  lemma {:induction false} WarmRuns(s: State, key: Key, events: seq<Event>)
    requires Warm(s, key)
    ensures var s' := Exec(s, events); Warm(s', key) && s'.denied == s.denied
    decreases |events|
  {
    if events != [] {
      WarmRuns(Step(s, events[0]), key, events[1..]);
    }
  }

  // ---- Exactly when agreement can be relied on ----

  ghost predicate NoDenials(events: seq<Event>) {
    forall e :: e in events ==> !e.Deny?
  }

  lemma {:induction false} NobodyDenied(s: State, events: seq<Event>)
    requires NoDenials(events)
    ensures Exec(s, events).denied == s.denied
    decreases |events|
  {
    if events != [] {
      assert events[0] in events;
      NobodyDenied(Step(s, events[0]), events[1..]);
    }
  }

  ghost predicate AlwaysAgreed(slot: Slot<Key>, n: nat) {
    forall events: seq<Event> :: NoDenials(events) ==> Agreed(Exec(Start(slot, n), events))
  }

  lemma {:induction false} ExecJoin(s: State, before: seq<Event>, after: seq<Event>)
    ensures Exec(s, before + after) == Exec(Exec(s, before), after)
    decreases |before|
  {
    if before == [] {
      assert before + after == after;
    } else {
      assert (before + after)[1..] == before[1..] + after;
      ExecJoin(Step(s, before[0]), before[1..], after);
    }
  }

  lemma Once(s: State, a: Event)
    ensures Exec(s, [a]) == Step(s, a)
  {
    assert [a][1..] == [];
  }

  lemma Twice(s: State, a: Event, b: Event)
    ensures Exec(s, [a, b]) == Step(Step(s, a), b)
  {
    assert [a, b] == [a] + [b];
    ExecJoin(s, [a], [b]);
    Once(s, a);
    Once(Step(s, a), b);
  }

  /** One tab from the lock to its return with a key of its own. */
  function Creates(t: Tab): seq<Event> { [Grant(t), Read(t)] + [Mint(t), Put(t)] + [Return(t)] }

  lemma LocksAndLooks(s: State, t: Tab)
    requires t < |s.tabs| && s.slot == Empty && s.holder == None && s.tabs[t] == ASKING
    ensures Exec(s, [Grant(t), Read(t)]) ==
            s.(tabs := s.tabs[t := Running(Acquisition(Generate, true), None)], holder := Some(t))
  {
    Twice(s, Grant(t), Read(t));
    var s1 := s.(tabs := s.tabs[t := Running(Acquisition(Recheck, true), None)], holder := Some(t));
    assert Step(s, Grant(t)) == s1;
  }

  lemma MintsAndPuts(s: State, t: Tab)
    requires t < |s.tabs| && s.tabs[t] == Running(Acquisition(Generate, true), None)
    ensures Exec(s, [Mint(t), Put(t)]) ==
            s.(slot := Usable(MintedBy(t)), tabs := s.tabs[t := Leaving(Acquisition(Generate, true), MintedBy(t))],
               minted := s.minted + {t}, writers := s.writers + {t})
  {
    Twice(s, Mint(t), Put(t));
    var s1 := s.(tabs := s.tabs[t := Putting(Acquisition(Generate, true), MintedBy(t))], minted := s.minted + {t});
    assert Step(s, Mint(t)) == s1;
  }

  lemma CreatesAlone(s: State, t: Tab)
    requires t < |s.tabs| && s.slot == Empty && s.holder == None && s.tabs[t] == ASKING
    ensures Exec(s, Creates(t)) ==
            s.(slot := Usable(MintedBy(t)), tabs := s.tabs[t := Finished(MintedBy(t))],
               minted := s.minted + {t}, writers := s.writers + {t})
  {
    ExecJoin(s, [Grant(t), Read(t)] + [Mint(t), Put(t)], [Return(t)]);
    ExecJoin(s, [Grant(t), Read(t)], [Mint(t), Put(t)]);
    LocksAndLooks(s, t);
    var s2 := Exec(s, [Grant(t), Read(t)]);
    MintsAndPuts(s2, t);
    Once(Exec(s2, [Mint(t), Put(t)]), Return(t));
  }

  const RACE := [Read(0), Read(1)] + [Drop(1)] + Creates(1) + [Drop(0)] + Creates(0)

  /** Two tabs in these phases and any number of others that have done nothing yet. */
  function AndIdle(a: Phase, b: Phase, others: nat): seq<Phase> { [a, b] + seq(others, _ => Running(BEGIN, None)) }

  /**
   * Two tabs that both read an extractable key: the slower one deletes what the faster one has
   * stored since, and generates a second key although neither was ever denied the lock.
   */
  lemma DeletingRaces(others: nat)
    ensures var s := Exec(Start(Extractable, others + 2), RACE);
            && s.tabs == AndIdle(Finished(MintedBy(0)), Finished(MintedBy(1)), others)
            && s.slot == Usable(MintedBy(0)) && s.denied == {}
  {
    var s0 := Start(Extractable, others + 2);
    ExecJoin(s0, [Read(0), Read(1)] + [Drop(1)] + Creates(1) + [Drop(0)], Creates(0));
    ExecJoin(s0, [Read(0), Read(1)] + [Drop(1)] + Creates(1), [Drop(0)]);
    FasterTabFinishes(others);
    var s8 := Exec(s0, [Read(0), Read(1)] + [Drop(1)] + Creates(1));
    Once(s8, Drop(0));
    var s9 := s8.(slot := Empty, tabs := AndIdle(ASKING, Finished(MintedBy(1)), others));
    assert s8.tabs[0 := ASKING] == s9.tabs;
    assert Step(s8, Drop(0)) == s9;
    CreatesAlone(s9, 0);
    assert s9.tabs[0 := Finished(MintedBy(0))] == AndIdle(Finished(MintedBy(0)), Finished(MintedBy(1)), others);
  }

  lemma FasterTabFinishes(others: nat)
    ensures Exec(Start(Extractable, others + 2), [Read(0), Read(1)] + [Drop(1)] + Creates(1)) ==
            State(Usable(MintedBy(1)), AndIdle(Dropping(BEGIN), Finished(MintedBy(1)), others), None, {}, {1}, {1})
  {
    ExecJoin(Start(Extractable, others + 2), [Read(0), Read(1)] + [Drop(1)], Creates(1));
    RaceOpens(others);
    var s3 := State(Empty, AndIdle(Dropping(BEGIN), ASKING, others), None, {}, {}, {});
    CreatesAlone(s3, 1);
    assert s3.tabs[1 := Finished(MintedBy(1))] == AndIdle(Dropping(BEGIN), Finished(MintedBy(1)), others);
  }

  const ASKING := Running(Acquisition(AcquireLock, false), None)

  lemma RaceOpens(others: nat)
    ensures Exec(Start(Extractable, others + 2), [Read(0), Read(1)] + [Drop(1)]) ==
            State(Empty, AndIdle(Dropping(BEGIN), ASKING, others), None, {}, {}, {})
  {
    var s0 := Start(Extractable, others + 2);
    ExecJoin(s0, [Read(0), Read(1)], [Drop(1)]);
    BothRead(others);
    var s2 := State(Extractable, AndIdle(Dropping(BEGIN), Dropping(BEGIN), others), None, {}, {}, {});
    Once(s2, Drop(1));
    assert s2.tabs[1 := ASKING] == AndIdle(Dropping(BEGIN), ASKING, others);
  }

  lemma BothRead(others: nat)
    ensures Exec(Start(Extractable, others + 2), [Read(0), Read(1)]) ==
            State(Extractable, AndIdle(Dropping(BEGIN), Dropping(BEGIN), others), None, {}, {}, {})
  {
    var s0 := Start(Extractable, others + 2);
    Twice(s0, Read(0), Read(1));
    assert s0.tabs[0 := Dropping(BEGIN)] == AndIdle(Dropping(BEGIN), Running(BEGIN, None), others);
    var s1 := s0.(tabs := AndIdle(Dropping(BEGIN), Running(BEGIN, None), others));
    assert Step(s0, Read(0)) == s1;
    assert s1.tabs[1 := Dropping(BEGIN)] == AndIdle(Dropping(BEGIN), Dropping(BEGIN), others);
  }

  lemma RaceDisagrees(others: nat)
    ensures NoDenials(RACE) && !Agreed(Exec(Start(Extractable, others + 2), RACE))
  {
    DeletingRaces(others);
    var s := Exec(Start(Extractable, others + 2), RACE);
    assert s.tabs[1] == Finished(MintedBy(1));
    forall e | e in RACE ensures !e.Deny? {
      assert e in [Read(0), Read(1), Drop(1), Drop(0)] || e in Creates(0) || e in Creates(1);
    }
  }

  /** A tab with the store to itself holds what is stored, whatever it started with. */
  lemma {:induction false} AloneAgrees(s: State, events: seq<Event>)
    requires |s.tabs| <= 1
    requires forall t :: 0 <= t < |s.tabs| && HeldKey(s.tabs[t]).Some? ==> s.slot == Usable(HeldKey(s.tabs[t]).value)
    ensures Agreed(Exec(s, events))
    decreases |events|
  {
    if events != [] {
      AloneAgrees(Step(s, events[0]), events[1..]);
    }
  }

  /**
   * Without denials every finished one of `n` tabs has the stored key in every run exactly if the store
   * did not start with an extractable key or there are no two tabs.
   */
  lemma AgreementExactly(slot: Slot<Key>, n: nat)
    ensures AlwaysAgreed(slot, n) <==> slot != Extractable || n <= 1
  {
    if slot != Extractable || n <= 1 {
      forall events | NoDenials(events) ensures Agreed(Exec(Start(slot, n), events)) {
        if n <= 1 {
          AloneAgrees(Start(slot, n), events);
        } else {
          KeyRuns(slot, n, events);
          NobodyDenied(Start(slot, n), events);
        }
      }
    } else {
      RaceDisagrees(n - 2);
    }
  }

  // ---- Liveness ----

  /** Events a tab still needs at most. */
  function Left(p: Phase): nat {
    match p
    case Running(a, _) =>
      (match a.step
       case Lookup => 8
       case AcquireLock => 6
       case Recheck => 5
       case Generate => 3
       case UseFound => 1)
    case Dropping(a) => if a.step == Lookup then 7 else 4
    case Putting(_, _) => 2
    case Leaving(_, _) => 1
    case Finished(_) => 0
    case Failed => 0
  }

  function AllLeft(tabs: seq<Phase>): nat {
    if tabs == [] then 0 else Left(tabs[0]) + AllLeft(tabs[1..])
  }

  lemma {:induction false} LeftAfterMove(tabs: seq<Phase>, t: Tab, p: Phase)
    requires t < |tabs|
    ensures AllLeft(tabs[t := p]) == AllLeft(tabs) - Left(tabs[t]) + Left(p)
  {
    if t > 0 {
      LeftAfterMove(tabs[1..], t - 1, p);
      assert tabs[t := p][1..] == tabs[1..][t - 1 := p];
    } else {
      assert tabs[0 := p][1..] == tabs[1..];
    }
  }

  /** A deletion is pending only on the two looking steps, and a held lock is held by a tab that is past asking. */
  ghost predicate Orderly(s: State) {
    && (forall t :: 0 <= t < |s.tabs| && s.tabs[t].Dropping? ==> s.tabs[t].at.step in {Lookup, Recheck})
    && (s.holder.Some? ==> s.holder.value < |s.tabs| && Locked(s.tabs[s.holder.value]) && Past(s.tabs[s.holder.value]))
  }

  predicate Past(p: Phase) {
    (p.Dropping? && p.at.step == Recheck) || p.Putting? || p.Leaving? || AtStep(p, Recheck) || AtStep(p, Generate)
        || AtStep(p, UseFound)
  }

  lemma OrderlyStep(s: State, e: Event)
    requires Orderly(s)
    ensures Orderly(Step(s, e))
  {
  }

  lemma EveryMoveCounts(s: State, e: Event)
    requires Orderly(s)
    ensures Step(s, e) != s ==> AllLeft(Step(s, e).tabs) < AllLeft(s.tabs)
  {
    var s' := Step(s, e);
    if s' != s {
      assert Left(s'.tabs[e.tab]) < Left(s.tabs[e.tab]);
      assert s'.tabs == s.tabs[e.tab := s'.tabs[e.tab]];
      LeftAfterMove(s.tabs, e.tab, s'.tabs[e.tab]);
    }
  }

  predicate AllOver(s: State) { forall t :: 0 <= t < |s.tabs| ==> Over(s.tabs[t]) }

  predicate Fair(e: Event) { !e.Deny? && !e.Fail? }

  function NextEvent(p: Phase, t: Tab): Event {
    match p
    case Running(a, _) =>
      (match a.step
       case Lookup | Recheck => Read(t)
       case AcquireLock => Grant(t)
       case Generate => Mint(t)
       case UseFound => Return(t))
    case Dropping(_) => Drop(t)
    case Putting(_, _) => Put(t)
    case Leaving(_, _) | Finished(_) | Failed => Return(t)
  }

  /** Nobody waits for ever: some tab can move on without any denial or failure. */
  lemma SomeoneMoves(s: State) returns (e: Event)
    requires Orderly(s) && !AllOver(s)
    ensures Fair(e) && Step(s, e) != s
  {
    var t: Tab;
    if s.holder.Some? {
      t := s.holder.value;
    } else {
      t :| 0 <= t < |s.tabs| && !Over(s.tabs[t]);
    }
    e := NextEvent(s.tabs[t], t);
    assert Step(s, e).tabs[t] != s.tabs[t];
  }

  /**
   * From any state a run reaches, every tab can finish, with no further denial or failure, within its
   * remaining events.
   */
  lemma {:induction false} EveryTabCanFinish(s: State) returns (events: seq<Event>)
    requires Orderly(s)
    ensures (forall e :: e in events ==> Fair(e)) && AllOver(Exec(s, events)) && |events| <= AllLeft(s.tabs)
    decreases AllLeft(s.tabs)
  {
    if AllOver(s) {
      events := [];
    } else {
      var e := SomeoneMoves(s);
      OrderlyStep(s, e);
      EveryMoveCounts(s, e);
      var rest := EveryTabCanFinish(Step(s, e));
      events := [e] + rest;
      assert events[1..] == rest;
    }
  }

  lemma {:induction false} RunsStayOrderly(s: State, events: seq<Event>)
    requires Orderly(s)
    ensures Orderly(Exec(s, events))
    decreases |events|
  {
    if events != [] {
      OrderlyStep(s, events[0]);
      RunsStayOrderly(Step(s, events[0]), events[1..]);
    }
  }

  /** How many events of a run changed anything. */
  function Moves(s: State, events: seq<Event>): nat
    decreases |events|
  {
    if events == [] then 0
    else (if Step(s, events[0]) != s then 1 else 0) + Moves(Step(s, events[0]), events[1..])
  }

  lemma {:induction false} MovesAreBounded(s: State, events: seq<Event>)
    requires Orderly(s)
    ensures Moves(s, events) + AllLeft(Exec(s, events).tabs) <= AllLeft(s.tabs)
    decreases |events|
  {
    if events != [] {
      OrderlyStep(s, events[0]);
      EveryMoveCounts(s, events[0]);
      MovesAreBounded(Step(s, events[0]), events[1..]);
    }
  }

  lemma {:induction false} FreshLeft(n: nat)
    ensures AllLeft(Start(Empty, n).tabs) == 8 * n
  {
    if n > 0 {
      FreshLeft(n - 1);
      assert Start(Empty, n).tabs[1..] == Start(Empty, n - 1).tabs;
    }
  }

  /**
   * Whatever the slot held: a run of `n` tabs has at most eight effective events for each, and
   * from every state it reaches all the tabs can finish.
   */
  lemma RunsEnd(slot: Slot<Key>, n: nat, events: seq<Event>) returns (rest: seq<Event>)
    ensures Moves(Start(slot, n), events) <= 8 * n
    ensures AllOver(Exec(Exec(Start(slot, n), events), rest))
    ensures forall e :: e in rest ==> Fair(e)
  {
    var s := Start(slot, n);
    FreshLeft(n);
    assert s.tabs == Start(Empty, n).tabs;
    MovesAreBounded(s, events);
    RunsStayOrderly(s, events);
    rest := EveryTabCanFinish(Exec(s, events));
  }
}
