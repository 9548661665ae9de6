/** How one tab obtains its session key: look, lock, look again, and only then generate. */
module KeyCreation {
  import opened Items

  datatype KeyStep = Lookup | AcquireLock | Recheck | Generate | UseFound
  datatype KeyEvent = Found | Missing | LockGranted | LockDenied
  datatype Acquisition = Acquisition(step: KeyStep, locked: bool)

  const BEGIN := Acquisition(Lookup, false)

  function Next(a: Acquisition, event: KeyEvent): Acquisition {
    match (a.step, event)
    case (Lookup, Found) => a.(step := UseFound)
    case (Lookup, Missing) => a.(step := AcquireLock)
    case (AcquireLock, LockGranted) => Acquisition(Recheck, true)
    case (AcquireLock, LockDenied) => a.(step := Recheck)
    case (Recheck, Found) => a.(step := UseFound)
    case (Recheck, Missing) => a.(step := Generate)
    case _ => a
  }

  /** The answers that belong to a step. */
  predicate Answers(step: KeyStep, event: KeyEvent) {
    match step
    case Lookup | Recheck => event.Found? || event.Missing?
    case AcquireLock => event.LockGranted? || event.LockDenied?
    case Generate | UseFound => false
  }

  /** How many answers a step is still away from the end. */
  function Rank(step: KeyStep): nat {
    match step
    case Lookup => 3
    case AcquireLock => 2
    case Recheck => 1
    case Generate | UseFound => 0
  }

  lemma AnswersAdvance(a: Acquisition, event: KeyEvent)
    ensures Answers(a.step, event) ==> Rank(Next(a, event).step) < Rank(a.step)
    ensures !Answers(a.step, event) ==> Next(a, event) == a
    ensures Next(a, event).step == Generate ==> a.step == Generate || (a.step == Recheck && event == Missing)
    ensures Next(a, event).locked ==> a.locked || (a.step == AcquireLock && event == LockGranted)
  {
  }

  function After(events: seq<KeyEvent>): Acquisition {
    if events == [] then BEGIN else Next(After(events[..|events| - 1]), events[|events| - 1])
  }

  /** The answers of a history that were not stray, in order. */
  function Heeded(events: seq<KeyEvent>): seq<KeyEvent> {
    if events == [] then []
    else
      var last := events[|events| - 1];
      var before := events[..|events| - 1];
      if Answers(After(before).step, last) then Heeded(before) + [last] else Heeded(before)
  }

  /**
   * Whatever answers arrive, and however many of them are stray, the ones heeded are one of six
   * short histories. A key is generated only after a lock request was answered and a second look
   * found nothing, and the lock is held exactly when it was granted.
   */
  lemma {:induction false} EveryHistory(events: seq<KeyEvent>)
    ensures var h := Heeded(events);
            match After(events).step
            case Lookup => h == []
            case AcquireLock => h == [Missing]
            case Recheck => h == [Missing, LockGranted] || h == [Missing, LockDenied]
            case Generate => h == [Missing, LockGranted, Missing] || h == [Missing, LockDenied, Missing]
            case UseFound => h == [Found] || h == [Missing, LockGranted, Found] || h == [Missing, LockDenied, Found]
    ensures After(events).locked <==> LockGranted in Heeded(events)
    ensures |Heeded(events)| + Rank(After(events).step) <= 3
  {
    if events != [] {
      EveryHistory(events[..|events| - 1]);
    }
  }

  /** The machine as the driver holds it: two fields, changed only by an answer. */
  class KeyCreation {
    var step: KeyStep
    var locked: bool

    constructor ()
      ensures Value() == BEGIN
    {
      step, locked := Lookup, false;
    }

    function Value(): Acquisition
      reads this
    {
      Acquisition(step, locked)
    }

    method Advance(event: KeyEvent) returns (next: KeyStep)
      modifies this
      ensures Value() == Next(old(Value()), event)
      ensures next == step
    {
      match (step, event) {
        case (Lookup, Found) => step := UseFound;
        case (Lookup, Missing) => step := AcquireLock;
        case (AcquireLock, LockGranted) =>
          locked := true;
          step := Recheck;
        case (AcquireLock, LockDenied) => step := Recheck;
        case (Recheck, Found) => step := UseFound;
        case (Recheck, Missing) => step := Generate;
        case _ =>
      }
      next := step;
    }
  }

  // ---- The key store, used by one tab alone ----

  /** What a scope's slot holds: nothing, something that is no key, a key that could be exported, or a usable key. */
  datatype Slot<Key> = Empty | Garbage | Extractable | Usable(key: Key)

  class KeyStore<Key(==)> {
    var slot: Slot<Key>

    constructor ()
      ensures slot == Empty
    {
      slot := Empty;
    }

    method Put(key: Key)
      modifies this
      ensures slot == Usable(key)
    {
      slot := Usable(key);
    }

    /** A key that could be exported is discarded, not used. */
    method StoredKey() returns (r: Option<Key>)
      modifies `slot
      ensures r == if old(slot).Usable? then Some(old(slot).key) else None
      ensures slot == if old(slot) == Extractable then Empty else old(slot)
    {
      match slot
      case Usable(key) => r := Some(key);
      case Extractable =>
        slot := Empty;
        r := None;
      case _ => r := None;
    }

    /** The driver loop. It asks for the lock at most once and ends on every answer to that request. */
    method LoadOrCreate(granted: bool, minted: Key) returns (key: Key, asked: nat)
      modifies this
      ensures slot == Usable(key)
      ensures old(slot).Usable? ==> slot == old(slot) && asked == 0
      ensures !old(slot).Usable? ==> key == minted && asked == 1
    {
      var creation := new KeyCreation();
      var found: Option<Key> := None;
      asked := 0;
      while true
        invariant asked <= 1
        invariant creation.step.UseFound? <==> found.Some?
        invariant creation.step.UseFound? ==> slot == old(slot) == Usable(found.value) && asked == 0
        invariant creation.step.Lookup? ==> slot == old(slot) && asked == 0
        invariant creation.step.AcquireLock? || creation.step.Recheck? || creation.step.Generate? ==>
                    !old(slot).Usable? && !slot.Usable?
        invariant creation.step.AcquireLock? ==> asked == 0
        invariant creation.step.Recheck? || creation.step.Generate? ==> asked == 1
        invariant fresh(creation)
        decreases Rank(creation.step)
      {
        match creation.step
        case Lookup | Recheck =>
          found := StoredKey();
          var _ := creation.Advance(if found.Some? then Found else Missing);
        case AcquireLock =>
          asked := asked + 1;
          var _ := creation.Advance(if granted then LockGranted else LockDenied);
        case UseFound =>
          return found.value, asked;
        case Generate =>
          Put(minted);
          return minted, asked;
      }
    }
  }
}
