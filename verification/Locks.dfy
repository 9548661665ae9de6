/**
 * Any number of requests for one lock name, each racing its grant against a timer. The browser's
 * side follows "request a lock" and "release the lock" of the Web Locks API (section 4): the lock
 * is taken from the head of the queue, the callback runs later, and the lock is held until the
 * promise the callback returned is resolved.
 */
module Locks {
  import opened Items

  type Rid = nat

  /** Where the browser has a request. `Refused` is an if-available request that found the lock taken. */
  datatype Status = Queued | Acquired | Refused | Holding | Gone

  /** Where the caller is: still waiting, told to go ahead without the lock, or given a guard. */
  datatype Caller = Waiting | Denied | Guarded(released: bool)

  /** `race` is what settled first: a grant is true; a timer, refusal or rejection is not. */
  datatype Request = Request(timed: bool, status: Status, race: Option<bool>, resolved: bool, caller: Caller)

  datatype State = State(queue: seq<Rid>, holder: Option<Rid>, requests: map<Rid, Request>)

  datatype Event =
    | Ask(r: Rid, timed: bool)
    | Take(r: Rid)        // the browser takes the lock for the head of the queue
    | Callback(r: Rid)    // the callback runs
    | Timer(r: Rid)
    | Reject(r: Rid)
    | Resume(r: Rid)      // the caller wakes up on whatever settled the race
    | Release(r: Rid)     // the guard is released, or dropped
    | Free(r: Rid)        // the browser notices the resolved promise

  const EMPTY := State([], None, map[])

  function Settle(q: Request, won: bool): Request {
    if q.race == None then q.(race := Some(won)) else q
  }

  function Set(s: State, r: Rid, q: Request): State { s.(requests := s.requests[r := q]) }

  /** An event that cannot happen now changes nothing. */
  function Step(s: State, e: Event): State {
    if e.Ask? then
      if e.r in s.requests then s
      else if e.timed then Set(s.(queue := s.queue + [e.r]), e.r, Request(true, Queued, None, false, Waiting))
      else if s.holder == None && s.queue == []
      then Set(s.(holder := Some(e.r)), e.r, Request(false, Acquired, None, false, Waiting))
      else Set(s, e.r, Request(false, Refused, None, false, Waiting))
    else if e.r !in s.requests then s
    else
      var r, q := e.r, s.requests[e.r];
      match e
      case Take(_) =>
        if s.holder == None && s.queue != [] && s.queue[0] == r && q.status == Queued
        then Set(s.(holder := Some(r), queue := s.queue[1..]), r, q.(status := Acquired)) else s
      case Callback(_) =>
        if q.status == Acquired then Set(s, r, Settle(q, true).(status := Holding))
        else if q.status == Refused then Set(s, r, Settle(q, false).(status := Gone))
        else s
      case Timer(_) => if q.timed then Set(s, r, Settle(q, false)) else s
      case Reject(_) =>
        if q.status == Queued then Set(s.(queue := Dequeued(s.queue, r)), r, Settle(q, false).(status := Gone)) else s
      case Resume(_) =>
        if q.caller != Waiting || q.race == None then s
        else if q.race.value then Set(s, r, q.(caller := Guarded(false)))
        else Set(s, r, q.(caller := Denied, resolved := true))
      case Release(_) =>
        if q.caller == Guarded(false) then Set(s, r, q.(caller := Guarded(true), resolved := true)) else s
      case Free(_) =>
        if q.status == Holding && q.resolved then Set(s.(holder := None), r, q.(status := Gone)) else s
  }

  function Dequeued(queue: seq<Rid>, r: Rid): seq<Rid> {
    if queue == [] then [] else (if queue[0] == r then [] else [queue[0]]) + Dequeued(queue[1..], r)
  }

  function Exec(s: State, events: seq<Event>): State
    decreases |events|
  {
    if events == [] then s else Exec(Step(s, events[0]), events[1..])
  }

  // ---- What every state of every run keeps ----

  predicate LiveGuard(q: Request) { q.caller == Guarded(false) }

  ghost predicate RequestOk(s: State, r: Rid)
    requires r in s.requests
  {
    var q := s.requests[r];
    && (s.holder == Some(r) <==> q.status == Acquired || q.status == Holding)
    && (r in s.queue <==> q.status == Queued)
    && (q.race == Some(true) ==> q.status == Holding || (q.status == Gone && q.resolved))
    && (q.status == Holding || q.status == Gone ==> q.race.Some?)
    && (q.caller.Guarded? ==> q.race == Some(true))
    && (q.caller == Denied ==> q.race == Some(false))
    && (q.resolved <==> q.caller == Denied || q.caller == Guarded(true))
    && (q.status == Queued ==> q.timed)
  }

  ghost predicate Sane(s: State) {
    && (forall r :: r in s.requests ==> RequestOk(s, r))
    && (forall r :: r in s.queue ==> r in s.requests)
    && (s.holder.Some? ==> s.holder.value in s.requests)
    && Distinct(s.queue)
  }

  lemma {:induction false} DequeuedIs(queue: seq<Rid>, r: Rid)
    ensures forall x :: x in Dequeued(queue, r) <==> x in queue && x != r
    ensures Distinct(queue) ==> Distinct(Dequeued(queue, r))
  {
    if queue != [] {
      DequeuedIs(queue[1..], r);
      var rest := Dequeued(queue[1..], r);
      assert queue == [queue[0]] + queue[1..];
      if Distinct(queue) && queue[0] != r {
        forall i, j | 0 <= i < j < |Dequeued(queue, r)| ensures Dequeued(queue, r)[i] != Dequeued(queue, r)[j] {
          assert Dequeued(queue, r)[j] == rest[j - 1] && rest[j - 1] in queue[1..];
        }
      }
    }
  }

  lemma SaneStep(s: State, e: Event)
    requires Sane(s)
    ensures Sane(Step(s, e))
  {
    QueueStaysSane(s, e);
    RequestsStayOk(s, e);
  }

  lemma QueueStaysSane(s: State, e: Event)
    requires Sane(s)
    ensures var s' := Step(s, e);
            && Distinct(s'.queue)
            && (forall r :: r in s'.queue ==> r in s'.requests)
            && (forall r :: r != e.r ==> (r in s'.queue <==> r in s.queue))
            && (s'.holder.Some? ==> s'.holder.value in s'.requests)
    ensures s.queue != [] ==> s.queue[0] !in s.queue[1..]
  {
    if s.queue != [] {
      assert s.queue == [s.queue[0]] + s.queue[1..];
    }
    match e
    case Ask(r, timed) => assert r in s.queue ==> r in s.requests;
    case Reject(r) => DequeuedIs(s.queue, r);
    case Take(_) =>
    case _ => assert Step(s, e).queue == s.queue;
  }

  lemma RequestsStayOk(s: State, e: Event)
    requires Sane(s)
    ensures var s' := Step(s, e); forall r :: r in s'.requests ==> RequestOk(s', r)
  {
    var s' := Step(s, e);
    forall r | r in s'.requests ensures RequestOk(s', r) {
      if r == e.r {
        ActorStaysOk(s, e);
      } else {
        OthersStayOk(s, e, r);
      }
    }
  }

  lemma OthersStayOk(s: State, e: Event, r: Rid)
    requires Sane(s) && r != e.r && r in Step(s, e).requests
    ensures RequestOk(Step(s, e), r)
  {
    QueueStaysSane(s, e);
    assert RequestOk(s, r);
    assert e.r in s.requests ==> RequestOk(s, e.r);
  }

  lemma ActorStaysOk(s: State, e: Event)
    requires Sane(s) && e.r in Step(s, e).requests
    ensures RequestOk(Step(s, e), e.r)
  {
    QueueStaysSane(s, e);
    DequeuedIs(s.queue, e.r);
    assert e.r in s.requests ==> RequestOk(s, e.r);
  }

  lemma {:induction false} SaneRun(s: State, events: seq<Event>)
    requires Sane(s)
    ensures Sane(Exec(s, events))
    decreases |events|
  {
    if events != [] {
      SaneStep(s, events[0]);
      SaneRun(Step(s, events[0]), events[1..]);
    }
  }

  // ---- What callers may rely on ----

  /**
   * In every run: a live guard means the lock is held for it, so there is at most one; and a
   * request that is over holds the lock only under its live guard, or with its promise already
   * resolved, so that the browser will let it go.
   */
  lemma GuardsAreExclusive(events: seq<Event>)
    ensures var s := Exec(EMPTY, events);
            && (forall r :: r in s.requests && LiveGuard(s.requests[r]) ==> s.holder == Some(r))
            && (forall r, q :: r in s.requests && q in s.requests ==>
                  LiveGuard(s.requests[r]) && LiveGuard(s.requests[q]) ==> r == q)
            && (forall r :: r in s.requests && s.requests[r].caller != Waiting && s.holder == Some(r) ==>
                  LiveGuard(s.requests[r]) || s.requests[r].resolved)
  {
    SaneRun(EMPTY, events);
    var s := Exec(EMPTY, events);
    forall r | r in s.requests && LiveGuard(s.requests[r]) ensures s.holder == Some(r) {
      assert RequestOk(s, r);
    }
    forall r | r in s.requests && s.requests[r].caller != Waiting && s.holder == Some(r)
      ensures LiveGuard(s.requests[r]) || s.requests[r].resolved
    {
      assert RequestOk(s, r);
    }
  }

  /** The request whose guard is live, if any. */
  ghost function Owner(s: State): Option<Rid> {
    if exists r :: r in s.requests && LiveGuard(s.requests[r])
    then (var r :| r in s.requests && LiveGuard(s.requests[r]); Some(r)) else None
  }

  lemma OwnerIs(s: State, r: Rid)
    requires Sane(s)
    ensures Owner(s) == Some(r) <==> r in s.requests && LiveGuard(s.requests[r])
  {
    forall q | q in s.requests && LiveGuard(s.requests[q]) ensures s.holder == Some(q) {
      assert RequestOk(s, q);
    }
  }

  predicate WakesToGrant(s: State, e: Event) {
    e.Resume? && e.r in s.requests && s.requests[e.r].caller == Waiting && s.requests[e.r].race == Some(true)
  }

  lemma GuardsChange(s: State, e: Event)
    ensures var s' := Step(s, e);
            && s.requests.Keys <= s'.requests.Keys
            && forall r :: r in s'.requests ==>
                 (LiveGuard(s'.requests[r]) <==>
                  if r == e.r && WakesToGrant(s, e) then true
                  else r in s.requests && LiveGuard(s.requests[r]) && !(e.Release? && r == e.r))
  {
  }

  /**
   * To its callers this is a plain exclusive lock: it passes from nobody to the request that wakes
   * up to a grant, and back to nobody when that guard is released; nothing else moves it.
   */
  lemma RefinesExclusiveLock(s: State, e: Event)
    requires Sane(s)
    ensures Owner(Step(s, e)) ==
            if WakesToGrant(s, e) then Some(e.r)
            else if e.Release? && Owner(s) == Some(e.r) then None
            else Owner(s)
    ensures WakesToGrant(s, e) ==> Owner(s) == None
  {
    var s' := Step(s, e);
    SaneStep(s, e);
    GuardsChange(s, e);
    forall r ensures (Owner(s) == Some(r) <==> r in s.requests && LiveGuard(s.requests[r]))
                  && (Owner(s') == Some(r) <==> r in s'.requests && LiveGuard(s'.requests[r]))
    {
      OwnerIs(s, r);
      OwnerIs(s', r);
    }
    if WakesToGrant(s, e) {
      assert RequestOk(s, e.r) && RequestOk(s', e.r);
    }
  }

  // ---- Nothing is stranded ----

  lemma Run4(s: State, a: Event, b: Event, c: Event, d: Event)
    ensures Exec(s, [a, b, c, d]) == Step(Step(Step(Step(s, a), b), c), d)
  {
    var t := Step(s, a);
    assert [a, b, c, d][1..] == [b, c, d] && [b, c, d][1..] == [c, d] && [c, d][1..] == [d] && [d][1..] == [];
    assert Exec(s, [a, b, c, d]) == Exec(t, [b, c, d]);
    assert Exec(t, [b, c, d]) == Exec(Step(t, b), [c, d]);
    assert Exec(Step(t, b), [c, d]) == Exec(Step(Step(t, b), c), [d]);
    assert Exec(Step(Step(t, b), c), [d]) == Step(Step(Step(t, b), c), d);
  }

  /** Whoever holds the lock, its own callback, wake-up and release free it; nobody else has to act. */
  lemma HolderCanFree(s: State)
    requires Sane(s) && s.holder.Some?
    ensures var r := s.holder.value; Exec(s, [Callback(r), Resume(r), Release(r), Free(r)]).holder == None
  {
    var r := s.holder.value;
    assert RequestOk(s, r);
    Run4(s, Callback(r), Resume(r), Release(r), Free(r));
    var a := Step(s, Callback(r));
    assert a.requests[r].status == Holding && a.requests[r].race.Some?;
    var b := Step(a, Resume(r));
    assert b.requests[r].status == Holding && (LiveGuard(b.requests[r]) || b.requests[r].resolved);
    var c := Step(b, Release(r));
    assert c.requests[r].status == Holding && c.requests[r].resolved;
  }

  /** A caller told to go ahead never strands the lock: once its late grant's callback has run, the browser frees it. */
  lemma LateGrantIsFreed(s: State, r: Rid)
    requires Sane(s) && r in s.requests && s.requests[r].caller == Denied && s.holder == Some(r)
    ensures Step(Step(s, Callback(r)), Free(r)).holder == None
    ensures !LiveGuard(Step(s, Callback(r)).requests[r])
  {
    assert RequestOk(s, r);
  }

  /** No caller waits for ever: its timer, or without one its callback, lets it go on. */
  lemma EveryCallerGoesOn(s: State, r: Rid)
    requires Sane(s) && r in s.requests
    ensures var waited := Step(s, if s.requests[r].timed then Timer(r) else Callback(r));
            Step(waited, Resume(r)).requests[r].caller != Waiting
  {
    assert RequestOk(s, r);
  }

  lemma ReleasingTwiceIsOnce(s: State, r: Rid)
    ensures Step(Step(s, Release(r)), Release(r)) == Step(s, Release(r))
  {
  }

  /** A held lock. Releasing calls the promise's resolver, the first time only. */
  class Guard {
    var released: bool
    var resolverCalls: nat

    constructor ()
      ensures !released && resolverCalls == 0
    {
      released, resolverCalls := false, 0;
    }

    method Release()
      modifies this
      ensures released && resolverCalls == old(resolverCalls) + if old(released) then 0 else 1
    {
      var before := released;
      released := true;
      if before {
        return;
      }
      resolverCalls := resolverCalls + 1;
    }
  }
}
