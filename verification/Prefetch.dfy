/** A bounded queue of a plan's assets, handed out one at a time ahead of demand. */
module Prefetch {
  import opened Items
  import opened Fingerprints
  import opened Delta
  import B = Budget

  const VISIT_BUDGET_BYTES: u64 := 64 * 1024 * 1024

  datatype PrefetchItem = PrefetchItem(assetId: Uuid, fingerprint: Fingerprint, byteSize: u64)

  /** All that can change between two asks. */
  datatype Pressure = Pressure(openWorld: Uuid, planEpoch: u64, demandInFlight: nat, inUseBytes: u64, limitBytes: u64,
                               mayStore: bool)

  datatype StopReason = PlanExhausted | VisitBudget | WorldChanged | PlanSuperseded | NoRoom | StoreClosed

  datatype Move = Fetch(item: PrefetchItem) | Yield | Stop(reason: StopReason)

  datatype Queue = Queue(world: Uuid, epoch: u64, queued: seq<PrefetchItem>, spent: u64, budget: u64)

  /** The plan's canvas assets, in its order. */
  function Assets(fetch: seq<PlanItem>): seq<PrefetchItem> {
    if fetch == [] then []
    else
      var last := fetch[|fetch| - 1];
      Assets(fetch[..|fetch| - 1]) +
      if last.id.CanvasAsset? then [PrefetchItem(last.id.uuid, last.fingerprint, last.byteSize)] else []
  }

  /** What an ask is answered, by the rule that outranks the others. */
  function Answer(q: Queue, p: Pressure): Move {
    if p.openWorld != q.world then Stop(WorldChanged)
    else if p.planEpoch != q.epoch then Stop(PlanSuperseded)
    else if !p.mayStore then Stop(StoreClosed)
    else if p.demandInFlight > 0 then Yield
    else if q.queued == [] then Stop(PlanExhausted)
    else if SaturatingAdd(q.spent, q.queued[0].byteSize) > q.budget then Stop(VisitBudget)
    else if B.AdmitSpeculative(p.inUseBytes, p.limitBytes, q.queued[0].byteSize) == B.Stop then Stop(NoRoom)
    else Fetch(q.queued[0])
  }

  function Asked(q: Queue, p: Pressure): Queue {
    if Answer(q, p).Fetch? then q.(queued := q.queued[1..]) else q
  }

  /** Exactly when something is handed out, whatever the order of the checks. */
  lemma FetchesExactly(q: Queue, p: Pressure)
    ensures Answer(q, p).Fetch? <==>
            && p.openWorld == q.world && p.planEpoch == q.epoch && p.mayStore && p.demandInFlight == 0
            && q.queued != []
            && (q.spent + q.queued[0].byteSize <= q.budget || q.budget == U64_MAX)
            && p.inUseBytes + q.queued[0].byteSize <= p.limitBytes
    ensures Answer(q, p).Yield? <==>
            p.openWorld == q.world && p.planEpoch == q.epoch && p.mayStore && p.demandInFlight > 0
  {
  }

  /**
   * With no limit known, which reaches the queue as a limit of zero, nothing is handed out but an item
   * of no planned size into a store that holds nothing; and that is handed out as under any other limit.
   */
  lemma ZeroLimitStopsAllButNothing(q: Queue, p: Pressure)
    requires p.limitBytes == 0
    ensures Answer(q, p).Fetch? <==>
            Answer(q, p.(limitBytes := U64_MAX)).Fetch? && p.inUseBytes == 0 && q.queued[0].byteSize == 0
  {
  }

  class PrefetchQueue {
    const worldId: Uuid
    const planEpoch: u64
    var queued: seq<PrefetchItem>
    var spentBytes: u64
    var visitBudgetBytes: u64

    function Value(): Queue
      reads this
    {
      Queue(worldId, planEpoch, queued, spentBytes, visitBudgetBytes)
    }

    constructor FromPlan(world: Uuid, epoch: u64, plan: SyncPlan)
      ensures Value() == Queue(world, epoch, Assets(plan.fetch), 0, VISIT_BUDGET_BYTES)
    {
      var assets: seq<PrefetchItem> := [];
      for i := 0 to |plan.fetch|
        invariant assets == Assets(plan.fetch[..i])
      {
        assert plan.fetch[..i + 1][..i] == plan.fetch[..i];
        var item := plan.fetch[i];
        match item.id
        case CanvasAsset(id) => assets := assets + [PrefetchItem(id, item.fingerprint, item.byteSize)];
        case SceneState(_) =>
      }
      assert plan.fetch[..|plan.fetch|] == plan.fetch;
      worldId, planEpoch, queued, spentBytes, visitBudgetBytes := world, epoch, assets, 0, VISIT_BUDGET_BYTES;
    }

    /** Decide the next move, taking the item off the queue if it is handed out. */
    method Step(p: Pressure) returns (move: Move)
      modifies `queued
      ensures move == Answer(old(Value()), p)
      ensures Value() == Asked(old(Value()), p)
    {
      if p.openWorld != worldId {
        return Stop(WorldChanged);
      }
      if p.planEpoch != planEpoch {
        return Stop(PlanSuperseded);
      }
      if !p.mayStore {
        return Stop(StoreClosed);
      }
      if p.demandInFlight > 0 {
        return Yield;
      }
      if queued == [] {
        return Stop(PlanExhausted);
      }
      var item := queued[0];
      if SaturatingAdd(spentBytes, item.byteSize) > visitBudgetBytes {
        return Stop(VisitBudget);
      }
      if B.AdmitSpeculative(p.inUseBytes, p.limitBytes, item.byteSize) == B.Stop {
        return Stop(NoRoom);
      }
      queued := queued[1..];
      move := Fetch(item);
    }

    method RecordStored(bytes: u64)
      modifies `spentBytes
      ensures Value() == Recorded(old(Value()), bytes)
    {
      spentBytes := SaturatingAdd(spentBytes, bytes);
    }
  }

  function Recorded(q: Queue, bytes: u64): Queue { q.(spent := SaturatingAdd(q.spent, bytes)) }

  // ---- A visit ----

  /** One ask; if it hands an item out, `stored` bytes are reported before the next (none, if the fetch failed). */
  datatype Turn = Turn(pressure: Pressure, stored: u64)

  datatype Delivery = Delivery(item: PrefetchItem, pressure: Pressure, stored: u64)

  function Took(q: Queue, t: Turn): Queue {
    if Answer(q, t.pressure).Fetch? then Recorded(Asked(q, t.pressure), t.stored) else Asked(q, t.pressure)
  }

  function After(q: Queue, turns: seq<Turn>): Queue
    decreases |turns|
  {
    if turns == [] then q else After(Took(q, turns[0]), turns[1..])
  }

  function Deliveries(q: Queue, turns: seq<Turn>): seq<Delivery>
    decreases |turns|
  {
    if turns == [] then []
    else
      (match Answer(q, turns[0].pressure)
       case Fetch(item) => [Delivery(item, turns[0].pressure, turns[0].stored)]
       case _ => []) + Deliveries(Took(q, turns[0]), turns[1..])
  }

  function ItemsOf(log: seq<Delivery>): seq<PrefetchItem> { seq(|log|, i requires 0 <= i < |log| => log[i].item) }

  function StoredIn(log: seq<Delivery>): nat {
    if log == [] then 0 else log[0].stored + StoredIn(log[1..])
  }

  /** No report exceeds the size the plan gave by more than `over`. */
  ghost predicate ReportsWithin(log: seq<Delivery>, over: nat) {
    forall d :: d in log ==> d.stored <= d.item.byteSize + over
  }

  ghost predicate Truthful(log: seq<Delivery>) { ReportsWithin(log, 0) }

  /** Whatever the pressures, what was handed out and what still waits are the queue as it was, in order. */
  lemma {:induction false} NothingLostOrReordered(q: Queue, turns: seq<Turn>)
    ensures ItemsOf(Deliveries(q, turns)) + After(q, turns).queued == q.queued
    ensures var q' := After(q, turns); q'.world == q.world && q'.epoch == q.epoch && q'.budget == q.budget
    decreases |turns|
  {
    if turns != [] {
      var rest := Deliveries(Took(q, turns[0]), turns[1..]);
      NothingLostOrReordered(Took(q, turns[0]), turns[1..]);
      if Answer(q, turns[0].pressure).Fetch? {
        assert ItemsOf(Deliveries(q, turns)) == [q.queued[0]] + ItemsOf(rest);
      } else {
        assert Deliveries(q, turns) == rest;
      }
    }
  }

  /** Every item handed out fitted beside what the store held then, so storing no more than its size keeps the limit. */
  lemma {:induction false} DeliveriesFit(q: Queue, turns: seq<Turn>)
    ensures forall d :: d in Deliveries(q, turns) ==>
              && d.pressure.inUseBytes + d.item.byteSize <= d.pressure.limitBytes
              && d.pressure.openWorld == q.world && d.pressure.planEpoch == q.epoch
              && d.pressure.demandInFlight == 0 && d.pressure.mayStore
    decreases |turns|
  {
    if turns != [] {
      DeliveriesFit(Took(q, turns[0]), turns[1..]);
    }
  }

  lemma {:induction false} TruthfulVisitsStayWithin(q: Queue, turns: seq<Turn>)
    requires q.spent <= q.budget && Truthful(Deliveries(q, turns))
    ensures After(q, turns).spent <= q.budget
    ensures q.budget < U64_MAX ==> After(q, turns).spent == q.spent + StoredIn(Deliveries(q, turns))
    decreases |turns|
  {
    if turns != [] {
      var log, rest := Deliveries(q, turns), Deliveries(Took(q, turns[0]), turns[1..]);
      if Answer(q, turns[0].pressure).Fetch? {
        assert log[0] in log && log[1..] == rest;
      } else {
        assert log == rest;
      }
      assert forall d :: d in rest ==> d in log;
      TruthfulVisitsStayWithin(Took(q, turns[0]), turns[1..]);
    }
  }

  /** The allowance bounds every visit whose reports exceed the plan by at most `over`. */
  ghost predicate AllowanceHolds(over: nat) {
    forall q: Queue, turns: seq<Turn> :: q.spent <= q.budget < U64_MAX && ReportsWithin(Deliveries(q, turns), over) ==>
      After(q, turns).spent <= q.budget
  }

  /** It does so exactly when reports may not exceed the plan at all. */
  lemma AllowanceHoldsExactly(over: nat)
    ensures AllowanceHolds(over) <==> over == 0
  {
    if over == 0 {
      forall q: Queue, turns: seq<Turn> | q.spent <= q.budget < U64_MAX && ReportsWithin(Deliveries(q, turns), over)
        ensures After(q, turns).spent <= q.budget
      {
        TruthfulVisitsStayWithin(q, turns);
      }
    } else {
      var q, turns, log := OneByteOver();
      assert ReportsWithin(log, over);
    }
  }

  /** A full allowance and a full store, and one report a byte over the plan. */
  lemma OneByteOver() returns (q: Queue, turns: seq<Turn>, log: seq<Delivery>)
    ensures log == Deliveries(q, turns) && ReportsWithin(log, 1) && Carried(q, turns, 0, 1)
    ensures q.spent <= q.budget < U64_MAX && After(q, turns).spent > q.budget
    ensures StoredIn(log) > 1
  {
    var item := PrefetchItem(1, Fingerprint(seq(DIGEST_LEN, _ => 0 as bv8)), 1);
    q := Queue(0, 0, [item], 0, 1);
    var t := Turn(Pressure(0, 0, 0, 0, 1, true), 2);
    turns, log := [t], [Delivery(item, t.pressure, 2)];
    assert Answer(q, t.pressure) == Fetch(item);
    assert turns[1..] == [] && Deliveries(Took(q, t), []) == [] && log + [] == log;
    assert StoredIn(log[1..]) == 0;
  }

  // ---- The store's limit ----

  /**
   * The pressures of a run that keeps one limit and carries the bytes in use forward from `base` by
   * what each turn stored.
   */
  ghost predicate Carried(q: Queue, turns: seq<Turn>, base: u64, limit: u64)
    decreases |turns|
  {
    turns != [] ==>
      && turns[0].pressure.inUseBytes == base && turns[0].pressure.limitBytes == limit
      && Carried(Took(q, turns[0]), turns[1..],
                 if Answer(q, turns[0].pressure).Fetch? then SaturatingAdd(base, turns[0].stored) else base, limit)
  }

  lemma {:induction false} TruthfulVisitsFit(q: Queue, turns: seq<Turn>, base: u64, limit: u64)
    requires Carried(q, turns, base, limit) && base <= limit && Truthful(Deliveries(q, turns))
    ensures base + StoredIn(Deliveries(q, turns)) <= limit
    decreases |turns|
  {
    if turns != [] {
      var t, log, rest := turns[0], Deliveries(q, turns), Deliveries(Took(q, turns[0]), turns[1..]);
      if Answer(q, t.pressure).Fetch? {
        assert log[0] in log && log[1..] == rest;
        TruthfulVisitsFit(Took(q, t), turns[1..], base + t.stored, limit);
      } else {
        assert log == rest;
        TruthfulVisitsFit(Took(q, t), turns[1..], base, limit);
      }
    }
  }

  /**
   * Speculation takes no store past its limit, when reports exceed the plan by at most `over` and loads
   * on demand, which the carried figure never sees, store at most `unseen` bytes: what is held without
   * speculation, `bytes`, then exceeds the figure the run carries forward from `base` by those.
   */
  ghost predicate LimitHolds(over: nat, unseen: nat) {
    forall q: Queue, turns: seq<Turn>, base: u64, limit: u64, bytes: nat ::
      && Carried(q, turns, base, limit) && ReportsWithin(Deliveries(q, turns), over)
      && base <= bytes <= base + unseen && bytes <= limit ==>
        Fits(q, turns, bytes, limit)
  }

  /** What was stored without speculation and with it is within the limit. */
  ghost predicate Fits(q: Queue, turns: seq<Turn>, bytes: nat, limit: u64) {
    bytes + StoredIn(Deliveries(q, turns)) <= limit
  }

  /** It does so exactly when reports may not exceed the plan and demand may store nothing meanwhile. */
  lemma LimitHoldsExactly(over: nat, unseen: nat)
    ensures LimitHolds(over, unseen) <==> over == 0 && unseen == 0
  {
    if over == 0 && unseen == 0 {
      forall q: Queue, turns: seq<Turn>, base: u64, limit: u64, bytes: nat |
        && Carried(q, turns, base, limit) && ReportsWithin(Deliveries(q, turns), over)
        && base <= bytes <= base + unseen && bytes <= limit
        ensures Fits(q, turns, bytes, limit)
      {
        TruthfulVisitsFit(q, turns, base, limit);
      }
    } else if over > 0 {
      var q, turns, log := OneByteOver();
      assert ReportsWithin(log, over) && Carried(q, turns, 0, 1);
      assert !Fits(q, turns, 0, 1);
    } else {
      var q, turns, log := OneByteEach();
      assert ReportsWithin(log, over) && Carried(q, turns, 0, 1);
      assert !Fits(q, turns, 1, 1);
    }
  }

  /** A store with room for one byte, and one truthful report of a byte. */
  lemma OneByteEach() returns (q: Queue, turns: seq<Turn>, log: seq<Delivery>)
    ensures log == Deliveries(q, turns) && Truthful(log) && Carried(q, turns, 0, 1) && StoredIn(log) == 1
  {
    var item := PrefetchItem(1, Fingerprint(seq(DIGEST_LEN, _ => 0 as bv8)), 1);
    q := Queue(0, 0, [item], 0, 1);
    var t := Turn(Pressure(0, 0, 0, 0, 1, true), 1);
    turns, log := [t], [Delivery(item, t.pressure, 1)];
    assert Answer(q, t.pressure) == Fetch(item);
    assert turns[1..] == [] && Deliveries(Took(q, t), []) == [] && log + [] == log;
    assert StoredIn(log[1..]) == 0;
  }

  /** A store past its limit by the carried figure is handed nothing more. */
  lemma {:induction false} FullStoresStop(q: Queue, turns: seq<Turn>, base: u64, limit: u64)
    requires Carried(q, turns, base, limit) && base > limit
    ensures Deliveries(q, turns) == []
    decreases |turns|
  {
    if turns != [] {
      FullStoresStop(Took(q, turns[0]), turns[1..], base, limit);
    }
  }

  lemma {:induction false} CarriedOverrun(q: Queue, turns: seq<Turn>, base: u64, limit: u64, over: nat)
    requires Carried(q, turns, base, limit) && base <= limit < U64_MAX && ReportsWithin(Deliveries(q, turns), over)
    ensures base + StoredIn(Deliveries(q, turns)) <= limit + over
    decreases |turns|
  {
    if turns != [] {
      var t, log, rest := turns[0], Deliveries(q, turns), Deliveries(Took(q, turns[0]), turns[1..]);
      if Answer(q, t.pressure).Fetch? {
        assert log[0] in log && log[1..] == rest;
        var carried := SaturatingAdd(base, t.stored);
        if carried <= limit {
          CarriedOverrun(Took(q, t), turns[1..], carried, limit, over);
        } else {
          FullStoresStop(Took(q, t), turns[1..], carried, limit);
        }
      } else {
        assert log == rest;
        CarriedOverrun(Took(q, t), turns[1..], base, limit, over);
      }
    }
  }

  /** In any case the store ends past its limit by no more than one report's excess and what demand stored unseen. */
  lemma OverrunIsBounded(q: Queue, turns: seq<Turn>, base: u64, limit: u64, bytes: nat, over: nat, unseen: nat)
    requires Carried(q, turns, base, limit) && base <= limit < U64_MAX && ReportsWithin(Deliveries(q, turns), over)
    requires bytes <= base + unseen
    ensures bytes + StoredIn(Deliveries(q, turns)) <= limit + over + unseen
  {
    CarriedOverrun(q, turns, base, limit, over);
  }

  /**
   * A visit from a plan: what it hands out is a prefix of the plan's canvas assets; and when no report
   * exceeds the planned size, its bytes are all counted, stay within the allowance, and leave a store
   * that was within its limit past it by no more than demand stored meanwhile.
   */
  lemma Visit(world: Uuid, epoch: u64, plan: SyncPlan, turns: seq<Turn>, base: u64, limit: u64, bytes: nat, unseen: nat)
    ensures var q := Queue(world, epoch, Assets(plan.fetch), 0, VISIT_BUDGET_BYTES);
            var log := Deliveries(q, turns);
            && ItemsOf(log) <= Assets(plan.fetch)
            && (Truthful(log) ==> After(q, turns).spent == StoredIn(log) <= VISIT_BUDGET_BYTES)
            && (Truthful(log) && Carried(q, turns, base, limit) && base <= limit && bytes <= base + unseen ==>
                  bytes + StoredIn(log) <= limit + unseen)
  {
    var q := Queue(world, epoch, Assets(plan.fetch), 0, VISIT_BUDGET_BYTES);
    NothingLostOrReordered(q, turns);
    if Truthful(Deliveries(q, turns)) {
      TruthfulVisitsStayWithin(q, turns);
      if Carried(q, turns, base, limit) && base <= limit {
        TruthfulVisitsFit(q, turns, base, limit);
      }
    }
  }

  /** Exactly when one turn overruns: it hands an item out and its report exceeds what is left of the allowance. */
  lemma TurnOverrunsExactly(q: Queue, t: Turn)
    requires q.spent <= q.budget < U64_MAX
    ensures Took(q, t).spent > q.budget <==> Answer(q, t.pressure).Fetch? && t.stored > q.budget - q.spent
  {
  }

  /**
   * What bounds a visit in any case: only the last report can carry it past the allowance, and by
   * no more than that report exceeds its item's planned size.
   */
  lemma {:induction false} OnlyTheLastReportOverruns(q: Queue, turns: seq<Turn>)
    requires q.spent <= q.budget < U64_MAX
    ensures var q', log := After(q, turns), Deliveries(q, turns);
            q'.spent > q.budget ==>
              log != [] && var last := log[|log| - 1]; q'.spent <= q.budget + last.stored - last.item.byteSize
    decreases |turns|
  {
    if turns != [] {
      var mid := Took(q, turns[0]);
      var log, rest := Deliveries(q, turns), Deliveries(mid, turns[1..]);
      if mid.spent <= q.budget {
        OnlyTheLastReportOverruns(mid, turns[1..]);
        if rest != [] {
          assert log[|log| - 1] == rest[|rest| - 1];
        }
      } else {
        SpentVisitsStop(mid, turns[1..]);
        assert log == [log[0]];
      }
    }
  }

  lemma {:induction false} SpentVisitsStop(q: Queue, turns: seq<Turn>)
    requires q.spent > q.budget
    ensures After(q, turns) == q && Deliveries(q, turns) == []
    decreases |turns|
  {
    if turns != [] {
      SpentVisitsStop(Took(q, turns[0]), turns[1..]);
    }
  }
}
