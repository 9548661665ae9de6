/** The space budget: its limit, the choice of worlds to release, and room for speculation. */
module Budget {
  import opened Items
  import opened Sorting

  const QUOTA_SHARE_DENOMINATOR: nat := 2
  const MAX_BUDGET_BYTES: u64 := 20 * 1024 * 1024 * 1024

  datatype IndexEntry = IndexEntry(id: ItemId, worldId: Uuid, byteSize: u64, lastReadSeq: u64)

  datatype BudgetPlan = BudgetPlan(limitBytes: u64, inUseBytes: u64, evict: seq<ItemId>, insufficient: bool)

  /** One world's cost and warmth, as the planner tallies them. */
  datatype WorldUse = WorldUse(world: Uuid, bytes: nat, recency: nat)

  /** The most that is neither over half the quota nor over the cap. */
  function LimitBytes(reportedQuota: u64): (limit: u64)
    ensures 2 * limit <= reportedQuota && limit <= MAX_BUDGET_BYTES
    ensures forall more: u64 :: 2 * more <= reportedQuota && more <= MAX_BUDGET_BYTES ==> more <= limit
  {
    Min(reportedQuota / QUOTA_SHARE_DENOMINATOR, MAX_BUDGET_BYTES)
  }

  // ---- What an index weighs ----

  function TotalBytes(index: seq<IndexEntry>): nat {
    if index == [] then 0 else index[0].byteSize + TotalBytes(index[1..])
  }

  function InWorld(index: seq<IndexEntry>, w: Uuid): seq<IndexEntry> {
    if index == [] then []
    else if index[0].worldId == w then [index[0]] + InWorld(index[1..], w)
    else InWorld(index[1..], w)
  }

  function OutsideWorld(index: seq<IndexEntry>, w: Uuid): seq<IndexEntry> {
    if index == [] then []
    else if index[0].worldId != w then [index[0]] + OutsideWorld(index[1..], w)
    else OutsideWorld(index[1..], w)
  }

  function WorldBytes(index: seq<IndexEntry>, w: Uuid): nat { TotalBytes(InWorld(index, w)) }

  /** The newest read among a list of rows. */
  function Newest(index: seq<IndexEntry>): nat {
    if index == [] then 0 else Max(index[0].lastReadSeq, Newest(index[1..]))
  }

  function WorldRecency(index: seq<IndexEntry>, w: Uuid): nat { Newest(InWorld(index, w)) }

  function Ids(index: seq<IndexEntry>): seq<ItemId> {
    if index == [] then [] else [index[0].id] + Ids(index[1..])
  }

  function WorldIds(index: seq<IndexEntry>, w: Uuid): seq<ItemId> { SortBy(Ids(InWorld(index, w)), ItemLe) }

  // ---- Which worlds go, and in what order ----

  predicate ColderOrEqual(a: WorldUse, b: WorldUse) {
    a.recency < b.recency || (a.recency == b.recency && a.world <= b.world)
  }

  function Worlds(worlds: seq<WorldUse>): set<Uuid> { set u | u in worlds :: u.world }

  function RowWorlds(index: seq<IndexEntry>): set<Uuid> { set e | e in index :: e.worldId }

  ghost predicate TrueUse(u: WorldUse, index: seq<IndexEntry>) {
    u.bytes == WorldBytes(index, u.world) && u.recency == WorldRecency(index, u.world)
  }

  /** Each world of the index but the open one, once, at its true cost and warmth. */
  ghost predicate ListsWorldsBut(worlds: seq<WorldUse>, index: seq<IndexEntry>, open: Uuid) {
    && Distinct(worlds)
    && (forall i :: 0 <= i < |worlds| ==> TrueUse(worlds[i], index))
    && Worlds(worlds) == RowWorlds(index) - {open}
  }

  /** What the first `k` listed worlds weigh. */
  function UseBytes(worlds: seq<WorldUse>, k: nat): nat
    requires k <= |worlds|
  {
    if k == 0 then 0 else UseBytes(worlds, k - 1) + worlds[k - 1].bytes
  }

  /** The first `k` listed worlds' items, world by world. */
  function ReleasedIds(index: seq<IndexEntry>, worlds: seq<WorldUse>, k: nat): seq<ItemId>
    requires k <= |worlds|
  {
    if k == 0 then [] else ReleasedIds(index, worlds, k - 1) + WorldIds(index, worlds[k - 1].world)
  }

  /**
   * `order` is every world but the open one, coldest first; `plan` releases its first `k` entire;
   * with those gone the incoming bytes fit or nothing is left to release; and no shorter prefix would do.
   */
  ghost predicate ReleasesPrefix(index: seq<IndexEntry>, limit: u64, incoming: u64, open: Uuid, plan: BudgetPlan,
                                 order: seq<WorldUse>, k: nat)
  {
    && ListsWorldsBut(order, index, open)
    && SortedBy(order, ColderOrEqual)
    && k <= |order|
    && plan.evict == ReleasedIds(index, order, k)
    && (TotalBytes(index) + incoming - UseBytes(order, k) <= limit || k == |order|)
    && (forall j :: 0 <= j < k ==> TotalBytes(index) + incoming - UseBytes(order, j) > limit)
  }

  ghost predicate IsEvictionPlan(index: seq<IndexEntry>, limit: u64, incoming: u64, open: Uuid, plan: BudgetPlan) {
    && plan.limitBytes == limit
    && plan.inUseBytes == TotalBytes(index)
    && (plan.insufficient <==> WorldBytes(index, open) + incoming > limit)
    && exists order, k :: ReleasesPrefix(index, limit, incoming, open, plan, order, k)
  }

  // ---- Tallying worlds ----

  function Credit(worlds: seq<WorldUse>, e: IndexEntry): (r: seq<WorldUse>) {
    if worlds == [] then [WorldUse(e.worldId, e.byteSize, e.lastReadSeq)]
    else if worlds[0].world == e.worldId then
      [WorldUse(e.worldId, worlds[0].bytes + e.byteSize, Max(worlds[0].recency, e.lastReadSeq))] + worlds[1..]
    else [worlds[0]] + Credit(worlds[1..], e)
  }

  /** Every world but the open one, in the order its first row appears. */
  function Tally(index: seq<IndexEntry>, open: Uuid): seq<WorldUse> {
    if index == [] then []
    else
      var last := index[|index| - 1];
      var before := Tally(index[..|index| - 1], open);
      if last.worldId == open then before else Credit(before, last)
  }

  lemma {:induction false} CreditAt(worlds: seq<WorldUse>, e: IndexEntry, i: nat)
    requires i <= |worlds|
    requires forall j :: 0 <= j < i ==> worlds[j].world != e.worldId
    requires i < |worlds| ==> worlds[i].world == e.worldId
    ensures Credit(worlds, e) ==
            if i < |worlds| then
              worlds[i := WorldUse(e.worldId, worlds[i].bytes + e.byteSize, Max(worlds[i].recency, e.lastReadSeq))]
            else worlds + [WorldUse(e.worldId, e.byteSize, e.lastReadSeq)]
  {
    if i > 0 {
      CreditAt(worlds[1..], e, i - 1);
    }
  }

  lemma {:induction false} Appended(index: seq<IndexEntry>, e: IndexEntry, w: Uuid)
    ensures InWorld(index + [e], w) == if e.worldId == w then InWorld(index, w) + [e] else InWorld(index, w)
    ensures TotalBytes(index + [e]) == TotalBytes(index) + e.byteSize
    ensures Newest(index + [e]) == Max(Newest(index), e.lastReadSeq)
  {
    if index != [] {
      assert (index + [e])[1..] == index[1..] + [e];
      Appended(index[1..], e, w);
    }
  }

  lemma AppendedTallies(index: seq<IndexEntry>, e: IndexEntry, w: Uuid)
    ensures WorldBytes(index + [e], w) == WorldBytes(index, w) + if e.worldId == w then e.byteSize else 0
    ensures WorldRecency(index + [e], w) ==
            if e.worldId == w then Max(WorldRecency(index, w), e.lastReadSeq) else WorldRecency(index, w)
  {
    Appended(index, e, w);
    Appended(InWorld(index, w), e, w);
  }

  lemma {:induction false} UnseenIsEmpty(index: seq<IndexEntry>, w: Uuid)
    requires forall e :: e in index ==> e.worldId != w
    ensures InWorld(index, w) == []
  {
    if index != [] {
      UnseenIsEmpty(index[1..], w);
    }
  }

  lemma {:induction false} TallyLists(index: seq<IndexEntry>, open: Uuid)
    ensures ListsWorldsBut(Tally(index, open), index, open)
  {
    if index != [] {
      var before, e := index[..|index| - 1], index[|index| - 1];
      assert index == before + [e];
      TallyLists(before, open);
      if e.worldId != open {
        CreditLists(Tally(before, open), before, e, open);
      } else {
        forall w {
          AppendedTallies(before, e, w);
        }
      }
    }
  }

  /** Where a row's world stands in a tally, or the tally's length. */
  function Place(worlds: seq<WorldUse>, w: Uuid): (i: nat)
    ensures i <= |worlds|
    ensures forall j :: 0 <= j < i ==> worlds[j].world != w
    ensures i < |worlds| ==> worlds[i].world == w
  {
    if worlds == [] || worlds[0].world == w then 0 else 1 + Place(worlds[1..], w)
  }

  lemma CreditLists(worlds: seq<WorldUse>, index: seq<IndexEntry>, e: IndexEntry, open: Uuid)
    requires ListsWorldsBut(worlds, index, open) && e.worldId != open
    ensures ListsWorldsBut(Credit(worlds, e), index + [e], open)
  {
    var after, i := Credit(worlds, e), Place(worlds, e.worldId);
    CreditAt(worlds, e, i);
    if i == |worlds| {
      assert e.worldId !in Worlds(worlds);
      assert forall x :: x in index ==> x.worldId in RowWorlds(index);
      UnseenIsEmpty(index, e.worldId);
    }
    forall j | 0 <= j < |after| ensures TrueUse(after[j], index + [e]) {
      AppendedTallies(index, e, after[j].world);
    }
    CreditNames(worlds, e, i);
  }

  lemma CreditNames(worlds: seq<WorldUse>, e: IndexEntry, i: nat)
    requires i == Place(worlds, e.worldId)
    ensures Worlds(Credit(worlds, e)) == Worlds(worlds) + {e.worldId}
  {
    var after := Credit(worlds, e);
    CreditAt(worlds, e, i);
    assert e.worldId == after[i].world && after[i] in after;
    forall j | 0 <= j < |worlds| ensures worlds[j].world in Worlds(after) {
      assert after[j] in after && after[j].world == worlds[j].world;
    }
    forall j | 0 <= j < |after| && j != i ensures after[j].world in Worlds(worlds) {
      assert after[j] == worlds[j] && worlds[j] in worlds;
    }
  }

  lemma {:induction false} SplitByWorld(index: seq<IndexEntry>, w: Uuid)
    ensures TotalBytes(index) == WorldBytes(index, w) + TotalBytes(OutsideWorld(index, w))
  {
    if index != [] {
      SplitByWorld(index[1..], w);
      var a, b := InWorld(index[1..], w), OutsideWorld(index[1..], w);
      assert ([index[0]] + a)[1..] == a && ([index[0]] + b)[1..] == b;
    }
  }

  // ---- The planner ----

  method SumBytes(index: seq<IndexEntry>) returns (sum: u64)
    requires TotalBytes(index) <= U64_MAX
    ensures sum == TotalBytes(index)
  {
    sum := 0;
    for i := 0 to |index|
      invariant sum + TotalBytes(index[i..]) == TotalBytes(index)
    {
      assert index[i..][1..] == index[i + 1..];
      sum := sum + index[i].byteSize;
    }
  }

  /** Tally every world but the open one, looking each row's world up among those already seen. */
  method TallyWorlds(index: seq<IndexEntry>, open: Uuid) returns (worlds: seq<WorldUse>)
    ensures worlds == Tally(index, open)
  {
    worlds := [];
    for n := 0 to |index|
      invariant worlds == Tally(index[..n], open)
    {
      var entry := index[n];
      assert index[..n + 1][..n] == index[..n];
      if entry.worldId != open {
        var i := 0;
        while i < |worlds| && worlds[i].world != entry.worldId
          invariant 0 <= i <= |worlds|
          invariant forall j :: 0 <= j < i ==> worlds[j].world != entry.worldId
        {
          i := i + 1;
        }
        CreditAt(worlds, entry, i);
        if i < |worlds| {
          worlds := worlds[i := WorldUse(entry.worldId, worlds[i].bytes + entry.byteSize,
                                         Max(worlds[i].recency, entry.lastReadSeq))];
        } else {
          worlds := worlds + [WorldUse(entry.worldId, entry.byteSize, entry.lastReadSeq)];
        }
      }
    }
    assert index[..|index|] == index;
  }

  /** Release whole worlds off the front of `worlds` until `excess` bytes are gone. */
  method ReleaseColdest(index: seq<IndexEntry>, worlds: seq<WorldUse>, excess: nat)
    returns (evict: seq<ItemId>, toFree: nat, ghost k: nat)
    ensures k <= |worlds|
    ensures evict == ReleasedIds(index, worlds, k)
    ensures toFree == Max(0, excess - UseBytes(worlds, k))
    ensures toFree == 0 || k == |worlds|
    ensures forall j :: 0 <= j < k ==> UseBytes(worlds, j) < excess
  {
    evict, toFree, k := [], excess, 0;
    var i := 0;
    while i < |worlds| && toFree != 0
      invariant 0 <= i <= |worlds| && k == i
      invariant evict == ReleasedIds(index, worlds, i)
      invariant toFree == Max(0, excess - UseBytes(worlds, i))
      invariant forall j :: 0 <= j < i ==> UseBytes(worlds, j) < excess
    {
      evict := evict + WorldIds(index, worlds[i].world);
      toFree := Max(0, toFree - worlds[i].bytes);
      i, k := i + 1, k + 1;
    }
  }

  method PlanEviction(index: seq<IndexEntry>, limit: u64, incoming: u64, open: Uuid) returns (plan: BudgetPlan)
    requires TotalBytes(index) + incoming <= U64_MAX
    ensures IsEvictionPlan(index, limit, incoming, open, plan)
  {
    var inUse := SumBytes(index);
    plan := BudgetPlan(limit, inUse, [], false);
    if inUse + incoming <= limit {
      Assemble(index, limit, incoming, open, plan, 0, 0, 0);
      return;
    }
    var worlds := TallyWorlds(index, open);
    worlds := SortBy(worlds, ColderOrEqual);
    var toFree := SaturatingSub(inUse + incoming, limit);
    var evict, left, k := ReleaseColdest(index, worlds, toFree);
    plan := plan.(evict := evict, insufficient := left > 0);
    Assemble(index, limit, incoming, open, plan, toFree, left, k);
  }

  /** A prefix of the release order that stops exactly when the excess is gone is the plan. */
  lemma Assemble(index: seq<IndexEntry>, limit: u64, incoming: u64, open: Uuid, plan: BudgetPlan,
                 excess: nat, left: nat, k: nat)
    requires TotalBytes(index) + incoming <= U64_MAX
    requires excess == Max(0, TotalBytes(index) + incoming - limit)
    requires k <= |ReleaseOrder(index, open)|
    requires plan == BudgetPlan(limit, TotalBytes(index), ReleasedIds(index, ReleaseOrder(index, open), k), left > 0)
    requires left == Max(0, excess - UseBytes(ReleaseOrder(index, open), k))
    requires left == 0 || k == |ReleaseOrder(index, open)|
    requires forall j :: 0 <= j < k ==> UseBytes(ReleaseOrder(index, open), j) < excess
    ensures IsEvictionPlan(index, limit, incoming, open, plan)
  {
    var order := ReleaseOrder(index, open);
    ReleaseOrderIsTrue(index, open);
    UseGrows(order, k, |order|);
    assert ReleasesPrefix(index, limit, incoming, open, plan, order, k);
  }

  lemma {:induction false} UseGrows(worlds: seq<WorldUse>, j: nat, k: nat)
    requires j <= k <= |worlds|
    ensures UseBytes(worlds, j) <= UseBytes(worlds, k)
  {
    if j < k {
      UseGrows(worlds, j, k - 1);
    }
  }

  function ReleaseOrder(index: seq<IndexEntry>, open: Uuid): seq<WorldUse> {
    SortBy(Tally(index, open), ColderOrEqual)
  }

  lemma ReleaseOrderIsTrue(index: seq<IndexEntry>, open: Uuid)
    ensures ListsWorldsBut(ReleaseOrder(index, open), index, open)
    ensures SortedBy(ReleaseOrder(index, open), ColderOrEqual)
    ensures UseBytes(ReleaseOrder(index, open), |ReleaseOrder(index, open)|) + WorldBytes(index, open) ==
            TotalBytes(index)
  {
    var tally, order := Tally(index, open), ReleaseOrder(index, open);
    TallyLists(index, open);
    SortBySorts(tally, ColderOrEqual);
    MembersFromMultiset(tally, order);
    DistinctFromMultiset(tally, order);
    forall i | 0 <= i < |order| ensures TrueUse(order[i], index) {
      assert order[i] in tally;
    }
    assert Worlds(order) == Worlds(tally);
    TallyBytes(index, open);
    SplitByWorld(index, open);
    UsePermutes(tally, order);
  }

  lemma {:induction false} ChangedUse(s: seq<WorldUse>, t: seq<WorldUse>, i: nat, k: nat)
    requires i < |s| == |t| && t == s[i := t[i]] && k <= |s|
    ensures UseBytes(t, k) == UseBytes(s, k) + if i < k then t[i].bytes - s[i].bytes else 0
  {
    if k > 0 {
      ChangedUse(s, t, i, k - 1);
    }
  }

  lemma {:induction false} SharedUse(s: seq<WorldUse>, t: seq<WorldUse>, k: nat)
    requires k <= |s| && k <= |t| && s[..k] == t[..k]
    ensures UseBytes(s, k) == UseBytes(t, k)
  {
    if k > 0 {
      assert s[..k - 1] == s[..k][..k - 1] && s[k - 1] == s[..k][k - 1];
      assert t[..k - 1] == t[..k][..k - 1] && t[k - 1] == t[..k][k - 1];
      SharedUse(s, t, k - 1);
    }
  }

  lemma CreditBytes(worlds: seq<WorldUse>, e: IndexEntry)
    ensures UseBytes(Credit(worlds, e), |Credit(worlds, e)|) == UseBytes(worlds, |worlds|) + e.byteSize
  {
    var after, i := Credit(worlds, e), Place(worlds, e.worldId);
    CreditAt(worlds, e, i);
    if i < |worlds| {
      ChangedUse(worlds, after, i, |worlds|);
    } else {
      SharedUse(worlds, after, |worlds|);
    }
  }

  lemma {:induction false} AppendedOutside(index: seq<IndexEntry>, e: IndexEntry, w: Uuid)
    ensures TotalBytes(OutsideWorld(index + [e], w)) ==
            TotalBytes(OutsideWorld(index, w)) + if e.worldId != w then e.byteSize else 0
  {
    if index != [] {
      assert (index + [e])[1..] == index[1..] + [e];
      AppendedOutside(index[1..], e, w);
    }
  }

  lemma {:induction false} TallyBytes(index: seq<IndexEntry>, open: Uuid)
    ensures UseBytes(Tally(index, open), |Tally(index, open)|) == TotalBytes(OutsideWorld(index, open))
  {
    if index != [] {
      var before, e := index[..|index| - 1], index[|index| - 1];
      assert index == before + [e];
      TallyBytes(before, open);
      AppendedOutside(before, e, open);
      CreditBytes(Tally(before, open), e);
    }
  }

  lemma {:induction false} UseWithout(worlds: seq<WorldUse>, i: nat, k: nat)
    requires i < k <= |worlds|
    ensures UseBytes(worlds, k) == worlds[i].bytes + UseBytes(Without(worlds, i), k - 1)
  {
    if i == k - 1 {
      SharedUse(worlds, Without(worlds, i), i);
    } else {
      UseWithout(worlds, i, k - 1);
    }
  }

  lemma {:induction false} UsePermutes(s: seq<WorldUse>, t: seq<WorldUse>)
    requires multiset(s) == multiset(t)
    ensures |s| == |t| && UseBytes(s, |s|) == UseBytes(t, |t|)
  {
    MembersFromMultiset(s, t);
    if s != [] {
      var i := PullOut(s, t);
      UsePermutes(s[1..], Without(t, i));
      UseWithout(t, i, |t|);
      UseWithout(s, 0, |s|);
      assert Without(s, 0) == s[1..];
    }
  }

  // ---- What a plan means ----

  function Holding(index: seq<IndexEntry>, gone: set<Uuid>): seq<IndexEntry> {
    if index == [] then []
    else if index[0].worldId in gone then Holding(index[1..], gone)
    else [index[0]] + Holding(index[1..], gone)
  }

  /**
   * A plan releases whole worlds, never the open one. What stays, with the incoming bytes, is
   * within the limit, or nothing but the open world stays.
   */
  ghost predicate ReleasesWorlds(index: seq<IndexEntry>, limit: u64, incoming: u64, open: Uuid, plan: BudgetPlan,
                                 gone: set<Uuid>)
  {
    && open !in gone
    && (forall id :: id in plan.evict <==> exists e :: e in index && e.id == id && e.worldId in gone)
    && (TotalBytes(Holding(index, gone)) + incoming <= limit || gone == RowWorlds(index) - {open})
  }

  lemma PlanReleasesWorlds(index: seq<IndexEntry>, limit: u64, incoming: u64, open: Uuid, plan: BudgetPlan)
    returns (gone: set<Uuid>)
    requires IsEvictionPlan(index, limit, incoming, open, plan)
    ensures ReleasesWorlds(index, limit, incoming, open, plan, gone)
  {
    var order, k :| ReleasesPrefix(index, limit, incoming, open, plan, order, k);
    gone := Worlds(order[..k]);
    assert order[..|order|] == order;
    assert Worlds(order[..k]) <= Worlds(order);
    ReleasedAre(index, order, k);
    PrefixBytes(index, order, k);
  }

  lemma {:induction false} ReleasedAre(index: seq<IndexEntry>, order: seq<WorldUse>, k: nat)
    requires k <= |order|
    ensures forall id :: id in ReleasedIds(index, order, k) <==>
                         exists e :: e in index && e.id == id && e.worldId in Worlds(order[..k])
  {
    if k > 0 {
      var w := order[k - 1].world;
      ReleasedAre(index, order, k - 1);
      WorldIdsAre(index, w);
      assert order[..k] == order[..k - 1] + [order[k - 1]];
      assert Worlds(order[..k]) == Worlds(order[..k - 1]) + {w};
    }
  }

  lemma WorldIdsAre(index: seq<IndexEntry>, w: Uuid)
    ensures forall id :: id in WorldIds(index, w) <==> exists e :: e in index && e.id == id && e.worldId == w
  {
    SortPermutes(Ids(InWorld(index, w)), ItemLe);
    MembersFromMultiset(WorldIds(index, w), Ids(InWorld(index, w)));
    InWorldIds(index, w);
  }

  lemma {:induction false} InWorldIds(index: seq<IndexEntry>, w: Uuid)
    ensures forall id :: id in Ids(InWorld(index, w)) <==> exists e :: e in index && e.id == id && e.worldId == w
  {
    if index != [] {
      InWorldIds(index[1..], w);
      var rest := InWorld(index[1..], w);
      assert ([index[0]] + rest)[1..] == rest;
      assert index == [index[0]] + index[1..];
    }
  }

  lemma {:induction false} PrefixBytes(index: seq<IndexEntry>, order: seq<WorldUse>, k: nat)
    requires k <= |order| && Distinct(order)
    requires forall i :: 0 <= i < |order| ==> TrueUse(order[i], index)
    ensures TotalBytes(index) - UseBytes(order, k) == TotalBytes(Holding(index, Worlds(order[..k])))
  {
    if k == 0 {
      assert Worlds(order[..0]) == {};
      HoldingAll(index);
    } else {
      PrefixBytes(index, order, k - 1);
      var w := order[k - 1].world;
      assert order[..k] == order[..k - 1] + [order[k - 1]];
      assert Worlds(order[..k]) == Worlds(order[..k - 1]) + {w};
      forall i | 0 <= i < k - 1 ensures order[i].world != w {
        assert order[i] != order[k - 1];
      }
      LettingGo(index, Worlds(order[..k - 1]), w);
    }
  }

  lemma {:induction false} HoldingAll(index: seq<IndexEntry>)
    ensures Holding(index, {}) == index
  {
    if index != [] {
      HoldingAll(index[1..]);
    }
  }

  lemma {:induction false} LettingGo(index: seq<IndexEntry>, gone: set<Uuid>, w: Uuid)
    requires w !in gone
    ensures TotalBytes(Holding(index, gone)) == TotalBytes(Holding(index, gone + {w})) + WorldBytes(index, w)
  {
    if index != [] {
      LettingGo(index[1..], gone, w);
      var e, rest := index[0], index[1..];
      assert ([e] + Holding(rest, gone))[1..] == Holding(rest, gone);
      assert ([e] + Holding(rest, gone + {w}))[1..] == Holding(rest, gone + {w});
      assert ([e] + InWorld(rest, w))[1..] == InWorld(rest, w);
    }
  }

  ghost predicate OneRowPerItem(index: seq<IndexEntry>) {
    forall i, j :: 0 <= i < j < |index| ==> index[i].id != index[j].id
  }

  lemma {:induction false} InWorldOnce(index: seq<IndexEntry>, w: Uuid)
    requires OneRowPerItem(index)
    ensures Distinct(Ids(InWorld(index, w)))
  {
    if index != [] {
      InWorldOnce(index[1..], w);
      var e, rest := index[0], InWorld(index[1..], w);
      if e.worldId == w {
        InWorldIds(index[1..], w);
        assert ([e] + rest)[1..] == rest;
        assert e.id !in Ids(rest);
        assert forall i :: 0 <= i < |Ids(rest)| ==> Ids(rest)[i] in Ids(rest);
      }
    }
  }

  lemma {:induction false} ReleasedOnce(index: seq<IndexEntry>, order: seq<WorldUse>, k: nat)
    requires OneRowPerItem(index) && k <= |order|
    requires forall i, j :: 0 <= i < j < |order| ==> order[i].world != order[j].world
    ensures Distinct(ReleasedIds(index, order, k))
  {
    if k > 0 {
      var w := order[k - 1].world;
      var before, more := ReleasedIds(index, order, k - 1), WorldIds(index, w);
      ReleasedOnce(index, order, k - 1);
      InWorldOnce(index, w);
      SortPermutes(Ids(InWorld(index, w)), ItemLe);
      DistinctFromMultiset(Ids(InWorld(index, w)), more);
      ReleasedAre(index, order, k - 1);
      WorldIdsAre(index, w);
      assert w !in Worlds(order[..k - 1]);
      JoinedDistinct(before, more);
    }
  }

  /** With one row per item, a plan names each item it releases once. */
  lemma PlanNamesOnce(index: seq<IndexEntry>, limit: u64, incoming: u64, open: Uuid, plan: BudgetPlan)
    requires IsEvictionPlan(index, limit, incoming, open, plan) && OneRowPerItem(index)
    ensures Distinct(plan.evict)
  {
    var order, k :| ReleasesPrefix(index, limit, incoming, open, plan, order, k);
    assert forall i, j :: 0 <= i < j < |order| ==>
             order[i] != order[j] && TrueUse(order[i], index) && TrueUse(order[j], index);
    ReleasedOnce(index, order, k);
  }

  lemma {:induction false} InWorldIsHolding(index: seq<IndexEntry>, w: Uuid, others: set<Uuid>)
    requires w !in others && forall e :: e in index ==> e.worldId == w || e.worldId in others
    ensures InWorld(index, w) == Holding(index, others)
  {
    if index != [] {
      InWorldIsHolding(index[1..], w, others);
    }
  }

  // ---- The plan does not depend on the order rows are listed in ----

  lemma {:induction false} TotalWithout(index: seq<IndexEntry>, i: nat)
    requires i < |index|
    ensures TotalBytes(index) == index[i].byteSize + TotalBytes(Without(index, i))
  {
    var rest := Without(index, i);
    if i == 0 {
      assert rest == index[1..];
    } else {
      TotalWithout(index[1..], i - 1);
      assert rest[0] == index[0] && rest[1..] == Without(index[1..], i - 1);
    }
  }

  lemma {:induction false} NewestWithout(index: seq<IndexEntry>, i: nat)
    requires i < |index|
    ensures Newest(index) == Max(index[i].lastReadSeq, Newest(Without(index, i)))
  {
    var rest := Without(index, i);
    if i == 0 {
      assert rest == index[1..];
    } else {
      NewestWithout(index[1..], i - 1);
      assert rest[0] == index[0] && rest[1..] == Without(index[1..], i - 1);
    }
  }

  lemma {:induction false} IdsWithout(index: seq<IndexEntry>, i: nat)
    requires i < |index|
    ensures multiset(Ids(index)) == multiset{index[i].id} + multiset(Ids(Without(index, i)))
  {
    var rest := Without(index, i);
    if i == 0 {
      assert rest == index[1..];
    } else {
      IdsWithout(index[1..], i - 1);
      assert rest[0] == index[0] && rest[1..] == Without(index[1..], i - 1);
    }
  }

  lemma {:induction false} TotalsPermute(a: seq<IndexEntry>, b: seq<IndexEntry>)
    requires multiset(a) == multiset(b)
    ensures TotalBytes(a) == TotalBytes(b)
    ensures Newest(a) == Newest(b)
    ensures multiset(Ids(a)) == multiset(Ids(b))
  {
    if a == [] {
      MembersFromMultiset(a, b);
    } else {
      var i := PullOut(a, b);
      TotalsPermute(a[1..], Without(b, i));
      TotalWithout(b, i);
      NewestWithout(b, i);
      IdsWithout(b, i);
    }
  }

  lemma {:induction false} InWorldCounts(index: seq<IndexEntry>, w: Uuid, e: IndexEntry)
    ensures multiset(InWorld(index, w))[e] == if e.worldId == w then multiset(index)[e] else 0
  {
    if index != [] {
      InWorldCounts(index[1..], w, e);
      assert index == [index[0]] + index[1..];
    }
  }

  lemma WorldsPermute(a: seq<IndexEntry>, b: seq<IndexEntry>, w: Uuid)
    requires multiset(a) == multiset(b)
    ensures WorldBytes(a, w) == WorldBytes(b, w)
    ensures WorldRecency(a, w) == WorldRecency(b, w)
    ensures WorldIds(a, w) == WorldIds(b, w)
  {
    forall e ensures multiset(InWorld(a, w))[e] == multiset(InWorld(b, w))[e] {
      InWorldCounts(a, w, e);
      InWorldCounts(b, w, e);
    }
    TotalsPermute(InWorld(a, w), InWorld(b, w));
    ItemOrder();
    SortForgetsOrder(Ids(InWorld(a, w)), Ids(InWorld(b, w)), ItemLe);
  }

  lemma OrdersAgree(a: seq<IndexEntry>, b: seq<IndexEntry>, open: Uuid, s: seq<WorldUse>, t: seq<WorldUse>)
    requires multiset(a) == multiset(b)
    requires ListsWorldsBut(s, a, open) && SortedBy(s, ColderOrEqual)
    requires ListsWorldsBut(t, b, open) && SortedBy(t, ColderOrEqual)
    ensures s == t
  {
    MembersFromMultiset(a, b);
    assert RowWorlds(a) == RowWorlds(b);
    SameUses(a, b, s, t);
    SameUses(b, a, t, s);
    MultisetOfDistinct(s, t);
    SortedUnique(s, t, ColderOrEqual);
  }

  lemma SameUses(a: seq<IndexEntry>, b: seq<IndexEntry>, s: seq<WorldUse>, t: seq<WorldUse>)
    requires multiset(a) == multiset(b) && Worlds(s) == Worlds(t)
    requires forall i :: 0 <= i < |s| ==> TrueUse(s[i], a)
    requires forall i :: 0 <= i < |t| ==> TrueUse(t[i], b)
    ensures forall u :: u in s ==> u in t
    ensures NoTies(s, ColderOrEqual)
  {
    forall u | u in s ensures u in t {
      assert u.world in Worlds(t);
      var v :| v in t && v.world == u.world;
      WorldsPermute(a, b, u.world);
    }
  }

  lemma {:induction false} ReleasedPermute(a: seq<IndexEntry>, b: seq<IndexEntry>, order: seq<WorldUse>, k: nat)
    requires multiset(a) == multiset(b) && k <= |order|
    ensures ReleasedIds(a, order, k) == ReleasedIds(b, order, k)
  {
    if k > 0 {
      ReleasedPermute(a, b, order, k - 1);
      WorldsPermute(a, b, order[k - 1].world);
    }
  }

  /** Two listings of the same rows have one plan between them. */
  lemma PlanIgnoresRowOrder(a: seq<IndexEntry>, b: seq<IndexEntry>, limit: u64, incoming: u64, open: Uuid,
                            p: BudgetPlan, q: BudgetPlan)
    requires multiset(a) == multiset(b)
    requires IsEvictionPlan(a, limit, incoming, open, p) && IsEvictionPlan(b, limit, incoming, open, q)
    ensures p == q
  {
    var s, j :| ReleasesPrefix(a, limit, incoming, open, p, s, j);
    var t, k :| ReleasesPrefix(b, limit, incoming, open, q, t, k);
    TotalsPermute(a, b);
    WorldsPermute(a, b, open);
    OrdersAgree(a, b, open, s, t);
    assert j == k;
    ReleasedPermute(a, b, s, k);
  }

  lemma PlanHoldsForAnyOrder(a: seq<IndexEntry>, b: seq<IndexEntry>, limit: u64, incoming: u64, open: Uuid,
                             p: BudgetPlan)
    requires multiset(a) == multiset(b) && IsEvictionPlan(a, limit, incoming, open, p)
    ensures IsEvictionPlan(b, limit, incoming, open, p)
  {
    var order, k :| ReleasesPrefix(a, limit, incoming, open, p, order, k);
    TotalsPermute(a, b);
    WorldsPermute(a, b, open);
    MembersFromMultiset(a, b);
    ReleaseOrderIsTrue(b, open);
    OrdersAgree(a, b, open, order, ReleaseOrder(b, open));
    ReleasedPermute(a, b, order, k);
    assert ReleasesPrefix(b, limit, incoming, open, p, order, k);
  }

  // ---- Speculation ----

  datatype Speculation = Admit | Stop

  /** Admits exactly what fits beside what is already there, overflow included. */
  function AdmitSpeculative(inUse: u64, limit: u64, incoming: u64): (r: Speculation)
    ensures r == Admit <==> inUse + incoming <= limit
    ensures r == Admit ==> incoming <= SpeculativeHeadroom(inUse, limit)
    ensures r == Stop && inUse <= limit ==> incoming > SpeculativeHeadroom(inUse, limit)
  {
    if inUse + incoming > U64_MAX then Stop
    else if inUse + incoming <= limit then Admit
    else Stop
  }

  function SpeculativeHeadroom(inUse: u64, limit: u64): u64 {
    SaturatingSub(limit, inUse)
  }
}
