/** The plan that brings a client's copy up to date, and what following it achieves. */
module Delta {
  import opened Items
  import opened Sorting
  import opened Fingerprints

  datatype PlanItem = PlanItem(id: ItemId, fingerprint: Fingerprint, byteSize: u64)

  datatype SyncPlan = SyncPlan(fetch: seq<PlanItem>, evict: seq<ItemId>)

  datatype CurrentItem = CurrentItem(fingerprint: Option<Fingerprint>, byteSize: u64)

  datatype HeldItem = HeldItem(id: ItemId, fingerprint: Fingerprint)

  type Manifest = map<ItemId, Fingerprint>

  type Catalogue = map<ItemId, CurrentItem>

  /** A client's claims by item; a later claim about an item replaces an earlier one. */
  function Claims(held: seq<HeldItem>): Manifest {
    if held == [] then map[]
    else
      var last := held[|held| - 1];
      Claims(held[..|held| - 1])[last.id := last.fingerprint]
  }

  /** The client does not demonstrably hold what the server has. */
  predicate Needs(held: Manifest, current: Catalogue, id: ItemId) {
    id in current && (current[id].fingerprint == None || id !in held || current[id].fingerprint != Some(held[id]))
  }

  function Wanted(current: Catalogue, id: ItemId, emptyDigest: Fingerprint): PlanItem
    requires id in current
  {
    var fp := if current[id].fingerprint == None then emptyDigest else current[id].fingerprint.value;
    PlanItem(id, fp, current[id].byteSize)
  }

  function Wants(held: Manifest, current: Catalogue): set<ItemId> {
    set id | id in current && Needs(held, current, id)
  }

  function FetchIds(fetch: seq<PlanItem>): set<ItemId> { set x | x in fetch :: x.id }

  ghost predicate InIdOrder(fetch: seq<PlanItem>) {
    forall i, j :: 0 <= i < j < |fetch| ==> fetch[i].id != fetch[j].id && ItemLe(fetch[i].id, fetch[j].id)
  }

  ghost predicate AsOffered(fetch: seq<PlanItem>, current: Catalogue, emptyDigest: Fingerprint) {
    forall x :: x in fetch ==> x.id in current && x == Wanted(current, x.id, emptyDigest)
  }

  /** Evict what the server no longer offers, fetch what the client cannot show it holds; nothing else. */
  ghost predicate IsSyncPlan(held: Manifest, current: Catalogue, emptyDigest: Fingerprint, plan: SyncPlan) {
    && Distinct(plan.evict) && SortedBy(plan.evict, ItemLe)
    && (forall id :: id in plan.evict <==> id in held && id !in current)
    && InIdOrder(plan.fetch)
    && FetchIds(plan.fetch) == Wants(held, current)
    && AsOffered(plan.fetch, current, emptyDigest)
  }

  method CollectClaims(held: seq<HeldItem>) returns (heldById: Manifest)
    ensures heldById == Claims(held)
  {
    heldById := map[];
    for n := 0 to |held|
      invariant heldById == Claims(held[..n])
    {
      assert held[..n + 1][..n] == held[..n];
      heldById := heldById[held[n].id := held[n].fingerprint];
    }
    assert held[..|held|] == held;
  }

  method PlanEvictions(held: Manifest, current: Catalogue) returns (evict: seq<ItemId>)
    ensures Distinct(evict) && SortedBy(evict, ItemLe)
    ensures forall id :: id in evict <==> id in held && id !in current
  {
    evict := [];
    var ids := SortedKeys(held);
    for n := 0 to |ids|
      invariant Distinct(evict) && SortedBy(evict, ItemLe)
      invariant forall id :: id in evict <==> id in ids[..n] && id !in current
    {
      var id := ids[n];
      assert ids[..n + 1] == ids[..n] + [id];
      if id !in current {
        assert forall x :: x in ids[..n] ==> x != id && ItemLe(x, id);
        assert forall i :: 0 <= i < |evict| ==> evict[i] in evict;
        evict := evict + [id];
      }
    }
    assert ids[..|ids|] == ids;
  }

  function WantsAmong(held: Manifest, current: Catalogue, ids: seq<ItemId>): set<ItemId> {
    set id | id in ids && Needs(held, current, id)
  }

  lemma PassedOver(held: Manifest, current: Catalogue, ids: seq<ItemId>, n: nat)
    requires n < |ids|
    ensures WantsAmong(held, current, ids[..n + 1]) ==
            WantsAmong(held, current, ids[..n]) + if Needs(held, current, ids[n]) then {ids[n]} else {}
  {
    assert ids[..n + 1] == ids[..n] + [ids[n]];
  }

  lemma Behind(fetch: seq<PlanItem>, ids: seq<ItemId>, n: nat)
    requires n < |ids| && Distinct(ids) && SortedBy(ids, ItemLe)
    requires forall id :: id in FetchIds(fetch) ==> id in ids[..n]
    ensures forall y :: y in fetch ==> y.id != ids[n] && ItemLe(y.id, ids[n])
  {
    forall y | y in fetch ensures y.id != ids[n] && ItemLe(y.id, ids[n]) {
      assert y.id in FetchIds(fetch);
    }
  }

  lemma Queue(fetch: seq<PlanItem>, x: PlanItem)
    requires InIdOrder(fetch)
    requires forall y :: y in fetch ==> y.id != x.id && ItemLe(y.id, x.id)
    ensures InIdOrder(fetch + [x])
    ensures FetchIds(fetch + [x]) == FetchIds(fetch) + {x.id}
  {
    assert x in fetch + [x];
  }

  method PlanFetches(held: Manifest, current: Catalogue, emptyDigest: Fingerprint) returns (fetch: seq<PlanItem>)
    ensures InIdOrder(fetch)
    ensures FetchIds(fetch) == Wants(held, current)
    ensures AsOffered(fetch, current, emptyDigest)
  {
    fetch := [];
    var ids := SortedKeys(current);
    for n := 0 to |ids|
      invariant InIdOrder(fetch)
      invariant FetchIds(fetch) == WantsAmong(held, current, ids[..n])
      invariant AsOffered(fetch, current, emptyDigest)
    {
      var id := ids[n];
      PassedOver(held, current, ids, n);
      Behind(fetch, ids, n);
      match current[id].fingerprint {
        case None =>
          Queue(fetch, PlanItem(id, emptyDigest, current[id].byteSize));
          fetch := fetch + [PlanItem(id, emptyDigest, current[id].byteSize)];
        case Some(serverFp) =>
          if id in held && held[id] == serverFp {
          } else {
            Queue(fetch, PlanItem(id, serverFp, current[id].byteSize));
            fetch := fetch + [PlanItem(id, serverFp, current[id].byteSize)];
          }
      }
    }
    assert ids[..|ids|] == ids;
  }

  method ComputePlan(held: seq<HeldItem>, current: Catalogue, emptyDigest: Fingerprint) returns (plan: SyncPlan)
    ensures IsSyncPlan(Claims(held), current, emptyDigest, plan)
  {
    var heldById := CollectClaims(held);
    var evict := PlanEvictions(heldById, current);
    var fetch := PlanFetches(heldById, current, emptyDigest);
    plan := SyncPlan(fetch, evict);
  }

  // ---- What a plan does for the client that follows it ----

  /** The bytes obtained for each item fetched. An item that could not be fetched is not among them. */
  type Served = map<ItemId, seq<bv8>>

  /** The store takes bytes only under the name they hash to. */
  predicate Stores(x: PlanItem, served: Served, hash: Hash) {
    x.id in served && Verify(hash, served[x.id], x.fingerprint).Ok?
  }

  function StoredItems(fetch: seq<PlanItem>, served: Served, hash: Hash): Manifest {
    if fetch == [] then map[]
    else
      (if Stores(fetch[0], served, hash) then map[fetch[0].id := fetch[0].fingerprint] else map[]) +
      StoredItems(fetch[1..], served, hash)
  }

  /** What the client holds once it has dropped `evict` and stored what it could of `fetch`. */
  function Followed(held: Manifest, plan: SyncPlan, served: Served, hash: Hash): Manifest {
    (held - set id | id in plan.evict) + StoredItems(plan.fetch, served, hash)
  }

  lemma {:induction false} StoredKeys(fetch: seq<PlanItem>, served: Served, hash: Hash)
    ensures forall id :: id in StoredItems(fetch, served, hash) ==> id in FetchIds(fetch)
  {
    if fetch != [] {
      StoredKeys(fetch[1..], served, hash);
      assert fetch == [fetch[0]] + fetch[1..];
    }
  }

  lemma {:induction false} StoredItemsAre(fetch: seq<PlanItem>, i: nat, served: Served, hash: Hash)
    requires InIdOrder(fetch) && i < |fetch|
    ensures var stored, x := StoredItems(fetch, served, hash), fetch[i];
            if Stores(x, served, hash) then x.id in stored && stored[x.id] == x.fingerprint else x.id !in stored
  {
    StoredKeys(fetch[1..], served, hash);
    if i > 0 {
      assert InIdOrder(fetch[1..]);
      StoredItemsAre(fetch[1..], i - 1, served, hash);
    } else {
      forall y | y in fetch[1..] ensures y.id != fetch[0].id {
        var j :| 0 <= j < |fetch[1..]| && fetch[1..][j] == y;
        assert fetch[j + 1] == y;
      }
    }
  }

  /** No item is both fetched and evicted, and silence about a held item means it is current. */
  lemma SilenceMeansCurrent(held: Manifest, current: Catalogue, emptyDigest: Fingerprint, plan: SyncPlan, id: ItemId)
    requires IsSyncPlan(held, current, emptyDigest, plan)
    ensures !(id in plan.evict && id in FetchIds(plan.fetch))
    ensures id in held && id !in plan.evict && id !in FetchIds(plan.fetch)
            ==> id in current && current[id].fingerprint == Some(held[id])
  {
    assert id in FetchIds(plan.fetch) <==> id in Wants(held, current);
  }

  /** A client and a server agree on one plan, whatever order the client listed its items in. */
  lemma PlanIsUnique(held: Manifest, current: Catalogue, emptyDigest: Fingerprint, p: SyncPlan, q: SyncPlan)
    requires IsSyncPlan(held, current, emptyDigest, p) && IsSyncPlan(held, current, emptyDigest, q)
    ensures p == q
  {
    ItemOrder();
    MultisetOfDistinct(p.evict, q.evict);
    SortedUnique(p.evict, q.evict, ItemLe);
    var le := (a: PlanItem, b: PlanItem) => ItemLe(a.id, b.id);
    forall x ensures x in p.fetch <==> x in q.fetch {
      SameItem(held, current, emptyDigest, p, q, x);
      SameItem(held, current, emptyDigest, q, p, x);
    }
    MultisetOfDistinct(p.fetch, q.fetch);
    assert NoTies(p.fetch, le);
    SortedUnique(p.fetch, q.fetch, le);
  }

  lemma SameItem(held: Manifest, current: Catalogue, emptyDigest: Fingerprint, p: SyncPlan, q: SyncPlan, x: PlanItem)
    requires IsSyncPlan(held, current, emptyDigest, p) && IsSyncPlan(held, current, emptyDigest, q)
    ensures x in p.fetch ==> x in q.fetch
  {
    if x in p.fetch {
      assert x.id in FetchIds(q.fetch);
      var y :| y in q.fetch && y.id == x.id;
    }
  }

  ghost predicate FullyFingerprinted(current: Catalogue) {
    forall id :: id in current ==> current[id].fingerprint != None
  }

  function Authorised(current: Catalogue): Manifest {
    map id | id in current && current[id].fingerprint != None :: current[id].fingerprint.value
  }

  function Unfingerprinted(current: Catalogue): set<ItemId> {
    set id | id in current && current[id].fingerprint == None
  }

  /** The server's bytes are those its fingerprints name. */
  ghost predicate Honest(served: Served, current: Catalogue, hash: Hash) {
    forall id :: id in Authorised(current) ==> id in served && hash(served[id]) == Authorised(current)[id]
  }

  lemma FollowerHolds(held: Manifest, current: Catalogue, emptyDigest: Fingerprint, plan: SyncPlan, served: Served,
                      hash: Hash, id: ItemId)
    requires IsSyncPlan(held, current, emptyDigest, plan) && Honest(served, current, hash)
    ensures var after := Followed(held, plan, served, hash);
            if id !in current then id !in after
            else if id in Authorised(current) then id in after && after[id] == Authorised(current)[id]
            else if id in served && hash(served[id]) == emptyDigest then id in after && after[id] == emptyDigest
            else (id in after <==> id in held) && (id in held ==> after[id] == held[id])
  {
    StoredKeys(plan.fetch, served, hash);
    SilenceMeansCurrent(held, current, emptyDigest, plan, id);
    assert id in FetchIds(plan.fetch) <==> id in Wants(held, current);
    if id in FetchIds(plan.fetch) {
      var x :| x in plan.fetch && x.id == id;
      var i :| 0 <= i < |plan.fetch| && plan.fetch[i] == x;
      StoredItemsAre(plan.fetch, i, served, hash);
    }
  }

  lemma SilentPlan(held: Manifest, current: Catalogue, emptyDigest: Fingerprint, plan: SyncPlan)
    requires IsSyncPlan(held, current, emptyDigest, plan)
    ensures plan == SyncPlan([], []) <==> Wants(held, current) == {} && held.Keys <= current.Keys
  {
    EmptyHasNoMembers(plan.evict);
    if plan.fetch != [] {
      assert plan.fetch[0].id in FetchIds(plan.fetch);
    }
  }

  /**
   * A client that follows its plan holds exactly the fingerprinted part of what it may, and of the rest
   * only what it held before, unless the bytes served hash to the empty digest the plan named. Its next
   * plan evicts nothing and fetches exactly the unfingerprinted items, so it is silent exactly when the
   * server has fingerprinted everything.
   */
  lemma FollowingConverges(held: Manifest, current: Catalogue, emptyDigest: Fingerprint, plan: SyncPlan,
                           served: Served, hash: Hash, next: SyncPlan)
    requires IsSyncPlan(held, current, emptyDigest, plan) && Honest(served, current, hash)
    requires IsSyncPlan(Followed(held, plan, served, hash), current, emptyDigest, next)
    ensures var after := Followed(held, plan, served, hash);
            && (forall id :: id in Authorised(current) ==> id in after && after[id] == Authorised(current)[id])
            && (forall id :: id in Unfingerprinted(current) ==>
                  (id in after <==> id in held || (id in served && hash(served[id]) == emptyDigest)))
            && after.Keys <= current.Keys
    ensures next.evict == [] && FetchIds(next.fetch) == Unfingerprinted(current)
    ensures next == SyncPlan([], []) <==> FullyFingerprinted(current)
    ensures FullyFingerprinted(current) ==> Followed(held, plan, served, hash) == Authorised(current)
  {
    var after := Followed(held, plan, served, hash);
    forall id
      ensures id in after ==> id in current
      ensures id in Authorised(current) ==> id in after && after[id] == Authorised(current)[id]
      ensures id in Unfingerprinted(current) ==>
                (id in after <==> id in held || (id in served && hash(served[id]) == emptyDigest))
    {
      FollowerHolds(held, current, emptyDigest, plan, served, hash, id);
    }
    EmptyHasNoMembers(next.evict);
    assert Wants(after, current) == Unfingerprinted(current) by {
      forall id | id in current ensures Needs(after, current, id) <==> current[id].fingerprint == None {
        assert id in Authorised(current) <==> current[id].fingerprint != None;
      }
    }
    SilentPlan(after, current, emptyDigest, next);
    if !FullyFingerprinted(current) {
      var id :| id in current && current[id].fingerprint == None;
      assert id in Unfingerprinted(current);
    }
  }
}
