/** The vocabulary every part of the cache shares. */
module Items {
  import opened Sorting

  datatype Option<+T> = None | Some(value: T)

  datatype Result<+T, +E> = Ok(value: T) | Err(error: E)

  const U64_MAX: nat := 0xFFFF_FFFF_FFFF_FFFF

  type u64 = x: int | 0 <= x <= U64_MAX

  /** A uuid, compared as the 128-bit number it is. */
  type Uuid = nat

  function SaturatingAdd(a: u64, b: u64): u64 {
    if a + b <= U64_MAX then a + b else U64_MAX
  }

  function SaturatingSub(a: u64, b: u64): u64 {
    if b <= a then a - b else 0
  }

  function Max(a: int, b: int): int { if a < b then b else a }

  function Min(a: int, b: int): int { if a < b then a else b }

  /** One cacheable thing. The derived order puts scenes before assets. */
  datatype ItemId = SceneState(uuid: Uuid) | CanvasAsset(uuid: Uuid)

  predicate ItemLe(a: ItemId, b: ItemId) {
    match (a, b)
    case (SceneState(_), CanvasAsset(_)) => true
    case (CanvasAsset(_), SceneState(_)) => false
    case _ => a.uuid <= b.uuid
  }

  lemma ItemOrder()
    ensures Comparable(ItemLe)
    ensures forall s: seq<ItemId> :: NoTies(s, ItemLe)
  {
  }

  ghost predicate Distinct<T>(s: seq<T>) {
    forall i, j :: 0 <= i < j < |s| ==> s[i] != s[j]
  }

  /** `s` names every key of `m` exactly once. */
  ghost predicate Lists<K(!new), V>(s: seq<K>, m: map<K, V>) {
    && Distinct(s)
    && (forall k :: k in s <==> k in m)
  }

  /** The keys of a map in some order, each once. */
  method ListKeys<K(==, !new), V>(m: map<K, V>) returns (keys: seq<K>)
    ensures Lists(keys, m)
  {
    keys := [];
    var rest := m.Keys;
    while rest != {}
      invariant rest <= m.Keys
      invariant Distinct(keys)
      invariant forall k :: k in keys <==> k in m.Keys - rest
      decreases |rest|
    {
      var k :| k in rest;
      assert k !in keys;
      keys := keys + [k];
      rest := rest - {k};
    }
  }

  /** The keys of an ordered map, smallest first. */
  method SortedKeys<V>(m: map<ItemId, V>) returns (keys: seq<ItemId>)
    ensures Lists(keys, m)
    ensures SortedBy(keys, ItemLe)
  {
    var some := ListKeys(m);
    keys := SortBy(some, ItemLe);
    ItemOrder();
    SortBySorts(some, ItemLe);
    MembersFromMultiset(some, keys);
    DistinctFromMultiset(some, keys);
  }

  lemma PushedDistinct<T>(s: seq<T>, x: T)
    requires Distinct(s) && x !in s
    ensures Distinct(s + [x])
  {
    assert forall i :: 0 <= i < |s| ==> s[i] in s;
  }

  lemma JoinedDistinct<T(!new)>(s: seq<T>, t: seq<T>)
    requires Distinct(s) && Distinct(t)
    requires forall x :: x in t ==> x !in s
    ensures Distinct(s + t)
  {
    assert forall i :: 0 <= i < |s| ==> s[i] in s;
    assert forall i :: 0 <= i < |t| ==> t[i] in t;
  }

  lemma EmptyHasNoMembers<T(!new)>(s: seq<T>)
    ensures s == [] <==> forall x :: x !in s
  {
    if s != [] {
      assert s[0] in s;
    }
  }

  lemma OncePerDistinct<T>(s: seq<T>, x: T)
    requires Distinct(s)
    ensures multiset(s)[x] <= 1
  {
    if s != [] {
      assert s == [s[0]] + s[1..];
      OncePerDistinct(s[1..], x);
    }
  }

  lemma DistinctFromMultiset<T>(s: seq<T>, t: seq<T>)
    requires Distinct(s)
    requires multiset(s) == multiset(t)
    ensures Distinct(t)
  {
    forall i, j | 0 <= i < j < |t| ensures t[i] != t[j] {
      OncePerDistinct(s, t[j]);
      assert t == t[..j] + [t[j]] + t[j + 1..];
      assert t[j] !in multiset(t[..j]);
      assert t[i] == t[..j][i];
    }
  }

  lemma MultisetOfDistinct<T(!new)>(s: seq<T>, t: seq<T>)
    requires Distinct(s)
    requires Distinct(t)
    requires forall x :: x in s <==> x in t
    ensures multiset(s) == multiset(t)
  {
    forall x ensures multiset(s)[x] == multiset(t)[x] {
      OncePerDistinct(s, x);
      OncePerDistinct(t, x);
      assert x in s <==> x in multiset(s);
      assert x in t <==> x in multiset(t);
    }
  }

  lemma {:induction false} SubsetSize<T>(x: set<T>, y: set<T>)
    requires x <= y
    ensures |x| <= |y|
  {
    if x != {} {
      var a :| a in x;
      SubsetSize(x - {a}, y - {a});
    }
  }

  function Members<T>(s: seq<T>): set<T> { set x | x in s }
}
