/** The contract the service code relies on from its Spring Data
    repositories: an in-memory map from an entity's natural key to the entity
    and its optimistic-locking version. */
module VersionedStore {
  import opened Outcomes
  import opened SortedSets

  /** An entity as held by the store, with the version the store assigned. */
  datatype Stored<V> = Stored(value: V, version: nat)

  type Store<K, V> = map<K, Stored<V>>

  datatype StoreError =
    | DuplicateKey     // the natural key of a new entity is already taken
    | OptimisticLock   // an update carried a version that is not the stored one

  /** The store after a successful save, and the entity as saved. */
  datatype Saved<K, V> = Saved(store: Store<K, V>, entity: Stored<V>)

  /** `repository.save(entity)`. A new entity (`readVersion == None`, the
      version field is still null) is inserted at version 0 unless its key is
      taken. An entity read earlier at `readVersion` replaces the stored one
      only if that is still the stored version, and the version goes up by one. */
  function Save<K, V>(s: Store<K, V>, key: K, value: V, readVersion: Option<nat>): (r: Result<Saved<K, V>, StoreError>)
    ensures r.Success? ==> r.value.store == s[key := r.value.entity] && r.value.entity.value == value
    ensures readVersion.None? ==> (r.Success? <==> key !in s)
    ensures readVersion.None? && r.Success? ==> r.value.entity.version == 0
    ensures readVersion.None? && r.Failure? ==> r.error == DuplicateKey
    ensures readVersion.Some? ==> (r.Success? <==> key in s && s[key].version == readVersion.value)
    ensures readVersion.Some? && r.Success? ==> r.value.entity.version == s[key].version + 1
    ensures readVersion.Some? && r.Failure? ==> r.error == OptimisticLock
  {
    match readVersion
    case None =>
      if key in s then Failure(DuplicateKey)
      else
        var e := Stored(value, 0);
        Success(Saved(s[key := e], e))
    case Some(v) =>
      if key in s && s[key].version == v then
        var e := Stored(value, v + 1);
        Success(Saved(s[key := e], e))
      else Failure(OptimisticLock)
  }

  function Find<K, V>(s: Store<K, V>, key: K): (r: Option<Stored<V>>)
    ensures r.Some? <==> key in s
    ensures r.Some? ==> r.value == s[key]
  {
    if key in s then Some(s[key]) else None
  }

  /** `repository.delete`: removes the key; deleting an absent key changes nothing. */
  function Delete<K(!new), V>(s: Store<K, V>, key: K): (r: Store<K, V>)
    ensures key !in r
    ensures forall k :: k in r <==> k in s && k != key
    ensures forall k :: k in r ==> r[k] == s[k]
    ensures key !in s ==> r == s
  {
    s - {key}
  }

  /** Key of a store whose entities are identified by a product id and a
      second id: (productId, recommendationId) or (productId, reviewId). */
  datatype PairKey = PairKey(productId: int, subId: int)

  function SubIds<V>(s: Store<PairKey, V>, productId: int): (ids: set<int>)
    ensures forall id :: id in ids <==> PairKey(productId, id) in s
  {
    set k | k in s && k.productId == productId :: k.subId
  }

  /** The keys of the entities of one product, by ascending second id. */
  function KeysOf<V>(s: Store<PairKey, V>, productId: int): (ks: seq<PairKey>)
    ensures forall k :: k in ks <==> k in s && k.productId == productId
    ensures forall i, j :: 0 <= i < j < |ks| ==> ks[i].subId < ks[j].subId
  {
    var ids := SortedElements(SubIds(s, productId));
    var ks := seq(|ids|, i requires 0 <= i < |ids| => PairKey(productId, ids[i]));
    forall k | k in s && k.productId == productId
      ensures k in ks
    {
      var i :| 0 <= i < |ids| && ids[i] == k.subId;
      assert ks[i] == k;
    }
    ks
  }

  /** `findByProductId` on a pair-keyed store: every entity of the product,
      each once, ordered by its second id. */
  function FindByProductId<V>(s: Store<PairKey, V>, productId: int): (r: seq<Stored<V>>)
    ensures |r| == |KeysOf(s, productId)|
    ensures forall i :: 0 <= i < |r| ==> KeysOf(s, productId)[i] in s && r[i] == s[KeysOf(s, productId)[i]]
  {
    var ks := KeysOf(s, productId);
    seq(|ks|, i requires 0 <= i < |ks| => s[ks[i]])
  }

  /** `deleteAll(findByProductId(p))`: removes every entity of the product. */
  function DeleteByProductId<V>(s: Store<PairKey, V>, productId: int): (r: Store<PairKey, V>)
    ensures forall k :: k in r <==> k in s && k.productId != productId
    ensures forall k :: k in r ==> r[k] == s[k]
  {
    map k | k in s && k.productId != productId :: s[k]
  }

  /** One page of an int-keyed store sorted ascending by key. */
  datatype Page<V> = Page(content: seq<Stored<V>>, hasNext: bool)

  /** A contiguous part of an ascending sequence is ascending. */
  lemma SliceIncreasing(xs: seq<int>, lo: nat, hi: nat)
    requires StrictlyIncreasing(xs)
    requires lo <= hi <= |xs|
    ensures StrictlyIncreasing(xs[lo..hi])
  {
    forall i, j | 0 <= i < j < hi - lo
      ensures xs[lo..hi][i] < xs[lo..hi][j]
    {
      assert xs[lo..hi][i] == xs[lo + i];
      assert xs[lo..hi][j] == xs[lo + j];
    }
  }

  /** The items at positions `start` up to `start + size` of `all`. */
  function Window(all: seq<int>, start: nat, size: nat): (w: seq<int>)
    requires StrictlyIncreasing(all)
    ensures |w| == if start >= |all| then 0 else if start + size <= |all| then size else |all| - start
    ensures StrictlyIncreasing(w)
    ensures forall i :: 0 <= i < |w| ==> start + i < |all| && w[i] == all[start + i]
  {
    if start >= |all| then []
    else
      var end := if start + size <= |all| then start + size else |all|;
      SliceIncreasing(all, start, end);
      all[start..end]
  }

  /** The keys on page `page` of pages of `size`, in ascending order: those at
      positions `page * size` up to `page * size + size` of the sorted keys. */
  function PageKeys<V>(s: Store<int, V>, page: nat, size: nat): (ks: seq<int>)
    requires size >= 1
    ensures |ks| == if Offset(page, size) >= |s| then 0
                    else if Offset(page, size) + size <= |s| then size
                    else |s| - Offset(page, size)
    ensures StrictlyIncreasing(ks)
    ensures forall k :: k in ks ==> k in s
    ensures forall i :: 0 <= i < |ks| ==>
      Offset(page, size) + i < |SortedElements(s.Keys)| && ks[i] == SortedElements(s.Keys)[Offset(page, size) + i]
  {
    assert |s.Keys| == |s|;
    Window(SortedElements(s.Keys), Offset(page, size), size)
  }

  /** `findAll(PageRequest.of(page, size, ASC, key))`: the entities under the
      page's keys, and whether items remain after this page. */
  function FindAllPage<V>(s: Store<int, V>, page: nat, size: nat): (r: Page<V>)
    requires size >= 1
    ensures |r.content| == |PageKeys(s, page, size)|
    ensures forall i :: 0 <= i < |r.content| ==> r.content[i] == s[PageKeys(s, page, size)[i]]
    ensures r.hasNext <==> |PageKeys(s, page + 1, size)| > 0
  {
    var ks := PageKeys(s, page, size);
    Page(seq(|ks|, i requires 0 <= i < |ks| => s[ks[i]]), Offset(page + 1, size) < |s|)
  }

  /** Position of the first item of a page: the sizes of the pages before it added up. */
  function Offset(page: nat, size: nat): nat {
    if page == 0 then 0 else Offset(page - 1, size) + size
  }

  /** The offset is `page * size`, as a page request computes it. */
  lemma {:induction false} OffsetIsProduct(page: nat, size: nat)
    ensures Offset(page, size) == page * size
  {
    if page > 0 {
      OffsetIsProduct(page - 1, size);
    }
  }

  lemma {:induction false} OffsetStep(a: nat, b: nat, size: nat)
    requires a < b
    ensures Offset(a, size) + size <= Offset(b, size)
    decreases b
  {
    if a < b - 1 {
      OffsetStep(a, b - 1, size);
    }
  }

  /** Pages come in key order: every key of an earlier page is smaller than
      every key of a later page, so no key appears on two pages. */
  lemma PagesAscend<V>(s: Store<int, V>, a: nat, b: nat, size: nat)
    requires size >= 1
    requires a < b
    ensures forall i, j :: 0 <= i < |PageKeys(s, a, size)| && 0 <= j < |PageKeys(s, b, size)| ==>
      PageKeys(s, a, size)[i] < PageKeys(s, b, size)[j]
  {
    OffsetStep(a, b, size);
  }
}
