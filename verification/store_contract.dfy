/** What the persistence tests of the product store (keyed by productId) and
    the review store (keyed by productId and reviewId) assert of a store:
    uniqueness of the natural key, version 0 at creation and one more per
    update, rejection of stale updates, deletion, lookup and ascending paging. */
module StoreContract {
  import opened Outcomes
  import opened Decimal
  import opened SortedSets
  import opened Entities
  import opened VersionedStore

  type ProductStore = Store<int, ProductEntity>
  type ReviewStore = Store<PairKey, ReviewEntity>

  /** Every product is stored under its own productId. */
  predicate ProductKeysMatch(s: ProductStore) {
    forall k :: k in s ==> s[k].value.productId == k
  }

  function SaveProduct(s: ProductStore, e: ProductEntity, readVersion: Option<nat>): Result<Saved<int, ProductEntity>, StoreError> {
    Save(s, e.productId, e, readVersion)
  }

  function ReviewKey(e: ReviewEntity): PairKey {
    PairKey(e.productId, e.reviewId)
  }

  function SaveReview(s: ReviewStore, e: ReviewEntity, readVersion: Option<nat>): Result<Saved<PairKey, ReviewEntity>, StoreError> {
    Save(s, ReviewKey(e), e, readVersion)
  }

  // ----- The contract, for any store -----

  /** A new entity under a free key is found afterwards at version 0 and the
      entity count grows by one. */
  lemma SaveNewIsFound<K, V>(s: Store<K, V>, key: K, value: V)
    requires key !in s
    ensures Save(s, key, value, None).Success?
    ensures Find(Save(s, key, value, None).value.store, key) == Some(Stored(value, 0))
    ensures |Save(s, key, value, None).value.store| == |s| + 1
  {
  }

  /** Saving a new entity under a taken key fails with a duplicate-key error. */
  lemma DuplicateRejected<K, V>(s: Store<K, V>, key: K, value: V)
    requires key in s
    ensures Save(s, key, value, None) == Failure(DuplicateKey)
  {
  }

  /** Updating from the current version stores the new value one version up
      and does not change the entity count. */
  lemma UpdateBumpsVersion<K, V>(s: Store<K, V>, key: K, value: V)
    requires key in s
    ensures Save(s, key, value, Some(s[key].version)).Success?
    ensures Find(Save(s, key, value, Some(s[key].version)).value.store, key) == Some(Stored(value, s[key].version + 1))
    ensures |Save(s, key, value, Some(s[key].version)).value.store| == |s|
  {
  }

  /** Two writers that read the same version: the first update wins, the
      second is rejected, and the store keeps the first writer's value. */
  lemma StaleUpdateRejected<K, V>(s: Store<K, V>, key: K, first: V, second: V)
    requires key in s
    ensures Save(s, key, first, Some(s[key].version)).Success?
    ensures var s1 := Save(s, key, first, Some(s[key].version)).value.store;
      && Save(s1, key, second, Some(s[key].version)) == Failure(OptimisticLock)
      && Find(s1, key) == Some(Stored(first, s[key].version + 1))
  {
  }

  /** After a delete the key is gone and every other entry is untouched. */
  lemma DeletedNotFound<K(!new), V>(s: Store<K, V>, key: K, other: K)
    ensures Find(Delete(s, key), key) == None
    ensures other != key ==> Find(Delete(s, key), other) == Find(s, other)
  {
  }

  // ----- Product store scenarios -----

  const savedProduct := ProductEntity(1, "n", 1)

  /** The store every product test starts from: emptied, then one product saved. */
  function ProductSetup(): (s: ProductStore)
    ensures s == map[1 := Stored(savedProduct, 0)]
  {
    SaveNewIsFound(map[], 1, savedProduct);
    SaveProduct(map[], savedProduct, None).value.store
  }

  /** A new product is found with equal fields and the count is 2. */
  lemma ProductCreateScenario()
    ensures var r := SaveProduct(ProductSetup(), ProductEntity(2, "n", 2), None);
      && r.Success?
      && Find(r.value.store, 2) == Some(Stored(ProductEntity(2, "n", 2), 0))
      && |r.value.store| == 2
  {
    SaveNewIsFound(ProductSetup(), 2, ProductEntity(2, "n", 2));
  }

  /** Renaming the saved product yields version 1 with the new name. */
  lemma ProductUpdateScenario()
    ensures var r := SaveProduct(ProductSetup(), savedProduct.(name := "n2"), Some(0));
      && r.Success?
      && Find(r.value.store, 1) == Some(Stored(ProductEntity(1, "n2", 1), 1))
  {
    UpdateBumpsVersion(ProductSetup(), 1, savedProduct.(name := "n2"));
  }

  lemma ProductDeleteScenario()
    ensures Find(Delete(ProductSetup(), 1), 1).None?
  {
    DeletedNotFound(ProductSetup(), 1, 1);
  }

  lemma ProductFindScenario()
    ensures Find(ProductSetup(), savedProduct.productId) == Some(Stored(savedProduct, 0))
  {
  }

  lemma ProductDuplicateScenario()
    ensures SaveProduct(ProductSetup(), ProductEntity(1, "n", 1), None) == Failure(DuplicateKey)
  {
    DuplicateRejected(ProductSetup(), 1, ProductEntity(1, "n", 1));
  }

  /** Both copies read version 0; renaming through the first succeeds, through
      the second fails, and the stored product is "n1" at version 1. */
  lemma ProductOptimisticLockScenario()
    ensures var r1 := SaveProduct(ProductSetup(), savedProduct.(name := "n1"), Some(0));
      && r1.Success?
      && SaveProduct(r1.value.store, savedProduct.(name := "n2"), Some(0)) == Failure(OptimisticLock)
      && Find(r1.value.store, 1) == Some(Stored(ProductEntity(1, "n1", 1), 1))
  {
    StaleUpdateRejected(ProductSetup(), 1, savedProduct.(name := "n1"), savedProduct.(name := "n2"));
  }

  // ----- Saving a batch, and paging -----

  /** What a batch save leaves behind: the store, how many products of the
      batch were saved, and the error that stopped the batch, if any. */
  datatype BatchSaved = BatchSaved(store: ProductStore, saved: nat, error: Option<StoreError>)

  /** `saveAll`: saves new products one after another, stopping at the first
      failure; the products saved before it stay saved. */
  function SaveAllNew(s: ProductStore, es: seq<ProductEntity>): (r: BatchSaved)
    ensures r.saved <= |es|
    ensures r.error.None? <==> r.saved == |es|
    ensures r.error.Some? ==> r.error.value == DuplicateKey && es[r.saved].productId in r.store
    ensures forall k :: k in s ==> k in r.store && r.store[k] == s[k]
    ensures forall i :: 0 <= i < r.saved ==> es[i].productId in r.store && r.store[es[i].productId] == Stored(es[i], 0)
    ensures forall k :: k in r.store ==> k in s || exists i :: 0 <= i < r.saved && es[i].productId == k
    decreases |es|
  {
    if es == [] then BatchSaved(s, 0, None)
    else
      var r := SaveProduct(s, es[0], None);
      if r.Failure? then BatchSaved(s, 0, Some(r.error))
      else
        var rest := SaveAllNew(r.value.store, es[1..]);
        assert forall i :: 1 <= i < |es| ==> es[i] == es[1..][i - 1];
        rest.(saved := rest.saved + 1)
  }

  function ProductIds(es: seq<ProductEntity>): (ids: set<int>)
    ensures forall id :: id in ids <==> exists i :: 0 <= i < |es| && es[i].productId == id
  {
    set i | 0 <= i < |es| :: es[i].productId
  }

  predicate DistinctIds(es: seq<ProductEntity>) {
    forall i, j :: 0 <= i < j < |es| ==> es[i].productId != es[j].productId
  }

  /** A batch that can be saved whole: pairwise distinct ids, none in `s`. */
  predicate FreshBatch(s: ProductStore, es: seq<ProductEntity>) {
    DistinctIds(es) && forall i :: 0 <= i < |es| ==> es[i].productId !in s
  }

  /** After saving the first product of a batch, the rest is fresh exactly
      when the whole batch was. */
  lemma FreshBatchStep(s: ProductStore, es: seq<ProductEntity>)
    requires es != [] && es[0].productId !in s
    ensures FreshBatch(s, es) <==> FreshBatch(s[es[0].productId := Stored(es[0], 0)], es[1..])
  {
    var s1 := s[es[0].productId := Stored(es[0], 0)];
    assert forall i :: 1 <= i < |es| ==> es[i] == es[1..][i - 1];
    if FreshBatch(s1, es[1..]) {
      forall i, j | 0 <= i < j < |es|
        ensures es[i].productId != es[j].productId
      {
        if i == 0 {
          assert es[1..][j - 1].productId !in s1;
        } else {
          assert es[1..][i - 1].productId != es[1..][j - 1].productId;
        }
      }
    }
  }

  /** A batch is saved whole exactly when its ids are distinct and none is taken. */
  lemma {:induction false} SaveAllNewSucceeds(s: ProductStore, es: seq<ProductEntity>)
    ensures SaveAllNew(s, es).error.None? <==> FreshBatch(s, es)
    decreases |es|
  {
    if es != [] {
      var r := SaveProduct(s, es[0], None);
      if r.Success? {
        SaveAllNewSucceeds(r.value.store, es[1..]);
        FreshBatchStep(s, es);
      }
    }
  }

  /** Saving products with distinct, unused ids succeeds and adds exactly
      those ids, each keyed by its own productId. */
  lemma SaveAllNewAdds(s: ProductStore, es: seq<ProductEntity>)
    requires ProductKeysMatch(s)
    requires FreshBatch(s, es)
    ensures SaveAllNew(s, es).error.None?
    ensures SaveAllNew(s, es).store.Keys == s.Keys + ProductIds(es)
    ensures ProductKeysMatch(SaveAllNew(s, es).store)
  {
    SaveAllNewSucceeds(s, es);
    var r := SaveAllNew(s, es);
    forall k | k in r.store
      ensures k in s.Keys + ProductIds(es) && r.store[k].value.productId == k
    {
      if k !in s {
        var i :| 0 <= i < r.saved && es[i].productId == k;
      }
    }
  }

  /** A batch whose second product repeats a stored id: the first product
      stays saved, the batch stops there, and the third is never saved. */
  lemma PartialBatchScenario()
    ensures var r := SaveAllNew(ProductSetup(), [ProductEntity(2, "n", 2), savedProduct, ProductEntity(3, "n", 3)]);
      && r.saved == 1
      && r.error == Some(DuplicateKey)
      && Find(r.store, 2) == Some(Stored(ProductEntity(2, "n", 2), 0))
      && Find(r.store, 3) == None
  {
    var es := [ProductEntity(2, "n", 2), savedProduct, ProductEntity(3, "n", 3)];
    var s1 := ProductSetup()[2 := Stored(es[0], 0)];
    assert es[1..] == [savedProduct, ProductEntity(3, "n", 3)];
    assert SaveAllNew(s1, es[1..]) == BatchSaved(s1, 0, Some(DuplicateKey));
  }

  /** The products 1001..1010 saved by the paging test. */
  function PagingProducts(): (es: seq<ProductEntity>)
    ensures |es| == 10
    ensures forall i :: 0 <= i < 10 ==> es[i].productId == 1001 + i
  {
    seq(10, i => ProductEntity(1001 + i, "name " + IntToString(1001 + i), 1001 + i))
  }

  /** The productIds on one page, in page order. */
  function PageProductIds(p: Page<ProductEntity>): (ids: seq<int>)
    ensures |ids| == |p.content|
    ensures forall i :: 0 <= i < |ids| ==> ids[i] == p.content[i].value.productId
  {
    seq(|p.content|, i requires 0 <= i < |p.content| => p.content[i].value.productId)
  }

  /** On a store whose keys are the productIds, a page lists the productIds
      of its keys. */
  lemma PageIdsAreKeys(s: ProductStore, page: nat, size: nat)
    requires size >= 1
    requires ProductKeysMatch(s)
    ensures PageProductIds(FindAllPage(s, page, size)) == PageKeys(s, page, size)
  {
  }

  /** The paging test's products can be saved whole into an empty store. */
  lemma PagingProductsFresh()
    ensures FreshBatch(map[], PagingProducts())
  {
    var es := PagingProducts();
    forall i, j | 0 <= i < j < |es|
      ensures es[i].productId != es[j].productId
    {
    }
  }

  /** The store of the paging test, products 1001..1010 saved into an empty
      store, has those ids as its keys in order. */
  lemma PagingStoreKeys(s: ProductStore)
    requires SaveAllNew(map[], PagingProducts()).store == s
    ensures ProductKeysMatch(s)
    ensures SortedElements(s.Keys) == Range(1001, 10)
    ensures |s| == 10
  {
    var es := PagingProducts();
    PagingProductsFresh();
    SaveAllNewAdds(map[], es);
    assert s.Keys == Interval(1001, 10) by {
      forall k | k in Interval(1001, 10)
        ensures k in ProductIds(es)
      {
        assert es[k - 1001].productId == k;
      }
    }
    SortedRange(1001, 10);
    assert |s.Keys| == |s|;
  }

  /** On a store whose sorted keys are consecutive, a page is the run of
      consecutive productIds starting at the page's offset (`first`), as
      long as the page is (`count`). */
  lemma PageOfConsecutiveKeys(s: ProductStore, lo: int, page: nat, size: nat, first: int, count: nat)
    requires size >= 1
    requires ProductKeysMatch(s)
    requires SortedElements(s.Keys) == Range(lo, |s|)
    requires first == lo + Offset(page, size) && count == |PageKeys(s, page, size)|
    ensures PageProductIds(FindAllPage(s, page, size)) == Range(first, count)
  {
    PageIdsAreKeys(s, page, size);
    var off := Offset(page, size);
    var ks := PageKeys(s, page, size);
    var run := Range(first, count);
    forall i | 0 <= i < |ks|
      ensures ks[i] == run[i]
    {
      assert ks[i] == SortedElements(s.Keys)[off + i];
    }
    assert ks == run;
  }

  /** How many items the pages of size 4 of a ten-item store hold. */
  lemma PagingPageLength(s: ProductStore, page: nat)
    requires |s| == 10
    requires page <= 2
    ensures |PageKeys(s, page, 4)| == if page < 2 then 4 else 2
    ensures |PageKeys(s, page + 1, 4)| > 0 <==> page < 2
  {
    OffsetIsProduct(page, 4);
    OffsetIsProduct(page + 1, 4);
  }

  /** One page of the paging test: its productIds and whether a next page exists. */
  lemma PagingPage(s: ProductStore, page: nat)
    requires ProductKeysMatch(s)
    requires SortedElements(s.Keys) == Range(1001, 10)
    requires |s| == 10
    requires page <= 2
    ensures PageProductIds(FindAllPage(s, page, 4)) == Range(1001 + 4 * page, if page < 2 then 4 else 2)
    ensures FindAllPage(s, page, 4).hasNext == (page < 2)
  {
    var first := 1001 + 4 * page;
    var count := if page < 2 then 4 else 2;
    PagingPageLength(s, page);
    OffsetIsProduct(page, 4);
    PageOfConsecutiveKeys(s, 1001, page, 4, first, count);
  }

  lemma PagingRanges()
    ensures Range(1001, 4) == [1001, 1002, 1003, 1004]
    ensures Range(1005, 4) == [1005, 1006, 1007, 1008]
    ensures Range(1009, 2) == [1009, 1010]
  {
  }

  /** The paging test: products 1001..1010 saved into an empty store and read
      back in pages of 4. */
  lemma PagingScenario(s: ProductStore)
    requires SaveAllNew(map[], PagingProducts()).store == s
    ensures PageProductIds(FindAllPage(s, 0, 4)) == [1001, 1002, 1003, 1004]
    ensures PageProductIds(FindAllPage(s, 1, 4)) == [1005, 1006, 1007, 1008]
    ensures PageProductIds(FindAllPage(s, 2, 4)) == [1009, 1010]
    ensures FindAllPage(s, 0, 4).hasNext && FindAllPage(s, 1, 4).hasNext && !FindAllPage(s, 2, 4).hasNext
  {
    PagingStoreKeys(s);
    PagingPage(s, 0);
    PagingPage(s, 1);
    PagingPage(s, 2);
    PagingRanges();
  }

  // ----- Review store scenarios -----

  const savedReview := ReviewEntity(1, 2, "a", "s", Some("c"))

  function ReviewSetup(): (s: ReviewStore)
    ensures s == map[PairKey(1, 2) := Stored(savedReview, 0)]
  {
    SaveNewIsFound(map[], PairKey(1, 2), savedReview);
    SaveReview(map[], savedReview, None).value.store
  }

  /** A second review of the same product under another reviewId coexists
      with the first, and the count is 2. */
  lemma ReviewCreateScenario()
    ensures var r := SaveReview(ReviewSetup(), ReviewEntity(1, 3, "a", "s", Some("c")), None);
      && r.Success?
      && Find(r.value.store, PairKey(1, 3)) == Some(Stored(ReviewEntity(1, 3, "a", "s", Some("c")), 0))
      && Find(r.value.store, PairKey(1, 2)) == Some(Stored(savedReview, 0))
      && |r.value.store| == 2
  {
    SaveNewIsFound(ReviewSetup(), PairKey(1, 3), ReviewEntity(1, 3, "a", "s", Some("c")));
  }

  lemma ReviewUpdateScenario()
    ensures var r := SaveReview(ReviewSetup(), savedReview.(author := "a2"), Some(0));
      && r.Success?
      && Find(r.value.store, PairKey(1, 2)) == Some(Stored(ReviewEntity(1, 2, "a2", "s", Some("c")), 1))
  {
    UpdateBumpsVersion(ReviewSetup(), PairKey(1, 2), savedReview.(author := "a2"));
  }

  lemma ReviewDeleteScenario()
    ensures Find(Delete(ReviewSetup(), PairKey(1, 2)), PairKey(1, 2)).None?
  {
    DeletedNotFound(ReviewSetup(), PairKey(1, 2), PairKey(1, 2));
  }

  /** Looking up the reviews of product 1 finds exactly the saved review. */
  lemma ReviewFindByProductIdScenario()
    ensures FindByProductId(ReviewSetup(), 1) == [Stored(savedReview, 0)]
  {
    var s := ReviewSetup();
    var ks := KeysOf(s, 1);
    assert PairKey(1, 2) in ks;
    assert ks == [PairKey(1, 2)];
  }

  lemma ReviewDuplicateScenario()
    ensures SaveReview(ReviewSetup(), ReviewEntity(1, 2, "a", "s", Some("c")), None) == Failure(DuplicateKey)
  {
    DuplicateRejected(ReviewSetup(), PairKey(1, 2), ReviewEntity(1, 2, "a", "s", Some("c")));
  }

  lemma ReviewOptimisticLockScenario()
    ensures var r1 := SaveReview(ReviewSetup(), savedReview.(author := "a1"), Some(0));
      && r1.Success?
      && SaveReview(r1.value.store, savedReview.(author := "a2"), Some(0)) == Failure(OptimisticLock)
      && Find(r1.value.store, PairKey(1, 2)) == Some(Stored(ReviewEntity(1, 2, "a1", "s", Some("c")), 1))
  {
    StaleUpdateRejected(ReviewSetup(), PairKey(1, 2), savedReview.(author := "a1"), savedReview.(author := "a2"));
  }

  /** `findByProductId` returns exactly the stored entities of that product. */
  lemma FindByProductIdExact<V>(s: Store<PairKey, V>, productId: int, k: PairKey)
    requires k in s
    ensures k.productId == productId <==> exists i :: 0 <= i < |KeysOf(s, productId)| && KeysOf(s, productId)[i] == k
    ensures k.productId == productId ==> s[k] in FindByProductId(s, productId)
  {
    var ks := KeysOf(s, productId);
    if k.productId == productId {
      assert k in ks;
      var i :| 0 <= i < |ks| && ks[i] == k;
      assert FindByProductId(s, productId)[i] == s[k];
    }
  }
}
