/** The recommendation service: recommendations keyed by (productId,
    recommendationId), created with duplicate detection, listed per product
    and deleted per product. */
module RecommendationService {
  import opened Outcomes
  import opened Decimal
  import opened Api
  import opened Entities
  import opened VersionedStore

  type RecommendationStore = Store<PairKey, RecommendationEntity>

  /** Every recommendation is stored under its own (productId, recommendationId). */
  predicate KeysMatch(s: RecommendationStore) {
    forall k :: k in s ==> s[k].value.productId == k.productId && s[k].value.recommendationId == k.subId
  }

  function KeyOf(r: Recommendation): PairKey {
    PairKey(r.productId, r.recommendationId)
  }

  function InvalidProductId(productId: int): Error {
    InvalidInput("Invalid productId: " + IntToString(productId))
  }

  function DuplicateRecommendation(productId: int, recommendationId: int): Error {
    InvalidInput("Duplicate key, Product Id: " + IntToString(productId) + ", Recommendation Id:" + IntToString(recommendationId))
  }

  /** `createRecommendation`: an id below 1 is rejected before the store is
      touched; a taken (productId, recommendationId) is invalid input and
      leaves the store as it was. */
  function CreateRecommendation(s: RecommendationStore, body: Recommendation): (r: Response<RecommendationStore, Recommendation>)
    ensures body.productId < 1 ==> r == Response(s, Failure(InvalidProductId(body.productId)))
    ensures body.productId >= 1 && KeyOf(body) in s ==>
      r == Response(s, Failure(DuplicateRecommendation(body.productId, body.recommendationId)))
    ensures r.result.Success? <==> body.productId >= 1 && KeyOf(body) !in s
    ensures r.result.Success? ==>
      && r.state == s[KeyOf(body) := Stored(RecommendationToEntity(body), 0)]
      && r.result.value == body.(serviceAddress := None)
  {
    if body.productId < 1 then Response(s, Failure(InvalidProductId(body.productId)))
    else
      match Save(s, KeyOf(body), RecommendationToEntity(body), None)
      case Success(saved) => Response(saved.store, Success(RecommendationFromEntity(saved.entity.value)))
      case Failure(_) => Response(s, Failure(DuplicateRecommendation(body.productId, body.recommendationId)))
  }

  /** `getRecommendations`: an id below 1 is invalid; otherwise the product's
      recommendations, by ascending recommendationId, each carrying this
      instance's address. No recommendations is an empty list, not an error. */
  function GetRecommendations(s: RecommendationStore, productId: int, serviceAddress: string): (r: Result<seq<Recommendation>, Error>)
    ensures productId < 1 ==> r == Failure(InvalidProductId(productId))
    ensures productId >= 1 ==> r.Success?
    ensures r.Success? ==> |r.value| == |KeysOf(s, productId)|
    ensures r.Success? ==> forall i :: 0 <= i < |r.value| ==>
      r.value[i] == RecommendationFromEntity(s[KeysOf(s, productId)[i]].value).(serviceAddress := Some(serviceAddress))
  {
    if productId < 1 then Failure(InvalidProductId(productId))
    else
      var found := FindByProductId(s, productId);
      Success(seq(|found|, i requires 0 <= i < |found| =>
        RecommendationFromEntity(found[i].value).(serviceAddress := Some(serviceAddress))))
  }

  /** `deleteRecommendations`: an id below 1 is invalid; otherwise every
      recommendation of the product goes and nothing else changes. */
  function DeleteRecommendations(s: RecommendationStore, productId: int): (r: Response<RecommendationStore, ()>)
    ensures productId < 1 ==> r == Response(s, Failure(InvalidProductId(productId)))
    ensures productId >= 1 ==> r.result.Success?
    ensures productId >= 1 ==> forall k :: k in r.state <==> k in s && k.productId != productId
    ensures forall k :: k in r.state ==> r.state[k] == s[k]
  {
    if productId < 1 then Response(s, Failure(InvalidProductId(productId)))
    else Response(DeleteByProductId(s, productId), Success(()))
  }

  /** The API form of a stored recommendation as this instance lists it. */
  function Listed(e: RecommendationEntity, serviceAddress: string): Recommendation {
    RecommendationFromEntity(e).(serviceAddress := Some(serviceAddress))
  }

  /** The list holds exactly the stored recommendations of the product: each
      listed one is stored under that product, and each stored one of that
      product is listed. */
  lemma GetRecommendationsExact(s: RecommendationStore, productId: int, serviceAddress: string)
    requires KeysMatch(s)
    requires productId >= 1
    ensures var list := GetRecommendations(s, productId, serviceAddress).value;
      && (forall i :: 0 <= i < |list| ==> list[i].productId == productId && PairKey(productId, list[i].recommendationId) in s)
      && (forall k :: k in s && k.productId == productId ==> Listed(s[k].value, serviceAddress) in list)
  {
    var list := GetRecommendations(s, productId, serviceAddress).value;
    var ks := KeysOf(s, productId);
    forall k | k in s && k.productId == productId
      ensures Listed(s[k].value, serviceAddress) in list
    {
      assert k in ks;
      var i :| 0 <= i < |ks| && ks[i] == k;
      assert list[i] == Listed(s[k].value, serviceAddress);
    }
  }

  /** A product without recommendations gets an empty list. */
  lemma NoRecommendationsIsEmpty(s: RecommendationStore, productId: int, serviceAddress: string)
    requires productId >= 1
    requires forall k :: k in s ==> k.productId != productId
    ensures GetRecommendations(s, productId, serviceAddress) == Success([])
  {
    var ks := KeysOf(s, productId);
    assert forall i :: 0 <= i < |ks| ==> ks[i] in ks;
  }

  /** A created recommendation is listed for its product. */
  lemma CreateThenList(s: RecommendationStore, body: Recommendation, serviceAddress: string)
    requires KeysMatch(s)
    requires body.productId >= 1 && KeyOf(body) !in s
    ensures CreateRecommendation(s, body).result.Success?
    ensures body.(serviceAddress := Some(serviceAddress)) in GetRecommendations(CreateRecommendation(s, body).state, body.productId, serviceAddress).value
  {
    var s1 := CreateRecommendation(s, body).state;
    assert KeysMatch(s1);
    GetRecommendationsExact(s1, body.productId, serviceAddress);
    assert Listed(s1[KeyOf(body)].value, serviceAddress) == body.(serviceAddress := Some(serviceAddress));
  }

  /** After deleting a product's recommendations, listing them gives nothing. */
  lemma DeleteThenList(s: RecommendationStore, productId: int, serviceAddress: string)
    requires productId >= 1
    ensures GetRecommendations(DeleteRecommendations(s, productId).state, productId, serviceAddress) == Success([])
  {
    NoRecommendationsIsEmpty(DeleteRecommendations(s, productId).state, productId, serviceAddress);
  }

  /** Creating and deleting keep every recommendation under its own key. */
  lemma OperationsKeepKeys(s: RecommendationStore, body: Recommendation, productId: int)
    requires KeysMatch(s)
    ensures KeysMatch(CreateRecommendation(s, body).state)
    ensures KeysMatch(DeleteRecommendations(s, productId).state)
  {
  }
}
