/** The composite read path: fetch the product, then its recommendations and
    reviews, and assemble one `ProductAggregate` from them. */
module CompositeService {
  import opened Outcomes
  import opened Decimal
  import opened Api
  import Integration

  /** The summary of one recommendation on the read path: id, author and rate;
      the three-argument summary constructor leaves `content` null. */
  function RecommendationSummaryOf(r: Recommendation): RecommendationSummary {
    RecommendationSummary(r.recommendationId, r.author, r.rate, None)
  }

  function ReviewSummaryOf(r: Review): ReviewSummary {
    ReviewSummary(r.reviewId, r.author, r.subject, None)
  }

  /** The stream `map` over the recommendation list: same length, same order,
      element i summarises input i. */
  function SummarizeRecommendations(rs: seq<Recommendation>): (r: seq<RecommendationSummary>)
    ensures |r| == |rs|
    ensures forall i :: 0 <= i < |rs| ==>
      r[i].recommendationId == rs[i].recommendationId && r[i].author == rs[i].author &&
      r[i].rate == rs[i].rate && r[i].content.None?
  {
    if rs == [] then [] else [RecommendationSummaryOf(rs[0])] + SummarizeRecommendations(rs[1..])
  }

  /** The stream `map` over the review list. */
  function SummarizeReviews(rs: seq<Review>): (r: seq<ReviewSummary>)
    ensures |r| == |rs|
    ensures forall i :: 0 <= i < |rs| ==>
      r[i].reviewId == rs[i].reviewId && r[i].author == rs[i].author &&
      r[i].subject == rs[i].subject && r[i].content.None?
  {
    if rs == [] then [] else [ReviewSummaryOf(rs[0])] + SummarizeReviews(rs[1..])
  }

  /** A null list maps to a null summary list. */
  function SummarizeRecommendationList(rs: Option<seq<Recommendation>>): (r: Option<seq<RecommendationSummary>>)
    ensures rs.None? <==> r.None?
    ensures rs.Some? ==> r == Some(SummarizeRecommendations(rs.value))
  {
    match rs
    case None => None
    case Some(list) => Some(SummarizeRecommendations(list))
  }

  function SummarizeReviewList(rs: Option<seq<Review>>): (r: Option<seq<ReviewSummary>>)
    ensures rs.None? <==> r.None?
    ensures rs.Some? ==> r == Some(SummarizeReviews(rs.value))
  {
    match rs
    case None => None
    case Some(list) => Some(SummarizeReviews(list))
  }

  /** The address of the instance that served a satellite list: the first
      element's, or the empty string when the list is null or empty. */
  function FirstAddress<T>(l: Option<seq<T>>, address: T -> Option<string>): (a: Option<string>)
    ensures l.Some? && |l.value| > 0 ==> a == address(l.value[0])
    ensures !(l.Some? && |l.value| > 0) ==> a == Some("")
  {
    if l.Some? && |l.value| > 0 then address(l.value[0]) else Some("")
  }

  function RecommendationAddress(rs: Option<seq<Recommendation>>): Option<string> {
    FirstAddress(rs, (r: Recommendation) => r.serviceAddress)
  }

  function ReviewAddress(rs: Option<seq<Review>>): Option<string> {
    FirstAddress(rs, (r: Review) => r.serviceAddress)
  }

  /** `createProductAggregate`: identity fields from the product, summaries
      of both lists, and the addresses of the four instances involved. */
  function CreateProductAggregate(
    product: Product,
    recommendations: Option<seq<Recommendation>>,
    reviews: Option<seq<Review>>,
    serviceAddress: string): (a: ProductAggregate)
    ensures a.productId == product.productId && a.name == product.name && a.weight == product.weight
    ensures a.recommendations.None? <==> recommendations.None?
    ensures a.reviews.None? <==> reviews.None?
    ensures recommendations.Some? ==> a.recommendations == Some(SummarizeRecommendations(recommendations.value))
    ensures reviews.Some? ==> a.reviews == Some(SummarizeReviews(reviews.value))
    ensures a.serviceAddresses.Some?
    ensures a.serviceAddresses.value.composite == serviceAddress
    ensures a.serviceAddresses.value.product == product.serviceAddress
    ensures a.serviceAddresses.value.recommendation ==
      if recommendations.Some? && |recommendations.value| > 0 then recommendations.value[0].serviceAddress else Some("")
    ensures a.serviceAddresses.value.review ==
      if reviews.Some? && |reviews.value| > 0 then reviews.value[0].serviceAddress else Some("")
  {
    ProductAggregate(
      product.productId, product.name, product.weight,
      SummarizeRecommendationList(recommendations),
      SummarizeReviewList(reviews),
      Some(ServiceAddresses(serviceAddress, product.serviceAddress,
                            ReviewAddress(reviews), RecommendationAddress(recommendations))))
  }

  function NoProductFound(productId: int): Error {
    NotFound("No product found for productId: " + IntToString(productId))
  }

  /** `getProductAggregate` once the product lookup has an outcome: a failed
      lookup propagates, a null product is not found, and otherwise the
      satellite lists are assembled with it. */
  function GetProductAggregate(
    productId: int,
    lookup: Result<Option<Product>, Error>,
    recommendations: Option<seq<Recommendation>>,
    reviews: Option<seq<Review>>,
    serviceAddress: string): (r: Result<ProductAggregate, Error>)
    ensures lookup.Failure? ==> r == Failure(lookup.error)
    ensures lookup == Success(None) ==> r == Failure(NoProductFound(productId))
    ensures r.Success? <==> lookup.Success? && lookup.value.Some?
    ensures r.Success? ==> r.value == CreateProductAggregate(lookup.value.value, recommendations, reviews, serviceAddress)
  {
    var product :- lookup;
    if product.None? then Failure(NoProductFound(productId))
    else Success(CreateProductAggregate(product.value, recommendations, reviews, serviceAddress))
  }

  /** The read path end to end over the backend client: the product call first;
      on success the two satellite calls, whose lists are never null. */
  function ReadComposite(
    c: Integration.Client,
    productId: int,
    products: Integration.Backend<Product>,
    recommendations: Integration.Backend<seq<Recommendation>>,
    reviews: Integration.Backend<seq<Review>>,
    serviceAddress: string): (r: Result<ProductAggregate, Error>)
    ensures r.Success? <==> Integration.GetProduct(c, productId, products).Success?
    ensures r.Failure? ==> r.error == Integration.GetProduct(c, productId, products).error
    ensures r.Success? ==> r.value == CreateProductAggregate(
      Integration.GetProduct(c, productId, products).value,
      Some(Integration.GetRecommendations(c, productId, recommendations)),
      Some(Integration.GetReviews(c, productId, reviews)),
      serviceAddress)
  {
    match Integration.GetProduct(c, productId, products)
    case Failure(e) => Failure(e)
    case Success(p) =>
      GetProductAggregate(productId, Success(Some(p)),
        Some(Integration.GetRecommendations(c, productId, recommendations)),
        Some(Integration.GetReviews(c, productId, reviews)),
        serviceAddress)
  }

  // ---------------------------------------------------------------------
  // Properties of the assembly

  /** Summarising a concatenation is concatenating the summaries. */
  lemma {:induction false} SummarizeRecommendationsAppend(a: seq<Recommendation>, b: seq<Recommendation>)
    ensures SummarizeRecommendations(a + b) == SummarizeRecommendations(a) + SummarizeRecommendations(b)
  {
    if a != [] {
      assert (a + b)[1..] == a[1..] + b;
      SummarizeRecommendationsAppend(a[1..], b);
    }
  }

  lemma {:induction false} SummarizeReviewsAppend(a: seq<Review>, b: seq<Review>)
    ensures SummarizeReviews(a + b) == SummarizeReviews(a) + SummarizeReviews(b)
  {
    if a != [] {
      assert (a + b)[1..] == a[1..] + b;
      SummarizeReviewsAppend(a[1..], b);
    }
  }

  /** Null lists give null summaries, empty lists empty summaries, and both
      give the empty-string address. */
  lemma NullAndEmptyLists(product: Product, serviceAddress: string)
    ensures var a := CreateProductAggregate(product, None, None, serviceAddress);
      a.recommendations == None && a.reviews == None &&
      a.serviceAddresses.value.recommendation == Some("") && a.serviceAddresses.value.review == Some("")
    ensures var a := CreateProductAggregate(product, Some([]), Some([]), serviceAddress);
      a.recommendations == Some([]) && a.reviews == Some([]) &&
      a.serviceAddresses.value.recommendation == Some("") && a.serviceAddresses.value.review == Some("")
  {
  }

  /** A null product yields not-found and no aggregate. */
  lemma NullProductNotFound(productId: int, recommendations: Option<seq<Recommendation>>,
                            reviews: Option<seq<Review>>, serviceAddress: string)
    ensures GetProductAggregate(productId, Success(None), recommendations, reviews, serviceAddress)
      == Failure(NotFound("No product found for productId: " + IntToString(productId)))
  {
  }

  /** A 404 or 422 from the product backend reaches the caller as not-found
      or invalid input with the backend's message; other failures reach it
      unchanged. */
  lemma ReadProductFailures(
    c: Integration.Client, productId: int,
    products: Integration.Backend<Product>,
    recommendations: Integration.Backend<seq<Recommendation>>,
    reviews: Integration.Backend<seq<Review>>,
    serviceAddress: string)
    requires products(Integration.ProductRequestUrl(c, productId)).Failed?
    ensures var f := products(Integration.ProductRequestUrl(c, productId)).failure;
      var r := ReadComposite(c, productId, products, recommendations, reviews, serviceAddress);
      && (f.ClientError? && f.status == NOT_FOUND ==> r == Failure(NotFound(Integration.ErrorMessage(f))))
      && (f.ClientError? && f.status == UNPROCESSABLE_ENTITY ==> r == Failure(InvalidInput(Integration.ErrorMessage(f))))
      && (!(f.ClientError? && (f.status == NOT_FOUND || f.status == UNPROCESSABLE_ENTITY)) ==> r == Failure(Rethrown(f)))
  {
  }

  /** Partial failure: when the product is served, a failing recommendation
      backend leaves the aggregate with no recommendations and an empty
      recommendation address, and the reviews are unaffected. */
  lemma ReadDegradesRecommendations(
    c: Integration.Client, productId: int, p: Product,
    products: Integration.Backend<Product>,
    recommendations: Integration.Backend<seq<Recommendation>>,
    reviews: Integration.Backend<seq<Review>>,
    serviceAddress: string)
    requires products(Integration.ProductRequestUrl(c, productId)) == Integration.Body(Some(p))
    requires recommendations(Integration.RecommendationsRequestUrl(c, productId)).Failed?
    ensures var r := ReadComposite(c, productId, products, recommendations, reviews, serviceAddress);
      && r.Success?
      && r.value.productId == p.productId
      && r.value.recommendations == Some([])
      && r.value.serviceAddresses.value.recommendation == Some("")
      && r.value.reviews == Some(SummarizeReviews(Integration.GetReviews(c, productId, reviews)))
  {
  }

  lemma ReadDegradesReviews(
    c: Integration.Client, productId: int, p: Product,
    products: Integration.Backend<Product>,
    recommendations: Integration.Backend<seq<Recommendation>>,
    reviews: Integration.Backend<seq<Review>>,
    serviceAddress: string)
    requires products(Integration.ProductRequestUrl(c, productId)) == Integration.Body(Some(p))
    requires reviews(Integration.ReviewsRequestUrl(c, productId)).Failed?
    ensures var r := ReadComposite(c, productId, products, recommendations, reviews, serviceAddress);
      && r.Success?
      && r.value.reviews == Some([])
      && r.value.serviceAddresses.value.review == Some("")
      && r.value.recommendations == Some(SummarizeRecommendations(Integration.GetRecommendations(c, productId, recommendations)))
  {
  }
}
