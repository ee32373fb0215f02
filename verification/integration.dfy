/** The composite's client for the three backend services: request URLs
    built by concatenation, the product call's mapping of HTTP errors, and the
    recommendation and review calls, whose failures become empty lists. */
module Integration {
  import opened Outcomes
  import opened Decimal
  import opened Api

  /** Host and port of each backend, as configured (ports are text). */
  datatype Config = Config(
    productHost: string, productPort: string,
    reviewHost: string, reviewPort: string,
    recommendationHost: string, recommendationPort: string)

  /** The three base URLs the client keeps. */
  datatype Client = Client(productServiceUrl: string, reviewServiceUrl: string, recommendationServiceUrl: string)

  /** The constructor. As written, the field used for reviews is built from the
      recommendation service's host and path, and the field used for
      recommendations from the review service's; the model keeps that. */
  function NewClient(c: Config): (r: Client)
    ensures r.productServiceUrl == "http://" + c.productHost + ":" + c.productPort + "/product/"
    ensures r.reviewServiceUrl == "http://" + c.recommendationHost + ":" + c.recommendationPort + "/recommendation?productId="
    ensures r.recommendationServiceUrl == "http://" + c.reviewHost + ":" + c.reviewPort + "/review?productId="
  {
    Client(
      "http://" + c.productHost + ":" + c.productPort + "/product/",
      "http://" + c.recommendationHost + ":" + c.recommendationPort + "/recommendation?productId=",
      "http://" + c.reviewHost + ":" + c.reviewPort + "/review?productId=")
  }

  /** What a remote GET produced: a decoded body, which may be null, or a failure. */
  datatype Remote<T> = Body(body: Option<T>) | Failed(failure: HttpFailure)

  /** A backend as the client sees it: the outcome of a GET on each URL. */
  type Backend<T> = string -> Remote<T>

  function ProductRequestUrl(c: Client, productId: int): string {
    c.productServiceUrl + IntToString(productId)
  }

  function RecommendationsRequestUrl(c: Client, productId: int): string {
    c.recommendationServiceUrl + IntToString(productId)
  }

  function ReviewsRequestUrl(c: Client, productId: int): string {
    c.reviewServiceUrl + IntToString(productId)
  }

  /** `getErrorMessage`: the `message` of the parsed error body, or the
      exception's own message when the body does not parse. */
  function ErrorMessage(f: HttpFailure): (m: string)
    requires f.ClientError?
    ensures f.parsedMessage.Some? ==> m == f.parsedMessage.value
    ensures f.parsedMessage.None? ==> m == f.exceptionMessage
  {
    match f.parsedMessage
    case Some(message) => message
    case None => f.exceptionMessage
  }

  /** The product call's error policy: 404 is not found, 422 is invalid
      input, and every other failure is passed on unchanged. */
  function MapProductFailure(f: HttpFailure): (e: Error)
    ensures f.ClientError? && f.status == NOT_FOUND ==> e == NotFound(ErrorMessage(f))
    ensures f.ClientError? && f.status == UNPROCESSABLE_ENTITY ==> e == InvalidInput(ErrorMessage(f))
    ensures !(f.ClientError? && (f.status == NOT_FOUND || f.status == UNPROCESSABLE_ENTITY)) ==> e == Rethrown(f)
  {
    match f
    case ClientError(status, _, _) =>
      if status == NOT_FOUND then NotFound(ErrorMessage(f))
      else if status == UNPROCESSABLE_ENTITY then InvalidInput(ErrorMessage(f))
      else Rethrown(f)
    case OtherFailure(_) => Rethrown(f)
  }

  /** `getProduct`: GET on the product URL. A decoded product is returned; a
      null body fails when its id is read for the debug log; failures are
      mapped by `MapProductFailure`. */
  function GetProduct(c: Client, productId: int, backend: Backend<Product>): (r: Result<Product, Error>)
    ensures backend(ProductRequestUrl(c, productId)).Body? ==>
      r == (match backend(ProductRequestUrl(c, productId)).body
            case Some(p) => Success(p)
            case None => Failure(Unexpected("NullPointerException")))
    ensures backend(ProductRequestUrl(c, productId)).Failed? ==>
      r == Failure(MapProductFailure(backend(ProductRequestUrl(c, productId)).failure))
  {
    match backend(ProductRequestUrl(c, productId))
    case Body(Some(p)) => Success(p)
    case Body(None) => Failure(Unexpected("NullPointerException"))
    case Failed(f) => Failure(MapProductFailure(f))
  }

  /** The satellite policy: a decoded list is returned as it is; anything
      else (a failure, or a null body, which fails on `size()` inside the
      same try block) becomes an empty list. */
  function ListOrEmpty<T>(outcome: Remote<seq<T>>): (l: seq<T>)
    ensures outcome.Body? && outcome.body.Some? ==> l == outcome.body.value
    ensures !(outcome.Body? && outcome.body.Some?) ==> l == []
  {
    match outcome
    case Body(Some(list)) => list
    case _ => []
  }

  /** `getRecommendations`: never fails. */
  function GetRecommendations(c: Client, productId: int, backend: Backend<seq<Recommendation>>): (l: seq<Recommendation>)
    ensures var o := backend(c.recommendationServiceUrl + IntToString(productId));
      (o.Body? && o.body.Some? ==> l == o.body.value) && (!(o.Body? && o.body.Some?) ==> l == [])
  {
    ListOrEmpty(backend(RecommendationsRequestUrl(c, productId)))
  }

  /** `getReviews`: never fails. */
  function GetReviews(c: Client, productId: int, backend: Backend<seq<Review>>): (l: seq<Review>)
    ensures var o := backend(c.reviewServiceUrl + IntToString(productId));
      (o.Body? && o.body.Some? ==> l == o.body.value) && (!(o.Body? && o.body.Some?) ==> l == [])
  {
    ListOrEmpty(backend(ReviewsRequestUrl(c, productId)))
  }

  /** The product request URL is "http://host:port/product/" followed by the id. */
  lemma ProductUrlShape(cfg: Config, productId: int)
    ensures ProductRequestUrl(NewClient(cfg), productId)
      == "http://" + cfg.productHost + ":" + cfg.productPort + "/product/" + IntToString(productId)
  {
  }

  /** Distinct product ids are requested on distinct URLs. */
  lemma ProductUrlInjective(c: Client, a: int, b: int)
    ensures ProductRequestUrl(c, a) == ProductRequestUrl(c, b) ==> a == b
  {
    PrefixedIntInjective(c.productServiceUrl, a, b);
  }

  /** As written, `getRecommendations` asks the review service's host for
      `/review?productId=`, and `getReviews` asks the recommendation service's
      host for `/recommendation?productId=`. */
  lemma SatelliteUrlsCrossed(cfg: Config, productId: int)
    ensures RecommendationsRequestUrl(NewClient(cfg), productId)
      == "http://" + cfg.reviewHost + ":" + cfg.reviewPort + "/review?productId=" + IntToString(productId)
    ensures ReviewsRequestUrl(NewClient(cfg), productId)
      == "http://" + cfg.recommendationHost + ":" + cfg.recommendationPort + "/recommendation?productId=" + IntToString(productId)
  {
  }

  /** Consequently the recommendations the composite obtains are whatever the
      review endpoint answers. */
  lemma RecommendationsComeFromReviewEndpoint(cfg: Config, productId: int, backend: Backend<seq<Recommendation>>)
    ensures GetRecommendations(NewClient(cfg), productId, backend)
      == ListOrEmpty(backend("http://" + cfg.reviewHost + ":" + cfg.reviewPort + "/review?productId=" + IntToString(productId)))
  {
  }

  /** The product call fails exactly when the remote call fails or returns
      null, and a 404 or 422 is never passed on as a raw HTTP error. */
  lemma ProductFailurePolicy(c: Client, productId: int, backend: Backend<Product>)
    ensures GetProduct(c, productId, backend).Failure? <==>
      !(backend(ProductRequestUrl(c, productId)).Body? && backend(ProductRequestUrl(c, productId)).body.Some?)
    ensures GetProduct(c, productId, backend).Failure? && GetProduct(c, productId, backend).error.Rethrown? ==>
      var f := GetProduct(c, productId, backend).error.failure;
      !(f.ClientError? && (f.status == NOT_FOUND || f.status == UNPROCESSABLE_ENTITY))
  {
  }

  /** A satellite list is either the backend's list or empty, never null. */
  lemma SatelliteNeverFails(c: Client, productId: int, backend: Backend<seq<Review>>)
    ensures var l := GetReviews(c, productId, backend);
      var outcome := backend(ReviewsRequestUrl(c, productId));
      (outcome.Body? && outcome.body.Some? && l == outcome.body.value) || l == []
  {
  }
}
