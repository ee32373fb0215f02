/** The records exchanged between the services: the API representations of
    the three entities, the composite read model and the event envelope. */
module Api {
  import opened Outcomes

  // Java references that the code tests for null, or that are null in the
  // published messages, are `Option`s; other strings are never null here.

  /** A product as returned by the product service. `serviceAddress` records
      which instance served it and is `None` until the service fills it in. */
  datatype Product = Product(
    productId: int,
    name: string,
    weight: int,
    serviceAddress: Option<string>)

  datatype Recommendation = Recommendation(
    productId: int,
    recommendationId: int,
    author: string,
    rate: int,
    content: Option<string>,
    serviceAddress: Option<string>)

  datatype Review = Review(
    productId: int,
    reviewId: int,
    author: string,
    subject: string,
    content: Option<string>,
    serviceAddress: Option<string>)

  /** A recommendation inside an aggregate. The read path fills only the first
      three fields (`content` is `None`); a write request carries all four. */
  datatype RecommendationSummary = RecommendationSummary(
    recommendationId: int,
    author: string,
    rate: int,
    content: Option<string>)

  datatype ReviewSummary = ReviewSummary(
    reviewId: int,
    author: string,
    subject: string,
    content: Option<string>)

  /** Which instance served the composite call and each backend call. */
  datatype ServiceAddresses = ServiceAddresses(
    composite: string,
    product: Option<string>,
    review: Option<string>,
    recommendation: Option<string>)

  /** The composite read model. A `None` list is a JSON `null`. */
  datatype ProductAggregate = ProductAggregate(
    productId: int,
    name: string,
    weight: int,
    recommendations: Option<seq<RecommendationSummary>>,
    reviews: Option<seq<ReviewSummary>>,
    serviceAddresses: Option<ServiceAddresses>)

  /** Event types. `Unrecognized` stands for any type a consumer does not
      handle, so that its rejection branch can be stated. */
  datatype EventType = Create | Delete | Unrecognized(name: string)

  function EventTypeName(t: EventType): string {
    match t
    case Create => "CREATE"
    case Delete => "DELETE"
    case Unrecognized(name) => name
  }

  /** The message envelope published on a topic; `data` is `None` for deletes. */
  datatype Event<V> = Event(eventType: EventType, key: int, data: Option<V>, eventCreatedAt: int)
}
