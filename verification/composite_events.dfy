/** The composite write path: a composite create is decomposed into one
    product event, one event per recommendation and one per review, each on
    its own topic; a composite delete publishes one delete event on each of
    the three topics. Also the test matcher that compares events while
    ignoring their creation time. */
module CompositeEvents {
  import opened Outcomes
  import opened Decimal
  import opened Api
  import CompositeService
  import StoreContract
  import ProductService
  import MessageProcessor

  /** The HTTP status of an accepted composite write. */
  const ACCEPTED := 202

  /** A message on one of the three topics: `products`, `recommendations`, `reviews`. */
  datatype Message =
    | ProductMessage(productEvent: Event<Product>)
    | RecommendationMessage(recommendationEvent: Event<Recommendation>)
    | ReviewMessage(reviewEvent: Event<Review>)

  // ---------------------------------------------------------------------
  // Per-topic views of a publish sequence

  /** The events on the `products` topic, in publish order. */
  function ProductEvents(ms: seq<Message>): seq<Event<Product>> {
    if ms == [] then []
    else (if ms[0].ProductMessage? then [ms[0].productEvent] else []) + ProductEvents(ms[1..])
  }

  function RecommendationEvents(ms: seq<Message>): seq<Event<Recommendation>> {
    if ms == [] then []
    else (if ms[0].RecommendationMessage? then [ms[0].recommendationEvent] else []) + RecommendationEvents(ms[1..])
  }

  function ReviewEvents(ms: seq<Message>): seq<Event<Review>> {
    if ms == [] then []
    else (if ms[0].ReviewMessage? then [ms[0].reviewEvent] else []) + ReviewEvents(ms[1..])
  }

  /** Each topic view distributes over concatenation. */
  lemma {:induction false} ProductEventsAppend(a: seq<Message>, b: seq<Message>)
    ensures ProductEvents(a + b) == ProductEvents(a) + ProductEvents(b)
  {
    if a == [] {
      assert a + b == b;
    } else {
      assert (a + b)[0] == a[0];
      assert (a + b)[1..] == a[1..] + b;
      ProductEventsAppend(a[1..], b);
    }
  }

  lemma {:induction false} RecommendationEventsAppend(a: seq<Message>, b: seq<Message>)
    ensures RecommendationEvents(a + b) == RecommendationEvents(a) + RecommendationEvents(b)
  {
    if a == [] {
      assert a + b == b;
    } else {
      assert (a + b)[0] == a[0];
      assert (a + b)[1..] == a[1..] + b;
      RecommendationEventsAppend(a[1..], b);
    }
  }

  lemma {:induction false} ReviewEventsAppend(a: seq<Message>, b: seq<Message>)
    ensures ReviewEvents(a + b) == ReviewEvents(a) + ReviewEvents(b)
  {
    if a == [] {
      assert a + b == b;
    } else {
      assert (a + b)[0] == a[0];
      assert (a + b)[1..] == a[1..] + b;
      ReviewEventsAppend(a[1..], b);
    }
  }

  lemma TopicsAppend(a: seq<Message>, b: seq<Message>)
    ensures ProductEvents(a + b) == ProductEvents(a) + ProductEvents(b)
    ensures RecommendationEvents(a + b) == RecommendationEvents(a) + RecommendationEvents(b)
    ensures ReviewEvents(a + b) == ReviewEvents(a) + ReviewEvents(b)
  {
    ProductEventsAppend(a, b);
    RecommendationEventsAppend(a, b);
    ReviewEventsAppend(a, b);
  }

  /** A single message lands on its own topic only. */
  lemma SingleMessageTopics(m: Message)
    ensures ProductEvents([m]) == (if m.ProductMessage? then [m.productEvent] else [])
    ensures RecommendationEvents([m]) == (if m.RecommendationMessage? then [m.recommendationEvent] else [])
    ensures ReviewEvents([m]) == (if m.ReviewMessage? then [m.reviewEvent] else [])
  {
    assert [m][1..] == [];
  }

  // ---------------------------------------------------------------------
  // The events of a composite create

  function ProductCreateEvent(a: ProductAggregate, now: int): Event<Product> {
    Event(Create, a.productId, Some(Product(a.productId, a.name, a.weight, None)), now)
  }

  function RecommendationCreateEvent(productId: int, s: RecommendationSummary, now: int): Event<Recommendation> {
    Event(Create, productId, Some(Recommendation(productId, s.recommendationId, s.author, s.rate, s.content, None)), now)
  }

  function ReviewCreateEvent(productId: int, s: ReviewSummary, now: int): Event<Review> {
    Event(Create, productId, Some(Review(productId, s.reviewId, s.author, s.subject, s.content, None)), now)
  }

  /** One recommendation message per summary, in list order. */
  function RecommendationMessages(productId: int, ss: seq<RecommendationSummary>, now: int): (ms: seq<Message>)
    ensures |ms| == |ss|
    ensures forall i :: 0 <= i < |ss| ==> ms[i] == RecommendationMessage(RecommendationCreateEvent(productId, ss[i], now))
  {
    if ss == [] then []
    else [RecommendationMessage(RecommendationCreateEvent(productId, ss[0], now))] + RecommendationMessages(productId, ss[1..], now)
  }

  function ReviewMessages(productId: int, ss: seq<ReviewSummary>, now: int): (ms: seq<Message>)
    ensures |ms| == |ss|
    ensures forall i :: 0 <= i < |ss| ==> ms[i] == ReviewMessage(ReviewCreateEvent(productId, ss[i], now))
  {
    if ss == [] then []
    else [ReviewMessage(ReviewCreateEvent(productId, ss[0], now))] + ReviewMessages(productId, ss[1..], now)
  }

  /** A null list in the request is treated as an empty one. */
  function OrEmpty<T>(l: Option<seq<T>>): seq<T> {
    match l
    case None => []
    case Some(list) => list
  }

  /** `createCompositeProduct`: an id below 1 is invalid input and nothing is
      published; otherwise the messages of all three topics, all stamped `now`. */
  function CreateCompositeProduct(a: ProductAggregate, now: int): (r: Result<seq<Message>, Error>)
    ensures a.productId < 1 <==> r.Failure?
    ensures r.Failure? ==> r.error.InvalidInput?
    ensures r.Success? ==>
      |r.value| == 1 + |OrEmpty(a.recommendations)| + |OrEmpty(a.reviews)|
  {
    if a.productId < 1 then Failure(InvalidInput("Invalid productId: " + IntToString(a.productId)))
    else
      Success([ProductMessage(ProductCreateEvent(a, now))]
        + RecommendationMessages(a.productId, OrEmpty(a.recommendations), now)
        + ReviewMessages(a.productId, OrEmpty(a.reviews), now))
  }

  /** `deleteCompositeProduct`: one delete event without data per topic.
      The messages are listed products, recommendations, reviews. */
  function DeleteCompositeProduct(productId: int, now: int): (ms: seq<Message>)
    ensures |ms| == 3
    ensures ms[0].ProductMessage? && ms[1].RecommendationMessage? && ms[2].ReviewMessage?
  {
    [ ProductMessage(Event(Delete, productId, None, now)),
      RecommendationMessage(Event(Delete, productId, None, now)),
      ReviewMessage(Event(Delete, productId, None, now)) ]
  }

  /** The status a composite write is answered with. */
  function WriteStatus<T>(r: Result<T, Error>): int {
    if r.Success? then ACCEPTED else UNPROCESSABLE_ENTITY
  }

  lemma {:induction false} RecommendationMessagesTopics(productId: int, ss: seq<RecommendationSummary>, now: int)
    ensures ProductEvents(RecommendationMessages(productId, ss, now)) == []
    ensures ReviewEvents(RecommendationMessages(productId, ss, now)) == []
    ensures RecommendationEvents(RecommendationMessages(productId, ss, now))
      == seq(|ss|, i requires 0 <= i < |ss| => RecommendationCreateEvent(productId, ss[i], now))
  {
    if ss != [] {
      RecommendationMessagesTopics(productId, ss[1..], now);
      assert RecommendationMessages(productId, ss, now)[1..] == RecommendationMessages(productId, ss[1..], now);
    }
  }

  lemma {:induction false} ReviewMessagesTopics(productId: int, ss: seq<ReviewSummary>, now: int)
    ensures ProductEvents(ReviewMessages(productId, ss, now)) == []
    ensures RecommendationEvents(ReviewMessages(productId, ss, now)) == []
    ensures ReviewEvents(ReviewMessages(productId, ss, now))
      == seq(|ss|, i requires 0 <= i < |ss| => ReviewCreateEvent(productId, ss[i], now))
  {
    if ss != [] {
      ReviewMessagesTopics(productId, ss[1..], now);
      assert ReviewMessages(productId, ss, now)[1..] == ReviewMessages(productId, ss[1..], now);
    }
  }

  /** What each topic receives from a composite create: exactly one product
      event, and one create event per recommendation and per review carrying
      the summary's fields under the aggregate's productId. */
  lemma CreateTopics(a: ProductAggregate, now: int)
    requires a.productId >= 1
    ensures var ms := CreateCompositeProduct(a, now).value;
      var recs := OrEmpty(a.recommendations);
      var revs := OrEmpty(a.reviews);
      && ProductEvents(ms) == [ProductCreateEvent(a, now)]
      && |RecommendationEvents(ms)| == |recs|
      && (forall i :: 0 <= i < |recs| ==> RecommendationEvents(ms)[i] == RecommendationCreateEvent(a.productId, recs[i], now))
      && |ReviewEvents(ms)| == |revs|
      && (forall i :: 0 <= i < |revs| ==> ReviewEvents(ms)[i] == ReviewCreateEvent(a.productId, revs[i], now))
  {
    var head := [ProductMessage(ProductCreateEvent(a, now))];
    var recs := RecommendationMessages(a.productId, OrEmpty(a.recommendations), now);
    var revs := ReviewMessages(a.productId, OrEmpty(a.reviews), now);
    TopicsAppend(head + recs, revs);
    TopicsAppend(head, recs);
    assert ProductEvents(head) == [ProductCreateEvent(a, now)] by {
      assert head[1..] == [];
    }
    assert RecommendationEvents(head) == [] && ReviewEvents(head) == [] by {
      assert head[1..] == [];
    }
    RecommendationMessagesTopics(a.productId, OrEmpty(a.recommendations), now);
    ReviewMessagesTopics(a.productId, OrEmpty(a.reviews), now);
  }

  /** What each topic receives from a composite delete. */
  lemma DeleteTopics(productId: int, now: int)
    ensures var ms := DeleteCompositeProduct(productId, now);
      && ProductEvents(ms) == [Event(Delete, productId, None, now)]
      && RecommendationEvents(ms) == [Event(Delete, productId, None, now)]
      && ReviewEvents(ms) == [Event(Delete, productId, None, now)]
  {
    var ms := DeleteCompositeProduct(productId, now);
    assert ms == [ms[0]] + [ms[1]] + [ms[2]];
    TopicsAppend([ms[0]] + [ms[1]], [ms[2]]);
    TopicsAppend([ms[0]], [ms[1]]);
    SingleMessageTopics(ms[0]);
    SingleMessageTopics(ms[1]);
    SingleMessageTopics(ms[2]);
  }

  // ---------------------------------------------------------------------
  // Event equality ignoring the creation time

  /** An event with `eventCreatedAt` removed: the map the matcher compares. */
  datatype EventFields<V> = EventFields(eventType: EventType, key: int, data: Option<V>)

  function WithoutCreatedAt<V>(e: Event<V>): EventFields<V> {
    EventFields(e.eventType, e.key, e.data)
  }

  /** `matchesSafely`: a null expectation never matches; otherwise the actual
      and the expected event agree once both lose their creation time. */
  predicate SameEventExceptCreatedAt<V(==)>(expected: Option<Event<V>>, actual: Event<V>)
    ensures SameEventExceptCreatedAt(expected, actual) <==>
      expected.Some? && expected.value.eventType == actual.eventType
      && expected.value.key == actual.key && expected.value.data == actual.data
  {
    expected.Some? && WithoutCreatedAt(actual) == WithoutCreatedAt(expected.value)
  }

  lemma NullNeverMatches<V>(actual: Event<V>)
    ensures !SameEventExceptCreatedAt(None, actual)
  {
  }

  /** Two events match exactly when the actual event is the expected one
      with another creation time. */
  lemma SameEventCharacterized<V>(expected: Event<V>, actual: Event<V>)
    ensures SameEventExceptCreatedAt(Some(expected), actual) <==>
      actual == expected.(eventCreatedAt := actual.eventCreatedAt)
  {
  }

  lemma OnlyCreatedAtDiffers<V>(e: Event<V>, otherTime: int)
    ensures SameEventExceptCreatedAt(Some(e), e.(eventCreatedAt := otherTime))
  {
  }

  lemma MatchIsEquivalence<V>(a: Event<V>, b: Event<V>, c: Event<V>)
    ensures SameEventExceptCreatedAt(Some(a), a)
    ensures SameEventExceptCreatedAt(Some(a), b) ==> SameEventExceptCreatedAt(Some(b), a)
    ensures SameEventExceptCreatedAt(Some(a), b) && SameEventExceptCreatedAt(Some(b), c) ==> SameEventExceptCreatedAt(Some(a), c)
  {
  }

  // ---------------------------------------------------------------------
  // The messaging test scenarios

  /** A composite without lists: accepted, one product event, nothing else. */
  lemma CreateWithoutListsScenario(now: int)
    ensures var composite := ProductAggregate(1, "name", 1, None, None, None);
      var r := CreateCompositeProduct(composite, now);
      && WriteStatus(r) == ACCEPTED
      && |ProductEvents(r.value)| == 1
      && SameEventExceptCreatedAt(Some(Event(Create, 1, Some(Product(1, "name", 1, None)), 0)), ProductEvents(r.value)[0])
      && |RecommendationEvents(r.value)| == 0
      && |ReviewEvents(r.value)| == 0
  {
    CreateTopics(ProductAggregate(1, "name", 1, None, None, None), now);
  }

  /** A composite with one recommendation and one review: one event per topic. */
  lemma CreateWithListsScenario(now: int)
    ensures var composite := ProductAggregate(1, "name", 1,
        Some([RecommendationSummary(1, "a", 1, Some("c"))]),
        Some([ReviewSummary(1, "a", "s", Some("c"))]), None);
      var r := CreateCompositeProduct(composite, now);
      && WriteStatus(r) == ACCEPTED
      && |ProductEvents(r.value)| == 1
      && SameEventExceptCreatedAt(Some(Event(Create, 1, Some(Product(1, "name", 1, None)), 0)), ProductEvents(r.value)[0])
      && |RecommendationEvents(r.value)| == 1
      && SameEventExceptCreatedAt(Some(Event(Create, 1, Some(Recommendation(1, 1, "a", 1, Some("c"), None)), 0)), RecommendationEvents(r.value)[0])
      && |ReviewEvents(r.value)| == 1
      && SameEventExceptCreatedAt(Some(Event(Create, 1, Some(Review(1, 1, "a", "s", Some("c"), None)), 0)), ReviewEvents(r.value)[0])
  {
    CreateTopics(ProductAggregate(1, "name", 1,
        Some([RecommendationSummary(1, "a", 1, Some("c"))]),
        Some([ReviewSummary(1, "a", "s", Some("c"))]), None), now);
  }

  /** Deleting composite 1: accepted, one data-less delete event per topic. */
  lemma DeleteScenario(now: int)
    ensures var ms := DeleteCompositeProduct(1, now);
      && WriteStatus(Success(ms)) == ACCEPTED
      && |ProductEvents(ms)| == 1 && SameEventExceptCreatedAt(Some(Event(Delete, 1, None, 0)), ProductEvents(ms)[0])
      && |RecommendationEvents(ms)| == 1 && SameEventExceptCreatedAt(Some(Event(Delete, 1, None, 0)), RecommendationEvents(ms)[0])
      && |ReviewEvents(ms)| == 1 && SameEventExceptCreatedAt(Some(Event(Delete, 1, None, 0)), ReviewEvents(ms)[0])
  {
    DeleteTopics(1, now);
  }

  // ---------------------------------------------------------------------
  // Round trips through the write and read paths

  /** Publishing a composite and letting the product consumer apply its
      product event makes a fault-free read return the published fields. */
  lemma WriteConsumeRead(s: StoreContract.ProductStore, a: ProductAggregate, now: int,
                         draw: ProductService.Draw, serviceAddress: string)
    requires a.productId >= 1 && a.productId !in s
    ensures var event := ProductEvents(CreateCompositeProduct(a, now).value)[0];
      var applied := MessageProcessor.ProcessEvent(s, event);
      && applied.result.Success?
      && ProductService.GetProduct(applied.state, a.productId, 0, draw, serviceAddress)
           == Success(Product(a.productId, a.name, a.weight, Some(serviceAddress)))
  {
    CreateTopics(a, now);
    var product := Product(a.productId, a.name, a.weight, None);
    MessageProcessor.CreateEventIsCreateProduct(s, product, a.productId, now);
    ProductService.CreateThenGet(s, product, draw, serviceAddress);
  }

  /** Posting back an aggregate obtained from the read path republishes the
      recommendations' ids, authors and rates but not their content, which
      the read path does not copy into summaries. */
  lemma ReadThenWriteDropsContent(p: Product, recommendations: seq<Recommendation>,
                                  reviews: seq<Review>, serviceAddress: string, now: int)
    requires p.productId >= 1
    ensures var a := CompositeService.CreateProductAggregate(p, Some(recommendations), Some(reviews), serviceAddress);
      var events := RecommendationEvents(CreateCompositeProduct(a, now).value);
      && |events| == |recommendations|
      && forall i :: 0 <= i < |recommendations| ==>
           events[i].data == Some(Recommendation(p.productId, recommendations[i].recommendationId,
                                                 recommendations[i].author, recommendations[i].rate, None, None))
  {
    var a := CompositeService.CreateProductAggregate(p, Some(recommendations), Some(reviews), serviceAddress);
    CreateTopics(a, now);
  }
}
