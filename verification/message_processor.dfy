/** The product service's event consumer: a CREATE event creates the
    product it carries, a DELETE event deletes the product under its key, and
    any other event type is a processing error. The service's failure is the
    consumer's failure, so the channel can redeliver the event. */
module MessageProcessor {
  import opened Outcomes
  import opened Api
  import opened StoreContract
  import opened ProductService

  function IncorrectEventType(t: EventType): Error {
    EventProcessing("Incorrect event type: " + EventTypeName(t) + ", expected a CREATE or DELETE event")
  }

  /** The same response with the returned value dropped. */
  function Discard<T>(r: Response<ProductStore, T>): (d: Response<ProductStore, ()>)
    ensures d.state == r.state
    ensures d.result.Success? <==> r.result.Success?
    ensures d.result.Failure? ==> d.result.error == r.result.error
  {
    match r.result
    case Success(_) => Response(r.state, Success(()))
    case Failure(e) => Response(r.state, Failure(e))
  }

  /** Processing one event against the product store. A CREATE event without
      data fails as the dereference of the missing product does. */
  function ProcessEvent(s: ProductStore, event: Event<Product>): (r: Response<ProductStore, ()>)
    ensures event.eventType.Unrecognized? ==> r == Response(s, Failure(IncorrectEventType(event.eventType)))
    ensures event.eventType.Create? && event.data.None? ==> r.state == s && r.result.Failure?
  {
    match event.eventType
    case Create =>
      (match event.data
       case None => Response(s, Failure(Unexpected("NullPointerException")))
       case Some(product) => Discard(CreateProduct(s, product)))
    case Delete => DeleteProduct(s, event.key)
    case Unrecognized(_) => Response(s, Failure(IncorrectEventType(event.eventType)))
  }

  /** A CREATE event has the effect of calling `createProduct` with its data
      directly: the same store afterwards, and success exactly when that call
      succeeds, with its error otherwise. */
  lemma CreateEventIsCreateProduct(s: ProductStore, product: Product, key: int, createdAt: int)
    ensures var r := ProcessEvent(s, Event(Create, key, Some(product), createdAt));
      var direct := CreateProduct(s, product);
      && r.state == direct.state
      && (r.result.Success? <==> direct.result.Success?)
      && (r.result.Failure? ==> r.result.error == direct.result.error)
  {
  }

  /** A DELETE event deletes by its key whatever data it carries. */
  lemma DeleteEventIsDeleteProduct(s: ProductStore, key: int, data: Option<Product>, createdAt: int)
    ensures ProcessEvent(s, Event(Delete, key, data, createdAt)) == DeleteProduct(s, key)
  {
  }

  /** Failures of the service are never turned into success: a duplicate
      CREATE and a DELETE with an invalid key fail, and leave the store as it was. */
  lemma ServiceFailuresPropagate(s: ProductStore, product: Product, key: int, createdAt: int)
    ensures product.productId >= 1 && product.productId in s ==>
      ProcessEvent(s, Event(Create, key, Some(product), createdAt)) == Response(s, Failure(DuplicateProduct(product.productId)))
    ensures product.productId < 1 ==>
      ProcessEvent(s, Event(Create, key, Some(product), createdAt)) == Response(s, Failure(ProductService.InvalidProductId(product.productId)))
    ensures key < 1 ==>
      ProcessEvent(s, Event(Delete, key, None, createdAt)) == Response(s, Failure(ProductService.InvalidProductId(key)))
  {
  }

  /** Processing succeeds only for a CREATE or DELETE event, and then the
      product the event names is present after a CREATE and absent after a DELETE. */
  lemma SuccessMeansApplied(s: ProductStore, event: Event<Product>)
    ensures ProcessEvent(s, event).result.Success? ==>
      || (event.eventType.Create? && event.data.Some? && event.data.value.productId in ProcessEvent(s, event).state)
      || (event.eventType.Delete? && event.key !in ProcessEvent(s, event).state)
  {
  }

  /** Redelivery: a DELETE processed twice has the effect of processing it
      once; a CREATE processed a second time fails with the duplicate-key error
      and changes nothing. */
  lemma Redelivery(s: ProductStore, event: Event<Product>)
    ensures event.eventType.Delete? ==>
      ProcessEvent(ProcessEvent(s, event).state, event) == ProcessEvent(s, event)
    ensures event.eventType.Create? && ProcessEvent(s, event).result.Success? ==>
      var s1 := ProcessEvent(s, event).state;
      ProcessEvent(s1, event) == Response(s1, Failure(DuplicateProduct(event.data.value.productId)))
  {
  }
}
