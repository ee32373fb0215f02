/** The product service: validation of the product id, creation with the
    store's duplicate-key error turned into invalid input, lookup with
    injected faults, and idempotent deletion. */
module ProductService {
  import opened Outcomes
  import opened Decimal
  import opened Api
  import opened Entities
  import opened VersionedStore
  import opened StoreContract

  /** The random threshold `new Random().nextInt(100 - 1) + 1`, one of 1..99. */
  type Draw = d: int | 1 <= d <= 99 witness 1

  function InvalidProductId(productId: int): Error {
    InvalidInput("Invalid productId: " + IntToString(productId))
  }

  function DuplicateProduct(productId: int): Error {
    InvalidInput("Duplicate key, product id: " + IntToString(productId))
  }

  /** `createProduct`: rejects an id below 1 before touching the store, and
      reports a taken id as invalid input; on success the product is stored
      at version 0. */
  function CreateProduct(s: ProductStore, body: Product): (r: Response<ProductStore, Product>)
    ensures body.productId < 1 ==> r == Response(s, Failure(InvalidProductId(body.productId)))
    ensures body.productId >= 1 && body.productId in s ==> r == Response(s, Failure(DuplicateProduct(body.productId)))
    ensures r.result.Success? <==> body.productId >= 1 && body.productId !in s
    ensures r.result.Success? ==>
      && r.state == s[body.productId := Stored(ProductEntity(body.productId, body.name, body.weight), 0)]
      && r.result.value == body.(serviceAddress := None)
  {
    if body.productId < 1 then Response(s, Failure(InvalidProductId(body.productId)))
    else
      match SaveProduct(s, ProductToEntity(body), None)
      case Success(saved) => Response(saved.store, Success(ProductFromEntity(saved.entity.value)))
      case Failure(_) => Response(s, Failure(DuplicateProduct(body.productId)))
  }

  /** `throwErrorIfBadLuck`: no fault when the fault percentage is 0,
      otherwise a fault unless the percentage is below the draw. */
  predicate IsBadLuck(faultPercent: int, draw: Draw)
    ensures IsBadLuck(faultPercent, draw) <==> faultPercent != 0 && faultPercent >= draw
  {
    if faultPercent == 0 then false
    else !(faultPercent < draw)
  }

  /** `getProduct`: an id below 1 is invalid; an absent product is not found
      (no draw is consulted); a present one is returned with this instance's
      address unless the draw injects a fault. The store is only read. */
  function GetProduct(s: ProductStore, productId: int, faultPercent: int, draw: Draw, serviceAddress: string): (r: Result<Product, Error>)
    ensures productId < 1 ==> r == Failure(InvalidProductId(productId))
    ensures productId >= 1 && productId !in s ==> r == Failure(NotFound("No product found for id: " + IntToString(productId)))
    ensures r.Success? <==> productId >= 1 && productId in s && !IsBadLuck(faultPercent, draw)
    ensures r.Success? ==>
      && (ProductKeysMatch(s) ==> r.value.productId == productId)
      && r.value.name == s[productId].value.name
      && r.value.weight == s[productId].value.weight
      && r.value.serviceAddress == Some(serviceAddress)
    ensures r.Failure? && productId >= 1 && productId in s ==> r.error == Unexpected("Something went wrong...")
  {
    if productId < 1 then Failure(InvalidProductId(productId))
    else
      match Find(s, productId)
      case None => Failure(NotFound("No product found for id: " + IntToString(productId)))
      case Some(found) =>
        if IsBadLuck(faultPercent, draw) then Failure(Unexpected("Something went wrong..."))
        else Success(ProductFromEntity(found.value).(serviceAddress := Some(serviceAddress)))
  }

  /** `deleteProduct`: an id below 1 is invalid; otherwise the product is
      removed if present and nothing happens if absent. */
  function DeleteProduct(s: ProductStore, productId: int): (r: Response<ProductStore, ()>)
    ensures productId < 1 ==> r == Response(s, Failure(InvalidProductId(productId)))
    ensures productId >= 1 ==> r.result.Success?
    ensures productId >= 1 ==> productId !in r.state && r.state.Keys == s.Keys - {productId}
    ensures forall k :: k in r.state ==> r.state[k] == s[k]
    ensures productId !in s ==> r.state == s
  {
    if productId < 1 then Response(s, Failure(InvalidProductId(productId)))
    else Response(VersionedStore.Delete(s, productId), Success(()))
  }

  // ----- Fault injection -----

  /** With a fault percentage of 0 no draw faults. */
  lemma NoFaultAtZero(draw: Draw)
    ensures !IsBadLuck(0, draw)
  {
  }

  /** A percentage of 99 or more always faults, a negative one never does. */
  lemma FaultExtremes(faultPercent: int, draw: Draw)
    ensures faultPercent >= 99 ==> IsBadLuck(faultPercent, draw)
    ensures faultPercent < 0 ==> !IsBadLuck(faultPercent, draw)
  {
  }

  /** How many of the draws 1..n inject a fault. */
  function FaultingDraws(faultPercent: int, n: nat): nat
    requires n <= 99
  {
    if n == 0 then 0
    else FaultingDraws(faultPercent, n - 1) + (if IsBadLuck(faultPercent, n) then 1 else 0)
  }

  /** `faultPercent` clamped to 0..n. */
  function Clamp(faultPercent: int, n: nat): nat {
    if faultPercent <= 0 then 0 else if faultPercent >= n then n else faultPercent
  }

  /** Of the draws 1..n, exactly the first `faultPercent` (clamped) fault. */
  lemma {:induction false} FaultingDrawsCount(faultPercent: int, n: nat)
    requires n <= 99
    ensures FaultingDraws(faultPercent, n) == Clamp(faultPercent, n)
    decreases n
  {
    if n > 0 {
      FaultingDrawsCount(faultPercent, n - 1);
    }
  }

  /** Of the 99 equally likely draws, `faultPercent` clamped to 0..99 fault:
      the fault probability is that number over 99. */
  lemma FaultFrequency(faultPercent: int)
    ensures FaultingDraws(faultPercent, 99) == Clamp(faultPercent, 99)
  {
    FaultingDrawsCount(faultPercent, 99);
  }

  // ----- Relations between the operations -----

  /** A product created and then read back without faults has the created
      fields and this instance's address. */
  lemma CreateThenGet(s: ProductStore, body: Product, draw: Draw, serviceAddress: string)
    requires body.productId >= 1 && body.productId !in s
    ensures CreateProduct(s, body).result.Success?
    ensures GetProduct(CreateProduct(s, body).state, body.productId, 0, draw, serviceAddress)
      == Success(body.(serviceAddress := Some(serviceAddress)))
  {
  }

  /** A second create of the same product fails and changes nothing. */
  lemma CreateTwiceRejected(s: ProductStore, body: Product)
    requires body.productId >= 1 && body.productId !in s
    ensures var first := CreateProduct(s, body);
      CreateProduct(first.state, body) == Response(first.state, Failure(DuplicateProduct(body.productId)))
  {
  }

  /** Deleting twice is the same as deleting once. */
  lemma DeleteIdempotent(s: ProductStore, productId: int)
    ensures DeleteProduct(DeleteProduct(s, productId).state, productId) == DeleteProduct(s, productId)
  {
  }

  /** After a delete the product is not found. */
  lemma DeleteThenGet(s: ProductStore, productId: int, faultPercent: int, draw: Draw, serviceAddress: string)
    requires productId >= 1
    ensures GetProduct(DeleteProduct(s, productId).state, productId, faultPercent, draw, serviceAddress).error.NotFound?
  {
  }

  /** Every operation keeps each product under its own productId. */
  lemma OperationsKeepKeys(s: ProductStore, body: Product, productId: int)
    requires ProductKeysMatch(s)
    ensures ProductKeysMatch(CreateProduct(s, body).state)
    ensures ProductKeysMatch(DeleteProduct(s, productId).state)
  {
  }
}
