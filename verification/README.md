# Product aggregate domain, modelled in Dafny

This project models the product-aggregate core of a set of Spring microservices:

- a product service, a recommendation service and a review service, each owning its entities;
- a composite service that assembles a `ProductAggregate` from them on reads;
- event topics that carry composite writes to the services.

Everything is modelled as immutable datatypes and pure functions. A repository is a map from an entity's natural key to the entity and its optimistic-locking version. HTTP outcomes are an error datatype. The random fault draw is an input.

Modules, one per component:

- `Outcomes`: `Option`, `Result`, the error taxonomy (invalid input, not found, event processing, a rethrown HTTP failure, an unexpected runtime error), and a `Response` pairing a store with a result.
- `Decimal`: Java's rendering of an `int` in string concatenation, used in URLs and error messages, with its parse round trip.
- `SortedSets`: the ascending order of a set of keys, used for paging and for listing the entities of one product.
- `Api`, `Entities`: the API records, the aggregate, the event envelope, the persisted entities and their mappers.
- `VersionedStore`: the repository contract.
  - `save` inserts at version 0 or updates from the stored version to the next one.
  - It fails with a duplicate-key or optimistic-lock error.
  - Also modelled: `findByProductId`, `delete`, `deleteAll(findByProductId)`, and `findAll` with page requests sorted by key.
- `StoreContract`: the contract for any store, and every scenario of the product and review persistence tests.
- `ProductService`, `RecommendationService`: validation of the product id, the duplicate-key remapping, lookup, idempotent deletion, and the fault-injection decision.
- `MessageProcessor`: the product service's event consumer.
- `Integration`: the composite's client for the three backends.
  - It builds the URLs.
  - It maps product-call failures by HTTP status.
  - Recommendation and review calls degrade to empty lists.
- `CompositeService`: the read path and aggregate assembly.
- `CompositeEvents`: the composite write path as per-topic event lists, and the test matcher that compares events while ignoring `eventCreatedAt`.

Behaviour reproduced as the code has it, not as it was perhaps meant:

- The backend client's constructor builds its review URL from the recommendation service's host, port and path, and its recommendation URL from the review service's (`Integration.SatelliteUrlsCrossed`).
- A product the backend returns as JSON `null` fails with a null dereference in the debug log line. So the composite's own null check is reached only when the lookup is given as an input (`CompositeService.GetProductAggregate`).
- A satellite list that comes back as `null` fails in the same way. That failure is caught, and the list becomes empty.
- The read-path summaries are built with the three-argument constructors. They carry no `content`, so posting a read aggregate back loses the content (`CompositeEvents.ReadThenWriteDropsContent`).

Two details of the code that the model keeps:

- `getProductAggregate` calls the product backend first and calls the two satellites one after the other, only once a product was found (ProductCompositeServiceImpl.java, lines 32-43). There is no concurrent fan-out, and the model orders the calls the same way.
- `throwErrorIfBadLuck` returns at once when `faultPercent == 0`, and otherwise faults unless `faultPercent < draw` (ProductServiceImpl.java, lines 72-85). So a fault happens exactly when the percentage is non-zero and at least the draw (`ProductService.IsBadLuck`).

The implementation of the composite's write endpoints, `createCompositeProduct` and `deleteCompositeProduct`, is not part of this model. Only their interface (ProductCompositeService.java) and MessagingTests.java are. `CompositeEvents` states the behaviour those tests check:

- a create publishes one product event, one recommendation event per recommendation and one review event per review, each on its own topic;
- a delete publishes one delete event on each of the three topics;
- both answer 202 Accepted.

Beyond what the tests check, a create rejects an id below 1 in the way every core service's create does (ProductServiceImpl.java, lines 40-42).

## Model

| member | source | states |
|---|---|---|
| Decimal.IntToString | microservices/product-service/src/main/java/com/mkurt/productservice/service/ProductServiceImpl.java:41-42 | the text of an int as Java concatenates it: non-empty, all digits exactly for non-negative values, a leading minus exactly for negative ones |
| Decimal.NatRoundTrip | microservices/product-service/src/main/java/com/mkurt/productservice/service/ProductServiceImpl.java:58 | reading back the decimal text of a natural number gives the number |
| Decimal.IntRoundTrip | microservices/product-service/src/main/java/com/mkurt/productservice/service/ProductServiceImpl.java:58 | reading back the text of any int, sign included, gives the int, so error messages and URLs determine the id they mention |
| Decimal.IntToStringInjective | microservices/product-service/src/main/java/com/mkurt/productservice/service/ProductServiceImpl.java:66 | two different ids never render to the same text |
| Decimal.PrefixedIntInjective | microservices/product-composite-service/src/main/java/com/mkurt/productcompositeservice/service/ProductCompositeIntegration.java:59 | a fixed prefix followed by two different ids gives two different strings |
| SortedSets.SortedElements | microservices/product-service/src/test/java/com/mkurt/productservice/PersistenceTests.java:134 | the ascending order of a set of keys: strictly increasing, same size, and exactly the set's members |
| SortedSets.SortedElementsUnique | microservices/product-service/src/test/java/com/mkurt/productservice/PersistenceTests.java:134 | any strictly increasing listing of a set is that ascending order, so the order is unique |
| SortedSets.SortedRange | microservices/product-service/src/test/java/com/mkurt/productservice/PersistenceTests.java:129-131 | the ascending order of the ids 1001..1010 is the run 1001, 1002, ..., 1010 |
| Entities.ProductMapperRoundTrip | microservices/product-service/src/main/java/com/mkurt/productservice/service/ProductServiceImpl.java:45-51 | mapping a product to its entity and back loses only the service address, and entity-to-api-to-entity is the identity |
| Entities.RecommendationMapperRoundTrip | microservices/recommendation-service/src/main/java/com/mkurt/recommendationservice/service/RecommendationServiceImpl.java:45-53 | mapping a recommendation to its entity and back loses only the service address (rate is stored as rating) |
| VersionedStore.Save | microservices/product-service/src/test/java/com/mkurt/productservice/PersistenceTests.java:63-72 | a new entity is inserted at version 0 unless its key is taken (duplicate key); an update succeeds only from the stored version, which then goes up by one, otherwise optimistic-lock failure; nothing but the saved key changes |
| VersionedStore.Find | microservices/product-service/src/test/java/com/mkurt/productservice/PersistenceTests.java:80-86 | lookup by natural key finds exactly the stored entities |
| VersionedStore.Delete | microservices/product-service/src/test/java/com/mkurt/productservice/PersistenceTests.java:74-78 | delete removes exactly the given key, keeps all other entries, and is a no-op on an absent key |
| VersionedStore.SubIds | microservices/review-service/src/test/java/com/mkurt/reviewservice/PersistenceTests.java:81-87 | the second ids stored for a product are exactly those whose pair key is present |
| VersionedStore.KeysOf | microservices/review-service/src/test/java/com/mkurt/reviewservice/PersistenceTests.java:81-87 | the keys of one product: every stored key of that product and no other, in ascending second id |
| VersionedStore.FindByProductId | microservices/review-service/src/test/java/com/mkurt/reviewservice/PersistenceTests.java:83-86 | findByProductId returns one stored entity per key of the product, in key order |
| VersionedStore.DeleteByProductId | microservices/recommendation-service/src/main/java/com/mkurt/recommendationservice/service/RecommendationServiceImpl.java:83 | deleteAll(findByProductId(p)) removes every entity of product p and keeps every other entry unchanged |
| VersionedStore.SliceIncreasing | microservices/product-service/src/test/java/com/mkurt/productservice/PersistenceTests.java:134 | a contiguous part of an ascending key list is ascending |
| VersionedStore.Window | microservices/product-service/src/test/java/com/mkurt/productservice/PersistenceTests.java:140-145 | the items of one page window: the right count (full, partial or none) taken in order from the sorted keys |
| VersionedStore.PageKeys | microservices/product-service/src/test/java/com/mkurt/productservice/PersistenceTests.java:134-137 | the keys on page n of size k are the sorted keys from position n*k on, at most k of them, ascending and all stored |
| VersionedStore.FindAllPage | microservices/product-service/src/test/java/com/mkurt/productservice/PersistenceTests.java:140-145 | a page holds the entities of its keys in key order, and hasNext holds exactly when the following page is non-empty |
| VersionedStore.OffsetIsProduct | microservices/product-service/src/test/java/com/mkurt/productservice/PersistenceTests.java:134 | the first item of page n of size k is at position n*k, as a page request computes its offset |
| VersionedStore.OffsetStep | microservices/product-service/src/test/java/com/mkurt/productservice/PersistenceTests.java:144 | each later page starts at least one page size after an earlier one |
| VersionedStore.PagesAscend | microservices/product-service/src/test/java/com/mkurt/productservice/PersistenceTests.java:135-137 | every key on an earlier page is smaller than every key on a later page, so pages never overlap |
| StoreContract.SaveNewIsFound | microservices/product-service/src/test/java/com/mkurt/productservice/PersistenceTests.java:52-61 | a new entity under a free key is found afterwards at version 0 and the entity count grows by one |
| StoreContract.DuplicateRejected | microservices/product-service/src/test/java/com/mkurt/productservice/PersistenceTests.java:89-94 | saving a new entity under a taken natural key fails with the duplicate-key error |
| StoreContract.UpdateBumpsVersion | microservices/product-service/src/test/java/com/mkurt/productservice/PersistenceTests.java:64-72 | an update from the current version stores the new value one version up without changing the count |
| StoreContract.StaleUpdateRejected | microservices/product-service/src/test/java/com/mkurt/productservice/PersistenceTests.java:101-122 | of two writers that read the same version the first wins, the second gets the optimistic-lock error, and the first writer's value stays at the next version |
| StoreContract.DeletedNotFound | microservices/product-service/src/test/java/com/mkurt/productservice/PersistenceTests.java:75-78 | after a delete the key is not found and every other key is found as before |
| StoreContract.ProductSetup | microservices/product-service/src/test/java/com/mkurt/productservice/PersistenceTests.java:41-47 | the test fixture store holds the one saved product at version 0 |
| StoreContract.ProductCreateScenario | microservices/product-service/src/test/java/com/mkurt/productservice/PersistenceTests.java:52-61 | product 2 is found with equal fields at version 0 and the count is 2 |
| StoreContract.ProductUpdateScenario | microservices/product-service/src/test/java/com/mkurt/productservice/PersistenceTests.java:64-72 | after renaming to "n2" the product is at version 1 with the new name |
| StoreContract.ProductDeleteScenario | microservices/product-service/src/test/java/com/mkurt/productservice/PersistenceTests.java:75-78 | the deleted product no longer exists |
| StoreContract.ProductFindScenario | microservices/product-service/src/test/java/com/mkurt/productservice/PersistenceTests.java:81-86 | findByProductId finds the saved product with equal fields |
| StoreContract.ProductDuplicateScenario | microservices/product-service/src/test/java/com/mkurt/productservice/PersistenceTests.java:89-94 | a second product with productId 1 is a duplicate-key error |
| StoreContract.ProductOptimisticLockScenario | microservices/product-service/src/test/java/com/mkurt/productservice/PersistenceTests.java:101-122 | the second stale rename fails and the stored product is "n1" at version 1 |
| StoreContract.SaveAllNew | microservices/product-service/src/test/java/com/mkurt/productservice/PersistenceTests.java:132 | a batch is saved in order and stops at the first product whose id is already taken, reporting a duplicate key; whatever stops it, the store keeps every earlier entry, holds each product saved before the stop under its productId at version 0, and holds nothing else |
| StoreContract.SaveAllNewSucceeds | microservices/product-service/src/test/java/com/mkurt/productservice/PersistenceTests.java:132 | a batch is saved whole exactly when its ids are pairwise distinct and none is already stored |
| StoreContract.PartialBatchScenario | microservices/product-service/src/test/java/com/mkurt/productservice/PersistenceTests.java:132 | a batch stopped by a duplicate in second place leaves its first product saved at version 0 and never saves its third |
| StoreContract.SaveAllNewAdds | microservices/product-service/src/test/java/com/mkurt/productservice/PersistenceTests.java:132 | saving a batch of new products with distinct ids succeeds and the store holds exactly the old keys plus the batch ids, each product under its own id |
| StoreContract.PagingProducts | microservices/product-service/src/test/java/com/mkurt/productservice/PersistenceTests.java:129-131 | the paging fixture is ten products with ids 1001..1010 |
| StoreContract.PagingProductsFresh | microservices/product-service/src/test/java/com/mkurt/productservice/PersistenceTests.java:129-132 | the ten products of the paging test have distinct ids, so they are saved whole into the emptied store |
| StoreContract.PageProductIds | microservices/product-service/src/test/java/com/mkurt/productservice/PersistenceTests.java:142 | the id list of a page holds the productId of each entity of the page, position by position |
| StoreContract.PageIdsAreKeys | microservices/product-service/src/test/java/com/mkurt/productservice/PersistenceTests.java:142 | on a store keyed by productId the ids listed on a page are the page's keys |
| StoreContract.PagingStoreKeys | microservices/product-service/src/test/java/com/mkurt/productservice/PersistenceTests.java:127-132 | after saving the fixture into an emptied store its sorted keys are exactly 1001..1010 |
| StoreContract.PageOfConsecutiveKeys | microservices/product-service/src/test/java/com/mkurt/productservice/PersistenceTests.java:140-145 | with consecutive keys, a page is the run of ids starting at its offset |
| StoreContract.PagingPageLength | microservices/product-service/src/test/java/com/mkurt/productservice/PersistenceTests.java:135-137 | of ten items in pages of 4, pages 0 and 1 hold 4 and page 2 holds 2, and only pages 0 and 1 have a non-empty successor |
| StoreContract.PagingPage | microservices/product-service/src/test/java/com/mkurt/productservice/PersistenceTests.java:134-137 | page n of size 4 of the fixture holds 4 ids (2 on the last page) starting at 1001+4n, and has a next page exactly for n < 2 |
| StoreContract.PagingRanges | microservices/product-service/src/test/java/com/mkurt/productservice/PersistenceTests.java:135-137 | the three expected id lists of the paging test written as runs |
| StoreContract.PagingScenario | microservices/product-service/src/test/java/com/mkurt/productservice/PersistenceTests.java:125-138 | pages of 4 give [1001..1004], [1005..1008], [1009, 1010] with hasNext true, true, false |
| StoreContract.ReviewSetup | microservices/review-service/src/test/java/com/mkurt/reviewservice/PersistenceTests.java:43-49 | the review fixture store holds review (1, 2) at version 0 |
| StoreContract.ReviewCreateScenario | microservices/review-service/src/test/java/com/mkurt/reviewservice/PersistenceTests.java:53-63 | review (1, 3) coexists with review (1, 2) and the count is 2 |
| StoreContract.ReviewUpdateScenario | microservices/review-service/src/test/java/com/mkurt/reviewservice/PersistenceTests.java:65-73 | after changing the author the review is at version 1 with author "a2" |
| StoreContract.ReviewDeleteScenario | microservices/review-service/src/test/java/com/mkurt/reviewservice/PersistenceTests.java:75-79 | the deleted review no longer exists |
| StoreContract.ReviewFindByProductIdScenario | microservices/review-service/src/test/java/com/mkurt/reviewservice/PersistenceTests.java:81-87 | the reviews of product 1 are exactly the one saved review |
| StoreContract.ReviewDuplicateScenario | microservices/review-service/src/test/java/com/mkurt/reviewservice/PersistenceTests.java:89-96 | a second review with key (1, 2) is rejected |
| StoreContract.ReviewOptimisticLockScenario | microservices/review-service/src/test/java/com/mkurt/reviewservice/PersistenceTests.java:98-120 | the stale author change fails and the stored review has author "a1" at version 1 |
| StoreContract.FindByProductIdExact | microservices/review-service/src/test/java/com/mkurt/reviewservice/PersistenceTests.java:81-87 | a stored entity is listed by findByProductId(p) if and only if it belongs to p |
| ProductService.CreateProduct | microservices/product-service/src/main/java/com/mkurt/productservice/service/ProductServiceImpl.java:38-52 | an id below 1 is invalid input before the store is touched; a taken id is invalid input "Duplicate key" with the store unchanged; otherwise the product is stored at version 0 and returned without address |
| ProductService.GetProduct | microservices/product-service/src/main/java/com/mkurt/productservice/service/ProductServiceImpl.java:55-70 | an id below 1 is invalid input; an absent id is not found; a present product is returned with its stored fields and this instance's address, unless the draw injects a fault |
| ProductService.DeleteProduct | microservices/product-service/src/main/java/com/mkurt/productservice/service/ProductServiceImpl.java:93-104 | an id below 1 is invalid input; otherwise success, with exactly that product removed and nothing else changed, and no change when absent |
| ProductService.NoFaultAtZero | microservices/product-service/src/main/java/com/mkurt/productservice/service/ProductServiceImpl.java:73-74 | with faultPercent 0 no draw faults |
| ProductService.IsBadLuck | microservices/product-service/src/main/java/com/mkurt/productservice/service/ProductServiceImpl.java:72-85 | a fault happens exactly when faultPercent is non-zero and at least the draw |
| ProductService.FaultExtremes | microservices/product-service/src/main/java/com/mkurt/productservice/service/ProductServiceImpl.java:75-82 | faultPercent 99 or more always faults and a negative one never does, as draws lie in 1..99 |
| ProductService.FaultingDrawsCount | microservices/product-service/src/main/java/com/mkurt/productservice/service/ProductServiceImpl.java:75-82 | of the draws 1..n exactly faultPercent clamped to 0..n fault |
| ProductService.FaultFrequency | microservices/product-service/src/main/java/com/mkurt/productservice/service/ProductServiceImpl.java:75 | of the 99 equally likely draws, faultPercent (clamped to 0..99) fault |
| ProductService.CreateThenGet | microservices/product-service/src/main/java/com/mkurt/productservice/service/ProductServiceImpl.java:47-69 | a created product read back without faults has the created fields and this instance's address |
| ProductService.CreateTwiceRejected | microservices/product-service/src/main/java/com/mkurt/productservice/service/ProductServiceImpl.java:47-50 | creating the same product twice fails the second time and leaves the store as after the first |
| ProductService.DeleteIdempotent | microservices/product-service/src/main/java/com/mkurt/productservice/service/ProductServiceImpl.java:100-103 | deleting twice is the same as deleting once |
| ProductService.DeleteThenGet | microservices/product-service/src/main/java/com/mkurt/productservice/service/ProductServiceImpl.java:63-66 | after a delete the product is not found, whatever the fault settings |
| ProductService.OperationsKeepKeys | microservices/product-service/src/main/java/com/mkurt/productservice/service/ProductServiceImpl.java:45-47 | create and delete keep every product stored under its own productId |
| RecommendationService.CreateRecommendation | microservices/recommendation-service/src/main/java/com/mkurt/recommendationservice/service/RecommendationServiceImpl.java:39-54 | an id below 1 is invalid input; a taken (productId, recommendationId) is invalid input "Duplicate key" with the store unchanged; otherwise stored at version 0 |
| RecommendationService.GetRecommendations | microservices/recommendation-service/src/main/java/com/mkurt/recommendationservice/service/RecommendationServiceImpl.java:57-69 | an id below 1 is invalid input; otherwise one recommendation per stored key of the product, in key order, each with this instance's address |
| RecommendationService.DeleteRecommendations | microservices/recommendation-service/src/main/java/com/mkurt/recommendationservice/service/RecommendationServiceImpl.java:77-84 | an id below 1 is invalid input; otherwise every recommendation of the product is removed and nothing else changes |
| RecommendationService.GetRecommendationsExact | microservices/recommendation-service/src/main/java/com/mkurt/recommendationservice/service/RecommendationServiceImpl.java:65-68 | the list holds exactly the stored recommendations of the product: every listed one is stored under it and every stored one is listed |
| RecommendationService.NoRecommendationsIsEmpty | microservices/recommendation-service/src/main/java/com/mkurt/recommendationservice/service/RecommendationServiceImpl.java:65-68 | a product without recommendations gets an empty list, not an error |
| RecommendationService.CreateThenList | microservices/recommendation-service/src/main/java/com/mkurt/recommendationservice/service/RecommendationServiceImpl.java:46-68 | a created recommendation is listed for its product |
| RecommendationService.DeleteThenList | microservices/recommendation-service/src/main/java/com/mkurt/recommendationservice/service/RecommendationServiceImpl.java:83 | after deleting a product's recommendations the list is empty |
| RecommendationService.OperationsKeepKeys | microservices/recommendation-service/src/main/java/com/mkurt/recommendationservice/service/RecommendationServiceImpl.java:45-46 | create and delete keep every recommendation under its own pair key |
| MessageProcessor.Discard | microservices/product-service/src/main/java/com/mkurt/productservice/service/MessageProcessorConfig.java:47-48 | blocking on the service keeps its store effect and its error while dropping its value |
| MessageProcessor.ProcessEvent | microservices/product-service/src/main/java/com/mkurt/productservice/service/MessageProcessorConfig.java:39-64 | an event of another type is an event-processing error with the store unchanged; a CREATE without data fails without changing the store |
| MessageProcessor.CreateEventIsCreateProduct | microservices/product-service/src/main/java/com/mkurt/productservice/service/MessageProcessorConfig.java:44-49 | a CREATE event has the same store effect, success and error as calling createProduct with its data |
| MessageProcessor.DeleteEventIsDeleteProduct | microservices/product-service/src/main/java/com/mkurt/productservice/service/MessageProcessorConfig.java:51-56 | a DELETE event is deleteProduct of its key, whatever data it carries |
| MessageProcessor.ServiceFailuresPropagate | microservices/product-service/src/main/java/com/mkurt/productservice/service/MessageProcessorConfig.java:28-35 | a duplicate or invalid CREATE and an invalid DELETE fail with the service's error and leave the store as it was |
| MessageProcessor.SuccessMeansApplied | microservices/product-service/src/main/java/com/mkurt/productservice/service/MessageProcessorConfig.java:42-57 | a successfully processed event is a CREATE whose product is now stored or a DELETE whose key is now absent |
| MessageProcessor.Redelivery | microservices/product-service/src/main/java/com/mkurt/productservice/service/MessageProcessorConfig.java:28-35 | a redelivered DELETE has no further effect and a redelivered CREATE fails with the duplicate-key error, store unchanged |
| Integration.ErrorMessage | microservices/product-composite-service/src/main/java/com/mkurt/productcompositeservice/service/ProductCompositeIntegration.java:121-127 | the message of the parsed error body, or the exception's own message when the body does not parse (a parsed body without a message, which yields null, is not represented) |
| Integration.MapProductFailure | microservices/product-composite-service/src/main/java/com/mkurt/productcompositeservice/service/ProductCompositeIntegration.java:67-77 | 404 becomes not found and 422 invalid input, both with the error message; every other failure is rethrown unchanged |
| Integration.GetProduct | microservices/product-composite-service/src/main/java/com/mkurt/productcompositeservice/service/ProductCompositeIntegration.java:57-79 | the product call returns the decoded product, fails on a null body, and maps HTTP failures by status |
| Integration.ListOrEmpty | microservices/product-composite-service/src/main/java/com/mkurt/productcompositeservice/service/ProductCompositeIntegration.java:84-98 | a satellite call returns the decoded list unchanged and an empty list on any failure or null body |
| Integration.NewClient | microservices/product-composite-service/src/main/java/com/mkurt/productcompositeservice/service/ProductCompositeIntegration.java:48-50 | the product URL is built from the product host and port; the field used for reviews from the recommendation host, port and path; the field used for recommendations from the review host, port and path |
| Integration.GetRecommendations | microservices/product-composite-service/src/main/java/com/mkurt/productcompositeservice/service/ProductCompositeIntegration.java:82-99 | the recommendations are the list decoded from the recommendation-field URL plus the id, or empty when that call fails or answers null |
| Integration.GetReviews | microservices/product-composite-service/src/main/java/com/mkurt/productcompositeservice/service/ProductCompositeIntegration.java:102-119 | the reviews are the list decoded from the review-field URL plus the id, or empty when that call fails or answers null |
| Integration.ProductUrlShape | microservices/product-composite-service/src/main/java/com/mkurt/productcompositeservice/service/ProductCompositeIntegration.java:48-59 | the product URL is "http://" host ":" port "/product/" followed by the id |
| Integration.ProductUrlInjective | microservices/product-composite-service/src/main/java/com/mkurt/productcompositeservice/service/ProductCompositeIntegration.java:59 | different product ids are requested on different URLs |
| Integration.SatelliteUrlsCrossed | microservices/product-composite-service/src/main/java/com/mkurt/productcompositeservice/service/ProductCompositeIntegration.java:49-50 | the recommendations URL is built from the review host and port and ends in "/review?productId=", and the reviews URL the other way round |
| Integration.RecommendationsComeFromReviewEndpoint | microservices/product-composite-service/src/main/java/com/mkurt/productcompositeservice/service/ProductCompositeIntegration.java:85-93 | the composite's recommendations are whatever the review endpoint answers |
| Integration.ProductFailurePolicy | microservices/product-composite-service/src/main/java/com/mkurt/productcompositeservice/service/ProductCompositeIntegration.java:63-78 | the product call fails exactly when the remote call fails or returns null, and never rethrows a 404 or 422 |
| Integration.SatelliteNeverFails | microservices/product-composite-service/src/main/java/com/mkurt/productcompositeservice/service/ProductCompositeIntegration.java:104-118 | the reviews call yields the backend's list or an empty one, never an error or null |
| CompositeService.SummarizeRecommendations | microservices/product-composite-service/src/main/java/com/mkurt/productcompositeservice/service/ProductCompositeServiceImpl.java:55-58 | recommendation summaries have the input's length and order, and element i carries id, author and rate of input i |
| CompositeService.SummarizeReviews | microservices/product-composite-service/src/main/java/com/mkurt/productcompositeservice/service/ProductCompositeServiceImpl.java:61-64 | review summaries have the input's length and order, and element i carries id, author and subject of input i |
| CompositeService.SummarizeRecommendationList | microservices/product-composite-service/src/main/java/com/mkurt/productcompositeservice/service/ProductCompositeServiceImpl.java:56 | a null recommendation list gives a null summary list, any other list its summaries |
| CompositeService.SummarizeReviewList | microservices/product-composite-service/src/main/java/com/mkurt/productcompositeservice/service/ProductCompositeServiceImpl.java:62 | a null review list gives a null summary list, any other list its summaries |
| CompositeService.FirstAddress | microservices/product-composite-service/src/main/java/com/mkurt/productcompositeservice/service/ProductCompositeServiceImpl.java:68-69 | a satellite's address is the first element's when the list is non-null and non-empty, otherwise "" |
| CompositeService.CreateProductAggregate | microservices/product-composite-service/src/main/java/com/mkurt/productcompositeservice/service/ProductCompositeServiceImpl.java:45-73 | the aggregate carries the product's id, name and weight; each summary list is null exactly when its input list is, and otherwise is the input summarised element by element in order; the composite and product addresses, and the first recommendation's and first review's address or "" when that list is null or empty |
| CompositeService.GetProductAggregate | microservices/product-composite-service/src/main/java/com/mkurt/productcompositeservice/service/ProductCompositeServiceImpl.java:32-43 | a failed lookup propagates, a null product is not found with no aggregate, and a found product is assembled with the satellite lists |
| CompositeService.ReadComposite | microservices/product-composite-service/src/main/java/com/mkurt/productcompositeservice/service/ProductCompositeServiceImpl.java:34-41 | the read path succeeds exactly when the product call does and returns its error otherwise; on success the aggregate is the one assembled from the product and the lists the recommendations and reviews calls return |
| CompositeService.SummarizeRecommendationsAppend | microservices/product-composite-service/src/main/java/com/mkurt/productcompositeservice/service/ProductCompositeServiceImpl.java:55-58 | summarising a concatenation concatenates the summaries |
| CompositeService.SummarizeReviewsAppend | microservices/product-composite-service/src/main/java/com/mkurt/productcompositeservice/service/ProductCompositeServiceImpl.java:61-64 | summarising a concatenation concatenates the summaries |
| CompositeService.NullAndEmptyLists | microservices/product-composite-service/src/main/java/com/mkurt/productcompositeservice/service/ProductCompositeServiceImpl.java:55-70 | null lists give null summaries and empty lists empty summaries, both with empty-string addresses |
| CompositeService.NullProductNotFound | microservices/product-composite-service/src/main/java/com/mkurt/productcompositeservice/service/ProductCompositeServiceImpl.java:36-37 | a null product gives "No product found for productId: " and the id |
| CompositeService.ReadProductFailures | microservices/product-composite-service/src/main/java/com/mkurt/productcompositeservice/service/ProductCompositeIntegration.java:67-77 | a 404 or 422 from the product backend reaches the composite caller as not found or invalid input, other failures unchanged |
| CompositeService.ReadDegradesRecommendations | microservices/product-composite-service/src/main/java/com/mkurt/productcompositeservice/service/ProductCompositeIntegration.java:95-98 | a failing recommendation backend gives an aggregate with no recommendations and address "", reviews unaffected |
| CompositeService.ReadDegradesReviews | microservices/product-composite-service/src/main/java/com/mkurt/productcompositeservice/service/ProductCompositeIntegration.java:115-118 | a failing review backend gives an aggregate with no reviews and address "", recommendations unaffected |
| CompositeEvents.ProductEventsAppend | microservices/product-composite-service/src/test/java/com/mkurt/productcompositeservice/MessagingTests.java:70 | the products topic's list of a concatenated publish sequence is the concatenation of the two lists |
| CompositeEvents.RecommendationEventsAppend | microservices/product-composite-service/src/test/java/com/mkurt/productcompositeservice/MessagingTests.java:71 | the recommendations topic's list of a concatenated publish sequence is the concatenation of the two lists |
| CompositeEvents.ReviewEventsAppend | microservices/product-composite-service/src/test/java/com/mkurt/productcompositeservice/MessagingTests.java:72 | the reviews topic's list of a concatenated publish sequence is the concatenation of the two lists |
| CompositeEvents.TopicsAppend | microservices/product-composite-service/src/test/java/com/mkurt/productcompositeservice/MessagingTests.java:156-169 | each topic's message list distributes over concatenation of the publish sequence |
| CompositeEvents.SingleMessageTopics | microservices/product-composite-service/src/test/java/com/mkurt/productcompositeservice/MessagingTests.java:156-169 | a single message lands on its own topic only |
| CompositeEvents.RecommendationMessages | microservices/product-composite-service/src/test/java/com/mkurt/productcompositeservice/MessagingTests.java:105-112 | one recommendation create message per summary, in list order |
| CompositeEvents.ReviewMessages | microservices/product-composite-service/src/test/java/com/mkurt/productcompositeservice/MessagingTests.java:114-120 | one review create message per summary, in list order |
| CompositeEvents.CreateCompositeProduct | microservices/product-composite-service/src/test/java/com/mkurt/productcompositeservice/MessagingTests.java:64-121 | an id below 1 is invalid input; otherwise exactly 1 + N + M messages for N recommendations and M reviews |
| CompositeEvents.DeleteCompositeProduct | microservices/product-composite-service/src/test/java/com/mkurt/productcompositeservice/MessagingTests.java:123-148 | a delete publishes exactly three messages, one on each topic |
| CompositeEvents.RecommendationMessagesTopics | microservices/product-composite-service/src/test/java/com/mkurt/productcompositeservice/MessagingTests.java:105-112 | recommendation messages put create event i for summary i on the recommendations topic and nothing on the others |
| CompositeEvents.ReviewMessagesTopics | microservices/product-composite-service/src/test/java/com/mkurt/productcompositeservice/MessagingTests.java:114-120 | review messages put create event i for summary i on the reviews topic and nothing on the others |
| CompositeEvents.CreateTopics | microservices/product-composite-service/src/test/java/com/mkurt/productcompositeservice/MessagingTests.java:98-120 | the products topic gets exactly the one product create event; the other topics get one create event per summary, keyed by the productId and copying id, author, rate or subject, and content |
| CompositeEvents.DeleteTopics | microservices/product-composite-service/src/test/java/com/mkurt/productcompositeservice/MessagingTests.java:131-147 | each topic gets exactly one DELETE event with the product id as key and no data |
| CompositeEvents.SameEventExceptCreatedAt | microservices/product-composite-service/src/test/java/com/mkurt/productcompositeservice/IsSameEvent.java:31-47 | an expected event matches exactly when it is not null and agrees with the actual one in type, key and data |
| CompositeEvents.NullNeverMatches | microservices/product-composite-service/src/test/java/com/mkurt/productcompositeservice/IsSameEvent.java:34-36 | a null expected event never matches |
| CompositeEvents.SameEventCharacterized | microservices/product-composite-service/src/test/java/com/mkurt/productcompositeservice/IsSameEvent.java:38-46 | two events match exactly when the actual one is the expected one with another eventCreatedAt |
| CompositeEvents.OnlyCreatedAtDiffers | microservices/product-composite-service/src/test/java/com/mkurt/productcompositeservice/IsSameEvent.java:64-68 | changing only eventCreatedAt keeps an event matching |
| CompositeEvents.MatchIsEquivalence | microservices/product-composite-service/src/test/java/com/mkurt/productcompositeservice/IsSameEvent.java:32-47 | matching is reflexive, symmetric and transitive on non-null events |
| CompositeEvents.CreateWithoutListsScenario | microservices/product-composite-service/src/test/java/com/mkurt/productcompositeservice/MessagingTests.java:64-84 | a composite without lists is accepted: one matching product event, no recommendation or review events |
| CompositeEvents.CreateWithListsScenario | microservices/product-composite-service/src/test/java/com/mkurt/productcompositeservice/MessagingTests.java:86-121 | a composite with one recommendation and one review is accepted with exactly one matching event per topic |
| CompositeEvents.DeleteScenario | microservices/product-composite-service/src/test/java/com/mkurt/productcompositeservice/MessagingTests.java:123-148 | deleting composite 1 is accepted with exactly one matching DELETE event per topic |
| CompositeEvents.WriteConsumeRead | microservices/product-service/src/main/java/com/mkurt/productservice/service/MessageProcessorConfig.java:44-49 | publishing a composite and letting the product consumer apply its product event makes a fault-free read return the published fields |
| CompositeEvents.ReadThenWriteDropsContent | microservices/product-composite-service/src/main/java/com/mkurt/productcompositeservice/service/ProductCompositeServiceImpl.java:55-58 | posting back an aggregate from the read path republishes ids, authors and rates but not content, which the read path does not copy |

## Left out

- HTTP, `RestTemplate`, `WebTestClient` and Jackson are not modelled. A remote call is a function from URL to either a decoded body, which may be null, or a failure. A failure carries its status, the message parsed from its body (if it parsed) and the exception's message.
- Reactor is not modelled: `Mono`/`Flux`, `block()`, the scheduler, and `delayElement`. The `delay` parameter of `getProduct` only postpones the answer, so it has no effect on any result.
- `java.util.Random` is not modelled. The draw is a parameter of type `Draw`, which ranges over 1..99 like `nextInt(99) + 1`.
- `serviceUtil.getServiceAddress()` is not modelled; the instance's address is a parameter.
- Logging is not modelled.
- The repositories' surrogate ids are collapsed to the natural key. These are the document or row ids that `findById` and `existsById` use. An update of an absent key is reported as an optimistic-lock failure, as for a row whose version no longer matches.
- The Java `int` width is not modelled. Ids, weights and rates are unbounded integers, and no overflow occurs anywhere in the modelled code.
- RecommendationService.GetRecommendations: the order of the listed recommendations is fixed to ascending recommendationId. The repository query promises no order.
- The review service's business logic is not modelled. It is a stub whose `getReviews` returns null. The review store contract is modelled from its persistence tests.
- The source of the MapStruct mappers is not part of this model. `Entities` assumes the field-by-field mapping its names imply (`rate` is stored as `rating`). It also assumes the API object comes back without a service address.
- The event class and its type enumeration are not part of this model. `EventType.Unrecognized` stands for any value other than CREATE and DELETE.
- MessageProcessor.ProcessEvent: a CREATE event without data is modelled as an unexpected error with the store unchanged. This is the null dereference in the log line.
- CompositeEvents.CreateCompositeProduct: the rejection of ids below 1 and its "Invalid productId: " text follow the core services' create. The composite's own implementation is not part of this model. All events of one request carry the same `eventCreatedAt`, which the matcher ignores anyway.
- CompositeEvents.DeleteCompositeProduct: its second ensures lists the messages products, recommendations, reviews. That order across topics is a choice of the model: MessagingTests.java reads each topic on its own, and nothing in the code fixes an order across topics. The same holds for the sequence `CompositeEvents.CreateCompositeProduct` returns.
- CompositeEvents.DeleteCompositeProduct: modelled as always accepted, even for ids below 1. MessagingTests.java checks only id 1, so the answer for other ids is an assumption.
- `getProductAggregate` does not check the id itself. For an id below 1 the product backend's 422 is what reaches the caller (`CompositeService.ReadProductFailures`).
- Integration.ErrorMessage: an error body that parses as `HttpErrorInfo` but has no `message` field makes `getErrorMessage` return null. The model has no null message. A parsed body always yields its message text, so this case is not represented.
- Spring Security configuration, configuration server, application bootstrapping and Testcontainers set-up are not modelled.
- Delivery guarantees of the event channel are not modelled. These are redelivery and dead-lettering. The order across topics is a choice of the model, as the `CompositeEvents.DeleteCompositeProduct` line above says. `MessageProcessor.Redelivery` states what a second delivery of the same event does.
