/** The persistent forms of the three entities and the mappers between them
    and their API records. Versions are kept by the store, not here. */
module Entities {
  import opened Outcomes
  import opened Api

  datatype ProductEntity = ProductEntity(productId: int, name: string, weight: int)

  datatype RecommendationEntity = RecommendationEntity(
    productId: int,
    recommendationId: int,
    author: string,
    rating: int,
    content: Option<string>)

  datatype ReviewEntity = ReviewEntity(
    productId: int,
    reviewId: int,
    author: string,
    subject: string,
    content: Option<string>)

  function ProductToEntity(p: Product): ProductEntity {
    ProductEntity(p.productId, p.name, p.weight)
  }

  function ProductFromEntity(e: ProductEntity): Product {
    Product(e.productId, e.name, e.weight, None)
  }

  function RecommendationToEntity(r: Recommendation): RecommendationEntity {
    RecommendationEntity(r.productId, r.recommendationId, r.author, r.rate, r.content)
  }

  function RecommendationFromEntity(e: RecommendationEntity): Recommendation {
    Recommendation(e.productId, e.recommendationId, e.author, e.rating, e.content, None)
  }

  /** Mapping a product to its entity and back loses only the service address. */
  lemma ProductMapperRoundTrip(p: Product)
    ensures ProductFromEntity(ProductToEntity(p)) == p.(serviceAddress := None)
    ensures ProductToEntity(ProductFromEntity(ProductToEntity(p))) == ProductToEntity(p)
  {
  }

  /** Mapping a recommendation to its entity and back loses only the service address. */
  lemma RecommendationMapperRoundTrip(r: Recommendation)
    ensures RecommendationFromEntity(RecommendationToEntity(r)) == r.(serviceAddress := None)
    ensures RecommendationToEntity(RecommendationFromEntity(RecommendationToEntity(r))) == RecommendationToEntity(r)
  {
  }
}
