/** The vendor's catalog entities: a product and its quantity-based pricing tiers. */
module Catalog {

  /** A price that applies from a minimum order quantity (`moq`) upwards. */
  datatype PricingTier = PricingTier(id: int, moq: int, price: real)

  /** A persisted product as the catalog service returns it. */
  datatype Product = Product(
    name: string, description: string, category: string, image_url: string,
    available_quantity: int, id: int, vendor_id: int, created_at: string,
    pricing_tiers: seq<PricingTier>)
}
