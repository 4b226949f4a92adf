/**
 * The data shapes of the cart core: the request payload (src/cart/types.ts),
 * the catalog records the hydrater returns, and the priced `Cart`.
 * Amounts are exact reals.
 */
module CartTypes {
  import opened Wrappers

  /** A price offer of a variant; `price` and `currency` may be absent in the catalog data. */
  datatype ProductPriceVariant = ProductPriceVariant(identifier: string, price: Option<real>, currency: Option<string>)

  /**
   * A variant's `priceVariants` as the catalog returns it: `undefined`,
   * `null`, or an array whose elements may each be `null` (`None`).
   */
  datatype PriceVariants = Undefined | Null | Offers(offers: seq<Option<ProductPriceVariant>>)

  /** A purchasable variant. */
  datatype ProductVariant = ProductVariant(sku: string, priceVariants: PriceVariants)

  datatype VatType = VatType(percent: Option<real>)

  /** A catalog product; its variant list and VAT type may be absent. */
  datatype Product = Product(variants: Option<seq<ProductVariant>>, vatType: Option<VatType>)

  /** One requested line: `{sku, quantity}`. */
  datatype CartItemPayload = CartItemPayload(sku: string, quantity: real)

  /** The request: `{locale, withImages?, items}`. */
  datatype CartPayload = CartPayload(locale: string, withImages: Option<bool>, items: seq<CartItemPayload>)

  datatype Price = Price(gross: real, net: real, currency: string, taxAmount: real)

  datatype CartItem = CartItem(
    quantity: real,
    price: Price,
    product: Product,
    variant: ProductVariant,
    variantPrice: ProductPriceVariant)

  /** The hydrated cart: `{cart: {items}, total}` with the inner object flattened. */
  datatype Cart = Cart(items: seq<CartItem>, total: Price)
}
