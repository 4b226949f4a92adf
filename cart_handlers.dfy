/**
 * `handleCartRequestPayload` of src/cart/handlers.ts from the point where the
 * catalog answer is known: match each requested line to a looked-up product
 * and variant, pick its price and currency, compute gross, tax and net, and
 * add them to the running totals.
 *
 * The catalog call itself is external; its answer is the input `response`,
 * where `response[i]` is the record for the i-th requested SKU (`product${i}`)
 * or `None` when the catalog has none.
 */
module CartHandlers {
  import opened Wrappers
  import opened CartTypes

  /**
   * The ways the computation throws: the `Error` raised for an unmatched SKU,
   * the `TypeError` of indexing a `null` `priceVariants`, and the `TypeError`
   * of reading `currency` from a first offer that is missing or `null`.
   */
  datatype HydrationError =
    | ProductNotFound(sku: string)
    | NullPriceVariants(sku: string)
    | UnreadableCurrency(sku: string)

  /** The price used when a variant has none: `{price: 0, identifier: 'undefined'}`. */
  const Placeholder: ProductPriceVariant := ProductPriceVariant("undefined", Some(0.0), None)

  /** The SKUs sent to the catalog, one per requested line, in order. */
  function Skus(items: seq<CartItemPayload>): (skus: seq<string>)
    ensures |skus| == |items|
    ensures forall i :: 0 <= i < |items| ==> skus[i] == items[i].sku
  {
    seq(|items|, i requires 0 <= i < |items| => items[i].sku)
  }

  /** `response[`product${index}`]`: a key past the end of the answer is absent. */
  function ProductAt(response: seq<Option<Product>>, index: nat): Option<Product> {
    if index < |response| then response[index] else None
  }

  /** The catalog answer read back at the positions of the requested SKUs. */
  function Aligned(response: seq<Option<Product>>, skus: seq<string>): (found: seq<Option<Product>>)
    ensures |found| == |skus|
    ensures forall i :: 0 <= i < |skus| ==> found[i] == ProductAt(response, i)
  {
    seq(|skus|, i requires 0 <= i < |skus| => ProductAt(response, i))
  }

  /** The `filter((product) => !!product)` step: the present records, in order. */
  function PresentProducts(found: seq<Option<Product>>): (products: seq<Product>)
    ensures |products| <= |found|
    ensures found != [] && found[0].Some? ==> products != [] && products[0] == found[0].value
  {
    if found == [] then []
    else (if found[0].Some? then [found[0].value] else []) + PresentProducts(found[1..])
  }

  /** Every product kept is one of the catalog answers, and every present answer is kept. */
  lemma {:induction false} PresentProductsMembers(found: seq<Option<Product>>)
    ensures forall i :: 0 <= i < |PresentProducts(found)| ==> Some(PresentProducts(found)[i]) in found
    ensures forall k :: 0 <= k < |found| && found[k].Some? ==> found[k].value in PresentProducts(found)
  {
    if found != [] {
      var rest := found[1..];
      PresentProductsMembers(rest);
      var head := if found[0].Some? then [found[0].value] else [];
      var ps := PresentProducts(found);
      assert ps == head + PresentProducts(rest);
      forall i | 0 <= i < |ps|
        ensures Some(ps[i]) in found
      {
        if i >= |head| {
          assert ps[i] == PresentProducts(rest)[i - |head|];
          assert Some(ps[i]) in rest;
        }
      }
      forall k | 0 <= k < |found| && found[k].Some?
        ensures found[k].value in ps
      {
        if k > 0 {
          assert found[k] == rest[k - 1];
          assert found[k].value in PresentProducts(rest);
        }
      }
    }
  }

  /**
   * The filter distributes over concatenation: the records kept from two
   * consecutive stretches of the answer are those of the first stretch
   * followed by those of the second, so order and count are kept.
   */
  lemma {:induction false} PresentProductsAppend(a: seq<Option<Product>>, b: seq<Option<Product>>)
    ensures PresentProducts(a + b) == PresentProducts(a) + PresentProducts(b)
  {
    if a == [] {
      assert a + b == b;
    } else {
      assert (a + b)[0] == a[0];
      assert (a + b)[1..] == a[1..] + b;
      PresentProductsAppend(a[1..], b);
    }
  }

  /** A single answer is kept iff it is present. */
  lemma PresentProductsSingle(x: Option<Product>)
    ensures PresentProducts([x]) == if x.Some? then [x.value] else []
  {
    assert [x][1..] == [];
  }

  /** `variants.find((variant) => variant.sku === sku)`. */
  function FirstWithSku(variants: seq<ProductVariant>, sku: string): (r: Option<ProductVariant>)
    ensures r.None? <==> forall k :: 0 <= k < |variants| ==> variants[k].sku != sku
    ensures r.Some? ==>
      exists k :: 0 <= k < |variants| && variants[k] == r.value && r.value.sku == sku
        && forall j :: 0 <= j < k ==> variants[j].sku != sku
  {
    if variants == [] then None
    else if variants[0].sku == sku then Some(variants[0])
    else
      var r := FirstWithSku(variants[1..], sku);
      if r.Some? then
        var k :| 0 <= k < |variants[1..]| && variants[1..][k] == r.value && r.value.sku == sku
          && forall j :: 0 <= j < k ==> variants[1..][j].sku != sku;
        assert variants[k + 1] == r.value;
        r
      else r
  }

  /** `product?.variants?.find(...)`: the product's first variant with this SKU, if any. */
  function VariantOf(product: Product, sku: string): Option<ProductVariant> {
    match product.variants
    case None => None
    case Some(variants) => FirstWithSku(variants, sku)
  }

  /** A product together with the variant `selectedVariant` held when `find` stopped on it. */
  datatype Match = Match(product: Product, variant: ProductVariant)

  /** `products.find(...)`: the first product that has a variant with this SKU. */
  function FindProduct(products: seq<Product>, sku: string): (r: Option<Match>)
    ensures r.None? <==> forall k :: 0 <= k < |products| ==> VariantOf(products[k], sku).None?
    ensures r.Some? ==>
      exists k :: 0 <= k < |products| && products[k] == r.value.product
        && VariantOf(products[k], sku) == Some(r.value.variant)
        && forall j :: 0 <= j < k ==> VariantOf(products[j], sku).None?
  {
    if products == [] then None
    else match VariantOf(products[0], sku)
      case Some(v) => Some(Match(products[0], v))
      case None =>
        var r := FindProduct(products[1..], sku);
        if r.Some? then
          var k :| 0 <= k < |products[1..]| && products[1..][k] == r.value.product
            && VariantOf(products[1..][k], sku) == Some(r.value.variant)
            && forall j :: 0 <= j < k ==> VariantOf(products[1..][j], sku).None?;
          assert products[k + 1] == r.value.product;
          r
        else r
  }

  /**
   * `selectedPrice`: the placeholder when `priceVariants` is `undefined`,
   * otherwise the first offer, or the placeholder when that offer is missing
   * or `null`; `None` when `priceVariants` is `null`, where `null[0]` throws.
   */
  function SelectedPrice(variant: ProductVariant): Option<ProductPriceVariant> {
    match variant.priceVariants
    case Undefined => Some(Placeholder)
    case Null => None
    case Offers(offers) => if |offers| > 0 && offers[0].Some? then offers[0] else Some(Placeholder)
  }

  /** `currency || 'EUR'`: an absent or empty currency becomes 'EUR'. */
  function CurrencyOrEur(currency: Option<string>): string {
    if currency.Some? && currency.value != "" then currency.value else "EUR"
  }

  /**
   * `selectedCurrency`: 'EUR' when `priceVariants` is `undefined`, otherwise
   * the first offer's currency or 'EUR'; `None` when there is no first offer
   * or it is `null` (or the list itself is `null`), where reading `.currency`
   * throws.
   */
  function SelectedCurrency(variant: ProductVariant): Option<string> {
    match variant.priceVariants
    case Undefined => Some("EUR")
    case Null => None
    case Offers(offers) => if |offers| > 0 && offers[0].Some? then Some(CurrencyOrEur(offers[0].value.currency)) else None
  }

  /** `product?.vatType?.percent || 0`. */
  function VatPercent(product: Product): real {
    match product.vatType
    case Some(VatType(Some(percent))) => if percent != 0.0 then percent else 0.0
    case _ => 0.0
  }

  /** `selectedPrice?.price || 0 * item.quantity`: the product binds tighter than `||`. */
  function GrossAmount(selectedPrice: ProductPriceVariant, quantity: real): real {
    if selectedPrice.price.Some? && selectedPrice.price.value != 0.0 then selectedPrice.price.value
    else 0.0 * quantity
  }

  /**
   * The body of the per-line `map` callback, apart from the totals update:
   * the priced line for `item`, or the error it throws.
   */
  function HydrateItem(products: seq<Product>, item: CartItemPayload): (r: Result<CartItem, HydrationError>)
    ensures r.Failure? ==> r.error.sku == item.sku
    ensures r.Success? ==> r.value.quantity == item.quantity && r.value.variant.sku == item.sku
    ensures r.Success? ==> r.value.price.net == r.value.price.gross + r.value.price.taxAmount
  {
    match FindProduct(products, item.sku)
    case None => Failure(ProductNotFound(item.sku))
    case Some(Match(product, variant)) =>
      match SelectedPrice(variant)
      case None => Failure(NullPriceVariants(item.sku))
      case Some(selectedPrice) =>
        match SelectedCurrency(variant)
        case None => Failure(UnreadableCurrency(item.sku))
        case Some(currency) =>
          var gross := GrossAmount(selectedPrice, item.quantity);
          var tax := gross * VatPercent(product) / 100.0;
          var net := gross + tax;
          Success(CartItem(item.quantity, Price(gross, net, currency, tax), product, variant, selectedPrice))
  }

  /**
   * When one line throws: the error names the line's SKU; the line is
   * unmatched exactly when no looked-up product has a variant with its SKU;
   * it throws on indexing exactly when the matched variant's
   * `priceVariants` is `null`, and on the currency exactly when it is an
   * array whose first offer is missing or `null`.
   */
  lemma HydrateItemFailure(products: seq<Product>, item: CartItemPayload)
    ensures HydrateItem(products, item).Failure? ==> HydrateItem(products, item).error.sku == item.sku
    ensures (HydrateItem(products, item).Failure? && HydrateItem(products, item).error.ProductNotFound?) <==>
      forall k :: 0 <= k < |products| ==> VariantOf(products[k], item.sku).None?
    ensures (HydrateItem(products, item).Failure? && HydrateItem(products, item).error.NullPriceVariants?) <==>
      FindProduct(products, item.sku).Some? && FindProduct(products, item.sku).value.variant.priceVariants.Null?
    ensures (HydrateItem(products, item).Failure? && HydrateItem(products, item).error.UnreadableCurrency?) <==>
      && FindProduct(products, item.sku).Some?
      && var offers := FindProduct(products, item.sku).value.variant.priceVariants;
        offers.Offers? && (offers.offers == [] || offers.offers[0].None?)
  {
    match FindProduct(products, item.sku)
    case None =>
    case Some(m) =>
      match m.variant.priceVariants
      case Undefined =>
      case Null =>
      case Offers(offers) =>
  }

  /**
   * A priced line copies the quantity, carries the matched product and
   * variant and its first offer (the placeholder when `priceVariants` is
   * `undefined`), has a gross equal to the unit price whatever the quantity,
   * tax at the product's VAT percent, and net = gross + tax.
   */
  lemma HydrateItemLine(products: seq<Product>, item: CartItemPayload)
    requires HydrateItem(products, item).Success?
    ensures var line := HydrateItem(products, item).value;
      && FindProduct(products, item.sku) == Some(Match(line.product, line.variant))
      && line.quantity == item.quantity
      && line.variant.sku == item.sku
      && !line.variant.priceVariants.Null?
      && (line.variant.priceVariants.Undefined? ==> line.variantPrice == Placeholder)
      && (line.variant.priceVariants.Offers? ==>
            |line.variant.priceVariants.offers| > 0 && line.variant.priceVariants.offers[0] == Some(line.variantPrice))
      && line.price.gross == line.variantPrice.price.GetOr(0.0)
      && line.price.currency == CurrencyOrEur(line.variantPrice.currency)
      && line.price.taxAmount == line.price.gross * VatPercent(line.product) / 100.0
      && line.price.net == line.price.gross + line.price.taxAmount
  {
  }

  /** The outcome of the per-line callback for each requested line, in order. */
  function Outcomes(products: seq<Product>, items: seq<CartItemPayload>): (outcomes: seq<Result<CartItem, HydrationError>>)
    ensures |outcomes| == |items|
    ensures forall i :: 0 <= i < |items| ==> outcomes[i] == HydrateItem(products, items[i])
  {
    seq(|items|, i requires 0 <= i < |items| => HydrateItem(products, items[i]))
  }

  /**
   * A `map` whose callback may throw: all the values when no call throws,
   * otherwise the error of the earliest call that throws.
   */
  function Collect<T, E>(outcomes: seq<Result<T, E>>): (r: Result<seq<T>, E>)
    ensures r.Success? ==> |r.value| == |outcomes|
    ensures r.Failure? ==> Failure(r.error) in outcomes
    decreases |outcomes|
  {
    if outcomes == [] then Success([])
    else match Collect(outcomes[..|outcomes| - 1])
      case Failure(e) => Failure(e)
      case Success(values) =>
        match outcomes[|outcomes| - 1]
        case Failure(e) => Failure(e)
        case Success(v) => Success(values + [v])
  }

  /** Which of the three summed amounts of a `Price`. */
  datatype Amount = Gross | Net | Tax

  function AmountOf(price: Price, amount: Amount): real {
    match amount
    case Gross => price.gross
    case Net => price.net
    case Tax => price.taxAmount
  }

  /** The sum of one amount over the lines, starting from 0. */
  function Sum(lines: seq<CartItem>, amount: Amount): real
    decreases |lines|
  {
    if lines == [] then 0.0
    else Sum(lines[..|lines| - 1], amount) + AmountOf(lines[|lines| - 1].price, amount)
  }

  /** The cart total: the three sums, and the last line's currency ('USD' for no lines). */
  function Totals(lines: seq<CartItem>): Price {
    Price(
      Sum(lines, Gross),
      Sum(lines, Net),
      if lines == [] then "USD" else lines[|lines| - 1].price.currency,
      Sum(lines, Tax))
  }

  /** The products the lines are matched against: the present catalog records, in requested-SKU order. */
  function LookedUp(payload: CartPayload, response: seq<Option<Product>>): seq<Product> {
    PresentProducts(Aligned(response, Skus(payload.items)))
  }

  /** The whole computation after the catalog call, as a function of the payload and the catalog answer. */
  function Hydrate(payload: CartPayload, response: seq<Option<Product>>): (r: Result<Cart, HydrationError>)
    ensures r.Success? ==> |r.value.items| == |payload.items|
    ensures r.Success? && payload.items == [] ==> r.value.total == Price(0.0, 0.0, "USD", 0.0)
    ensures r.Failure? ==> exists i :: 0 <= i < |payload.items| && r.error.sku == payload.items[i].sku
  {
    match Collect(Outcomes(LookedUp(payload, response), payload.items))
    case Failure(e) => Failure(e)
    case Success(lines) => Success(Cart(lines, Totals(lines)))
  }

  /** Once a prefix of the calls throws, the whole `map` throws the same error. */
  lemma {:induction false} CollectFailureExtends<T, E>(outcomes: seq<Result<T, E>>, k: nat)
    requires k <= |outcomes| && Collect(outcomes[..k]).Failure?
    ensures Collect(outcomes) == Collect(outcomes[..k])
    decreases |outcomes|
  {
    if k < |outcomes| {
      var init := outcomes[..|outcomes| - 1];
      assert init[..k] == outcomes[..k];
      CollectFailureExtends(init, k);
    } else {
      assert outcomes[..k] == outcomes;
    }
  }

  /** One more call extends the values of the prefix, or throws that call's error. */
  lemma CollectStep<T, E>(outcomes: seq<Result<T, E>>, i: nat, values: seq<T>)
    requires i < |outcomes| && Collect(outcomes[..i]) == Success(values)
    ensures Collect(outcomes[..i + 1]) ==
      match outcomes[i]
      case Failure(e) => Failure(e)
      case Success(v) => Success(values + [v])
  {
    assert outcomes[..i + 1][..i] == outcomes[..i];
  }

  /** Adding a line to the lines adds its amounts to the totals and makes its currency the total's. */
  lemma TotalsStep(lines: seq<CartItem>, line: CartItem)
    ensures Totals(lines + [line]) == Totals(lines).(
      gross := Totals(lines).gross + line.price.gross,
      net := Totals(lines).net + line.price.net,
      taxAmount := Totals(lines).taxAmount + line.price.taxAmount,
      currency := line.price.currency)
  {
    assert (lines + [line])[..|lines|] == lines;
  }

  /**
   * `handleCartRequestPayload` after the catalog call: one pass over the
   * lines that prices each and adds it to the running totals, stopping at
   * the first line that throws.
   */
  method HandleCartRequestPayload(payload: CartPayload, response: seq<Option<Product>>)
    returns (r: Result<Cart, HydrationError>)
    ensures r == Hydrate(payload, response)
  {
    var skus := Skus(payload.items);
    var products := PresentProducts(Aligned(response, skus));
    ghost var outcomes := Outcomes(products, payload.items);
    var totals := Price(0.0, 0.0, "USD", 0.0);
    var items: seq<CartItem> := [];
    var i := 0;
    while i < |payload.items|
      invariant 0 <= i <= |payload.items|
      invariant Collect(outcomes[..i]) == Success(items)
      invariant totals == Totals(items)
    {
      var line := HydrateItem(products, payload.items[i]);
      CollectStep(outcomes, i, items);
      if line.Failure? {
        CollectFailureExtends(outcomes, i + 1);
        return Failure(line.error);
      }
      var price := line.value.price;
      TotalsStep(items, line.value);
      totals := totals.(
        taxAmount := totals.taxAmount + price.taxAmount,
        gross := totals.gross + price.gross,
        net := totals.net + price.net,
        currency := price.currency);
      items := items + [line.value];
      i := i + 1;
    }
    assert outcomes[..i] == outcomes;
    r := Success(Cart(items, totals));
  }

  /** When no call throws, the `map` holds one value per call, in order. */
  lemma {:induction false} CollectSuccess<T, E>(outcomes: seq<Result<T, E>>)
    requires Collect(outcomes).Success?
    ensures |Collect(outcomes).value| == |outcomes|
    ensures forall i :: 0 <= i < |outcomes| ==> outcomes[i] == Success(Collect(outcomes).value[i])
    decreases |outcomes|
  {
    if outcomes != [] {
      var n := |outcomes| - 1;
      var init := outcomes[..n];
      CollectSuccess(init);
      assert Collect(outcomes).value == Collect(init).value + [outcomes[n].value];
      forall i | 0 <= i < n
        ensures outcomes[i] == Success(Collect(outcomes).value[i])
      {
        assert init[i] == outcomes[i];
      }
    }
  }

  /**
   * The `map` throws exactly when some call throws, and then with the error
   * of the first call that throws.
   */
  lemma {:induction false} CollectFailure<T, E>(outcomes: seq<Result<T, E>>)
    ensures Collect(outcomes).Failure? <==> exists i :: 0 <= i < |outcomes| && outcomes[i].Failure?
    ensures Collect(outcomes).Failure? ==>
      exists i :: 0 <= i < |outcomes| && outcomes[i] == Failure(Collect(outcomes).error)
        && forall j :: 0 <= j < i ==> outcomes[j].Success?
    decreases |outcomes|
  {
    if outcomes != [] {
      var n := |outcomes| - 1;
      var init := outcomes[..n];
      CollectFailure(init);
      assert forall j :: 0 <= j < n ==> init[j] == outcomes[j];
      if Collect(init).Success? && outcomes[n].Success? {
        forall i | 0 <= i < |outcomes|
          ensures outcomes[i].Success?
        {
          if i < n {
            assert init[i] == outcomes[i];
          }
        }
      }
    }
  }

  /**
   * A hydrated cart has exactly one item per requested line, in payload
   * order: each item is that line priced, with its quantity copied and a
   * variant of the requested SKU.
   */
  lemma HydrateFollowsPayload(payload: CartPayload, response: seq<Option<Product>>)
    requires Hydrate(payload, response).Success?
    ensures var cart := Hydrate(payload, response).value;
      && |cart.items| == |payload.items|
      && forall i :: 0 <= i < |payload.items| ==>
        && HydrateItem(LookedUp(payload, response), payload.items[i]) == Success(cart.items[i])
        && cart.items[i].quantity == payload.items[i].quantity
        && cart.items[i].variant.sku == payload.items[i].sku
  {
    var products := LookedUp(payload, response);
    CollectSuccess(Outcomes(products, payload.items));
    forall i | 0 <= i < |payload.items|
      ensures Hydrate(payload, response).value.items[i].quantity == payload.items[i].quantity
      ensures Hydrate(payload, response).value.items[i].variant.sku == payload.items[i].sku
    {
      HydrateItemLine(products, payload.items[i]);
    }
  }

  /**
   * No partial cart: the computation throws exactly when some line throws,
   * and then with the error of the first such line.
   */
  lemma HydrateFailsAtFirstBadLine(payload: CartPayload, response: seq<Option<Product>>)
    ensures var products := LookedUp(payload, response);
      && (Hydrate(payload, response).Failure? <==>
          exists i :: 0 <= i < |payload.items| && HydrateItem(products, payload.items[i]).Failure?)
      && (Hydrate(payload, response).Failure? ==>
          exists i :: 0 <= i < |payload.items|
            && HydrateItem(products, payload.items[i]) == Failure(Hydrate(payload, response).error)
            && forall j :: 0 <= j < i ==> HydrateItem(products, payload.items[j]).Success?)
  {
    var products := LookedUp(payload, response);
    CollectFailure(Outcomes(products, payload.items));
  }

  /**
   * The product a line is matched to is the first present catalog record,
   * in requested-SKU order, that has a variant with the line's SKU, and the
   * variant is that record's first variant with the SKU; there is no match
   * exactly when no present record has such a variant.
   */
  lemma {:induction false} FindProductIsFirstMatch(found: seq<Option<Product>>, sku: string)
    ensures FindProduct(PresentProducts(found), sku).None? <==>
      forall k :: 0 <= k < |found| && found[k].Some? ==> VariantOf(found[k].value, sku).None?
    ensures FindProduct(PresentProducts(found), sku).Some? ==>
      var m := FindProduct(PresentProducts(found), sku).value;
      exists k :: 0 <= k < |found| && found[k] == Some(m.product)
        && VariantOf(m.product, sku) == Some(m.variant)
        && forall j :: 0 <= j < k && found[j].Some? ==> VariantOf(found[j].value, sku).None?
  {
    if found != [] {
      var rest := found[1..];
      FindProductIsFirstMatch(rest, sku);
      var head := if found[0].Some? then [found[0].value] else [];
      assert PresentProducts(found) == head + PresentProducts(rest);
      if found[0].Some? && VariantOf(found[0].value, sku).Some? {
        assert FindProduct(PresentProducts(found), sku) == Some(Match(found[0].value, VariantOf(found[0].value, sku).value));
      } else {
        assert FindProduct(PresentProducts(found), sku) == FindProduct(PresentProducts(rest), sku) by {
          var ps := PresentProducts(found);
          if found[0].Some? {
            assert ps[0] == found[0].value && ps[1..] == PresentProducts(rest);
            assert VariantOf(ps[0], sku).None?;
          } else {
            assert ps == PresentProducts(rest);
          }
        }
        if FindProduct(PresentProducts(rest), sku).Some? {
          var m := FindProduct(PresentProducts(rest), sku).value;
          var k :| 0 <= k < |rest| && rest[k] == Some(m.product)
            && VariantOf(m.product, sku) == Some(m.variant)
            && forall j :: 0 <= j < k && rest[j].Some? ==> VariantOf(rest[j].value, sku).None?;
          assert found[k + 1] == Some(m.product);
        } else {
          forall k | 0 <= k < |found| && found[k].Some?
            ensures VariantOf(found[k].value, sku).None?
          {
            if k > 0 {
              assert found[k] == rest[k - 1];
            }
          }
        }
      }
    }
  }

  /**
   * A requested SKU that no present catalog record offers as a variant makes
   * the whole computation throw; when every earlier line priced, the error
   * is "Could not find Product with sku" for that SKU.
   */
  lemma UnmatchedSkuFails(payload: CartPayload, response: seq<Option<Product>>, i: nat)
    requires i < |payload.items|
    requires forall k :: 0 <= k < |payload.items| && ProductAt(response, k).Some? ==>
      VariantOf(ProductAt(response, k).value, payload.items[i].sku).None?
    ensures Hydrate(payload, response).Failure?
    ensures (forall j :: 0 <= j < i ==>
        HydrateItem(LookedUp(payload, response), payload.items[j]).Success?) ==>
      Hydrate(payload, response).error == ProductNotFound(payload.items[i].sku)
  {
    var found := Aligned(response, Skus(payload.items));
    var products := LookedUp(payload, response);
    var item := payload.items[i];
    assert FindProduct(products, item.sku).None? by {
      FindProductIsFirstMatch(found, item.sku);
      forall k | 0 <= k < |found| && found[k].Some?
        ensures VariantOf(found[k].value, item.sku).None?
      {
        assert found[k] == ProductAt(response, k);
      }
    }
    assert HydrateItem(products, item) == Failure(ProductNotFound(item.sku));
    CollectFailure(Outcomes(products, payload.items));
    if forall j :: 0 <= j < i ==> HydrateItem(products, payload.items[j]).Success? {
      var e := Hydrate(payload, response).error;
      var f :| 0 <= f < |payload.items| && HydrateItem(products, payload.items[f]) == Failure(e)
        && forall j :: 0 <= j < f ==> HydrateItem(products, payload.items[j]).Success?;
      assert f == i;
    }
  }

  /**
   * Quantity is not multiplied in: the same line with any other quantity has
   * the same price, the same outcome, and differs only in its quantity.
   */
  lemma GrossIgnoresQuantity(products: seq<Product>, item: CartItemPayload, quantity: real)
    ensures var other := HydrateItem(products, item.(quantity := quantity));
      var line := HydrateItem(products, item);
      && other.Success? == line.Success?
      && (line.Failure? ==> other == line)
      && (line.Success? ==> other.value == line.value.(quantity := quantity))
  {
  }

  /** When every line has net = gross + tax, so do the sums. */
  lemma {:induction false} SumNetIsGrossPlusTax(lines: seq<CartItem>)
    requires forall i :: 0 <= i < |lines| ==> lines[i].price.net == lines[i].price.gross + lines[i].price.taxAmount
    ensures Sum(lines, Net) == Sum(lines, Gross) + Sum(lines, Tax)
    decreases |lines|
  {
    if lines != [] {
      SumNetIsGrossPlusTax(lines[..|lines| - 1]);
    }
  }

  /**
   * The totals of a hydrated cart are the sums of the item amounts from 0,
   * so net = gross + tax holds of them too; the total's currency is the last
   * item's, or 'USD' for an empty payload.
   */
  lemma HydrateTotals(payload: CartPayload, response: seq<Option<Product>>)
    requires Hydrate(payload, response).Success?
    ensures var cart := Hydrate(payload, response).value;
      && cart.total.gross == Sum(cart.items, Gross)
      && cart.total.net == Sum(cart.items, Net)
      && cart.total.taxAmount == Sum(cart.items, Tax)
      && cart.total.net == cart.total.gross + cart.total.taxAmount
      && cart.total.currency == (if payload.items == [] then "USD" else cart.items[|cart.items| - 1].price.currency)
  {
    var products := LookedUp(payload, response);
    var cart := Hydrate(payload, response).value;
    HydrateFollowsPayload(payload, response);
    forall i | 0 <= i < |cart.items|
      ensures cart.items[i].price.net == cart.items[i].price.gross + cart.items[i].price.taxAmount
    {
      HydrateItemLine(products, payload.items[i]);
    }
    SumNetIsGrossPlusTax(cart.items);
  }
}
