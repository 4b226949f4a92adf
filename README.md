# Cart pricing and cart lifecycle, modelled in Dafny

This project models the logic core of the Crystallize node service API request
handlers: the generic finite-state machine (`src/core/statemachine.ts`), the
cart lifecycle repository built on it (`src/cart/storage/cartWrapper.ts`), and
the cart hydration and pricing computation of `handleCartRequestPayload`
(`src/cart/handlers.ts`) from the point where the catalog answer is known.

- `wrappers.dfy` (`Wrappers`): `Option`, `Result`, `Outcome`.
- `statemachine.dfy` (`StateMachine`): the transition table as a `map` from
  states to entries with transitions and hook flags; `ActionInfos` (the
  three lookups and their errors); class `Machine`, whose `state` field is
  the subject's state field, with `CanTransit` (a function) and `Transition`
  (a method that writes `state` in place and records each hook call, with
  the state the subject had when it ran, in a ghost trace).
- `cart_types.dfy` (`CartTypes`): payload, catalog records, `Price`,
  `CartItem`, `Cart`, with money as exact reals.
- `cart_handlers.dfy` (`CartHandlers`): line matching, price and currency
  selection, gross/tax/net, totals. `Hydrate` is the reference definition;
  `HandleCartRequestPayload` is the accumulating loop, proved equal to it.
- `cart_wrapper.dfy` (`CartStorage`): the `State`/`Transition` enums, the
  default table, class `CartWrapper`, and class `Repository`, whose
  `storage` field is the backend storage as a map from `cartId` to the
  stored wrapper.

The pricing is modelled as the code computes it, including its quirks:
- the quantity is not multiplied into the gross, since `price || 0 * quantity`
  parses as `price || (0 * quantity)`;
- "net" is gross + tax;
- the total's currency is that of the last line ('USD' when there are none);
- a variant whose `priceVariants` is an empty array, or whose first offer is
  `null`, makes the line throw, because reading `.currency` of the missing
  first offer fails;
- a variant whose `priceVariants` is `null` makes the line throw: only
  `undefined` is tested for, so `priceVariants[0]` is read on `null`.

The code has no tax-inclusive mode, no base-price discount and no configurable
output currency, and it does not multiply the price by the quantity.

## Model

| member | source | states |
|---|---|---|
| `StateMachine.ActionInfos` | src/core/statemachine.ts:29-53 | Resolution succeeds iff the current state is a key, the name is one of its transitions and the destination is a key. It then returns the current entry, the transition, the destination and the destination's entry. A missing current state gives the TypeError of the line-33 dereference. A missing name or destination gives a TransitionError with code 400. |
| `StateMachine.WellFormedCanTransit` | src/core/statemachine.ts:29-53 | In a table where every destination exists, a transition from a known state is possible iff its name is listed. |
| `StateMachine.HooksRun` | src/core/statemachine.ts:61-73 | One hook call per hook the table defines for this transition, so none at all iff it defines none. |
| `StateMachine.HookOrder` | src/core/statemachine.ts:61-73 | The hooks of a successful transition run in strictly increasing order: action, onExit, onEnter, onEntered. All but onEntered see the old state; onEntered sees the destination. Exit and action belong to the old state, enter and entered to the destination. |
| `StateMachine.HookPresence` | src/core/statemachine.ts:61-73 | Each hook runs iff the table sets it. |
| `StateMachine.Machine.constructor` | src/core/statemachine.ts:22-27 | The machine holds the subject's state and the given table, and no hook has run. |
| `StateMachine.Machine.CanTransit` | src/core/statemachine.ts:75-82 | True iff the current state's entry has the named transition and its destination is a key of the table. It is a read-only total function, so it never changes the subject and never throws. |
| `StateMachine.Machine.Transition` | src/core/statemachine.ts:57-74 | Succeeds iff `CanTransit` held. On failure it returns the `actionInfos` error, leaves the state unchanged and runs no hook. On success the state becomes the transition's `to` and exactly the hooks of `HooksRun` are appended, in order. |
| `CartHandlers.Skus` | src/cart/handlers.ts:6 | One SKU per requested line, in payload order. |
| `CartHandlers.Aligned` | src/cart/handlers.ts:38-39 | The catalog answer read at each requested position; a position past its end is absent. |
| `CartHandlers.FirstWithSku` | src/cart/handlers.ts:53-55 | No result iff no variant has the SKU. Otherwise the result is the first variant with that SKU. |
| `CartHandlers.FindProduct` | src/cart/handlers.ts:52-57 | No match iff no product has a variant with the SKU. Otherwise the match is the first such product, together with its variant for that SKU. |
| `CartHandlers.PresentProducts` | src/cart/handlers.ts:40 | The filter keeps at most as many records as it is given, and a present first record stays first. |
| `CartHandlers.PresentProductsMembers` | src/cart/handlers.ts:40 | Every kept record is one of the catalog answers, and every present answer is kept. |
| `CartHandlers.PresentProductsAppend` | src/cart/handlers.ts:40 | The records kept from two consecutive stretches of the answer are those kept from the first followed by those kept from the second, so the filter keeps order and count. |
| `CartHandlers.PresentProductsSingle` | src/cart/handlers.ts:40 | A single answer is kept iff it is present. |
| `CartHandlers.FindProductIsFirstMatch` | src/cart/handlers.ts:38-57 | The matched product is the first present catalog record, in requested-SKU order, with a variant of that SKU. The variant is that record's first one with the SKU. No match iff no present record has one. |
| `CartHandlers.HydrateItem` | src/cart/handlers.ts:49-94 | A line that throws throws an error naming its own SKU. A priced line copies the quantity, carries a variant of the requested SKU, and has net = gross + tax. |
| `CartHandlers.HydrateItemFailure` | src/cart/handlers.ts:52-73 | A failing line's error names its SKU. "Product not found" iff no looked-up product has a variant with the SKU. A TypeError for a `null` price-variant array iff the matched variant's `priceVariants` is `null`. A currency TypeError iff it is an array whose first offer is missing (empty array) or `null`. |
| `CartHandlers.HydrateItemLine` | src/cart/handlers.ts:52-94 | A priced line holds the matched product and variant and copies the quantity. `priceVariants` is not `null`. The offer is the first price variant, which is present, or the `{price: 0, identifier: 'undefined'}` placeholder when `priceVariants` is absent. Gross is the offer's price, or 0. The currency is the offer's, or 'EUR'. Tax is gross × VAT% / 100, and net is gross + tax. |
| `CartHandlers.GrossIgnoresQuantity` | src/cart/handlers.ts:74 | With any other quantity, a line has the same outcome and the same price; only the copied quantity differs. |
| `CartHandlers.Collect` | src/cart/handlers.ts:49 | A `map` that completes yields one value per line. A `map` that throws throws the error of one of the callbacks. |
| `CartHandlers.CollectSuccess` | src/cart/handlers.ts:49 | When no callback throws, the `map` yields one value per line, in order. |
| `CartHandlers.CollectFailure` | src/cart/handlers.ts:49 | The `map` throws iff some callback throws, and it throws the error of the first one that does. |
| `CartHandlers.CollectFailureExtends` | src/cart/handlers.ts:49 | Once a prefix of the lines throws, the whole `map` throws the same error. |
| `CartHandlers.Hydrate` | src/cart/handlers.ts:38-103 | A hydrated cart has one item per payload line, and an empty payload gives a zero total in 'USD'. A failure names the SKU of one of the requested lines. |
| `CartHandlers.HandleCartRequestPayload` | src/cart/handlers.ts:42-103 | The loop's result is exactly `Hydrate` of the payload and the catalog answer. That is the priced lines with running totals, or the first line's error. |
| `CartHandlers.HydrateFollowsPayload` | src/cart/handlers.ts:49-94 | A hydrated cart has one item per payload line, in payload order. Each item is that line priced, with its quantity copied and a variant of the requested SKU. |
| `CartHandlers.HydrateFailsAtFirstBadLine` | src/cart/handlers.ts:49-65 | The computation fails iff some line fails, with the first failing line's error. No partial cart is returned. |
| `CartHandlers.UnmatchedSkuFails` | src/cart/handlers.ts:52-61 | A requested SKU that no present record offers makes the computation fail. If every earlier line priced, the error is "product not found" for that SKU. |
| `CartHandlers.SumNetIsGrossPlusTax` | src/cart/handlers.ts:76-80 | If every line has net = gross + tax, the sums satisfy it too. |
| `CartHandlers.HydrateTotals` | src/cart/handlers.ts:42-81 | The total gross, net and tax are the sums of the item fields, starting from 0, and total net = total gross + total tax. The total currency is the last item's, or 'USD' for an empty payload. |
| `CartStorage.DefaultDefinition` | src/cart/storage/cartWrapper.ts:33-56 | The default table has exactly the states Cart, Placed and Paid, defines no hook and no action, every destination is one of its states, and Paid has no transitions. |
| `CartStorage.DefaultDefinitionShape` | src/cart/storage/cartWrapper.ts:33-56 | The default table is well formed and has every state as a key. It allows exactly save→Cart and place→Placed from Cart, and fullfill→Paid from Placed. Paid has no transitions. |
| `CartStorage.WithOrderId` | src/cart/storage/cartWrapper.ts:111 | `orderId` is set, every other key of the old extra is kept with its value, and no other key appears. An undefined extra gives `{orderId}`. |
| `CartStorage.Repository.constructor` | src/cart/storage/cartWrapper.ts:58-63 | The repository uses the given storage, and the given table or else the default one. |
| `CartStorage.Repository.Find` | src/cart/storage/cartWrapper.ts:65-71 | Returns null iff the id is not stored. Otherwise it returns a new wrapper equal to the stored one. |
| `CartStorage.Repository.Persist` | src/cart/storage/cartWrapper.ts:73-75 | Writes the wrapper under its cartId and changes no other key. |
| `CartStorage.Repository.Create` | src/cart/storage/cartWrapper.ts:77-84 | Returns a new wrapper with the given id, cart and extra in state Cart. Storage is not touched. |
| `CartStorage.Repository.Guarded` | src/cart/storage/cartWrapper.ts:86-108 | Returns true iff the transition can be taken. When false, nothing changes. When true, the wrapper is in the destination state and storage[cartId] is the wrapper, with no other key changed. |
| `CartStorage.Repository.Save` | src/cart/storage/cartWrapper.ts:86-96 | As `Guarded` for save. Under the default table it returns true iff the state is Cart, and the state stays what it was. |
| `CartStorage.Repository.Place` | src/cart/storage/cartWrapper.ts:98-108 | As `Guarded` for place. Under the default table it returns true iff the state is Cart, and then the state becomes Placed. |
| `CartStorage.Repository.AttachOrderId` | src/cart/storage/cartWrapper.ts:110-115 | `extra` gains `orderId` even when the call then fails. It succeeds iff fullfill can be taken; on failure it raises the `actionInfos` error and writes nothing. Under the default table it succeeds iff the state is Placed, then moves to Paid and writes storage[cartId]. Otherwise it raises a TransitionError with code 400. |
| `CartStorage.PlaceThenPay` | src/cart/storage/cartWrapper.ts:98-115 | Running create, place and attachOrderId moves the state Cart→Placed→Paid and writes storage twice under the id. `find` then returns the paid wrapper, whose extra is `{orderId}`. |
| `CartStorage.PayWithoutPlacing` | src/cart/storage/cartWrapper.ts:110-115 | attachOrderId on a freshly created wrapper raises a TransitionError. Nothing is stored. |
| `CartStorage.SaveAfterPlace` | src/cart/storage/cartWrapper.ts:86-108 | save on a placed wrapper returns false. Storage keeps the placed record. |

## Left out

- The catalog call `CrystallizeHydraterBySkus` and its query shaping (`extraQuery`, `perProduct`, `perVariant`, the images block for `withImages`) are left out: it is a network call. Its positional answer is the input `response` of `Hydrate`/`HandleCartRequestPayload`.
- Floating point is not modelled: amounts are exact reals, with no IEEE rounding, NaN, infinities or negative zero (`0 * quantity` is `-0` or `NaN` in JavaScript for some quantities).
- Asynchrony is not modelled: `async`/`await`, the un-awaited `persist` promise, and concurrent writers to the same key.
- Serialisation is not modelled: `JSON.stringify`/`JSON.parse` in `persist`/`find` are the identity, and `storage.get`/`set` are reads and writes of the `storage` map.
- Hook callbacks (`action`, `onExit`, `onEnter`, `onEntered`) are modelled only by their call order and the state they observe. A hook that itself changes the subject, or that throws, is not modelled. A throwing `action`, `onExit` or `onEnter` leaves the state unchanged. A throwing `onEntered` leaves the new state written (src/core/statemachine.ts:70-72), and `save` or `place` then skips `persist`.
- In the repository, the machine's `state` field stands for the wrapper's `state` property. `Guarded` and `AttachOrderId` copy it back after a successful transition, which is the single write of line 70.
- State and transition names are closed enumerations. Arbitrary string keys of a custom table are not modelled, nor JavaScript lookups that hit `Object.prototype` members such as `toString`.
- `TransitionError`'s message text is not modelled. Only its code (400) and which lookup failed are kept.
- The "Could not find variant with sku" branch (src/cart/handlers.ts:63-65) is not modelled. It cannot be reached: a product is found only together with its variant.
- Several fields are not modelled: `customer` of `CartWrapper`, `images` of `CartItem`, and the fields of products and variants other than `variants`, `vatType`, `sku` and `priceVariants`. The code passes these through untouched.
- `extra` is modelled as absent or a map of string fields. Other JSON values, and spreading a non-object `extra`, are not modelled.
- `null` is modelled only where the code treats it differently from an absent value: a `null` `priceVariants` array and a `null` first offer. Elsewhere (`variants`, `vatType`, `percent`, `price`, `currency`) the code reads through `?.` and `||`, which treat `null` like `undefined`, so those are modelled as present or absent. A `null` element inside `variants` is not modelled.
- Zod request validation (src/cart/types.ts) is not modelled.
