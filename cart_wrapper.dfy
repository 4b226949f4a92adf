/**
 * The cart lifecycle repository of src/cart/storage/cartWrapper.ts: a
 * `CartWrapper` (a priced cart with its lifecycle state) whose transitions
 * go through the state machine, and a backend storage keyed by `cartId`
 * that every successful transition writes to.
 */
module CartStorage {
  import opened Wrappers
  import CartTypes
  import SM = StateMachine

  /** The lifecycle states ('cart', 'placed', 'paid'). */
  datatype State = Cart | Placed | Paid

  /** The transition names ('save', 'place', 'fullfill'), spelled as in the source. */
  datatype Transition = Save | Place | Fullfill

  type Definition = SM.Definition<State, Transition>

  /** The opaque `extra` bag: `None` when it is `undefined`, otherwise an object of string fields. */
  type Extra = Option<map<string, string>>

  type RepositoryError = SM.FsmError<State, Transition>

  /** `defaultStateMachineDefinition`: Cart -save-> Cart, Cart -place-> Placed, Placed -fullfill-> Paid; no hooks. */
  function DefaultDefinition(): (r: Definition)
    ensures r.Keys == {Cart, Placed, Paid}
    ensures forall s :: s in r ==> !r[s].hasOnExit && !r[s].hasOnEnter && !r[s].hasOnEntered
    ensures forall s, n :: s in r && n in r[s].transitions ==> !r[s].transitions[n].hasAction && r[s].transitions[n].to in r
    ensures Paid in r && r[Paid].transitions == map[]
  {
    map[
      Cart := SM.StateDef(
        map[Transition.Save := SM.TransitionDef(Cart, false), Transition.Place := SM.TransitionDef(Placed, false)],
        false, false, false),
      Placed := SM.StateDef(map[Fullfill := SM.TransitionDef(Paid, false)], false, false, false),
      Paid := SM.StateDef(map[], false, false, false)
    ]
  }

  /**
   * The default table is well formed, has every state as a key, and allows
   * exactly save and place from Cart and fullfill from Placed, to Cart,
   * Placed and Paid respectively; Paid is terminal.
   */
  lemma DefaultDefinitionShape()
    ensures SM.WellFormed(DefaultDefinition())
    ensures forall s: State :: s in DefaultDefinition()
    ensures forall s: State, n: Transition ::
      SM.ActionInfos(DefaultDefinition(), s, n).Success? <==>
        (s == Cart && n != Fullfill) || (s == Placed && n == Fullfill)
    ensures forall n: Transition :: !SM.ActionInfos(DefaultDefinition(), Paid, n).Success?
    ensures DefaultDefinition()[Cart].transitions[Transition.Save].to == Cart
    ensures DefaultDefinition()[Cart].transitions[Transition.Place].to == Placed
    ensures DefaultDefinition()[Placed].transitions[Fullfill].to == Paid
  {
    forall s: State
      ensures s in DefaultDefinition()
    {
      match s
      case Cart =>
      case Placed =>
      case Paid =>
    }
  }

  /** The stored form of a wrapper (serialisation is treated as the identity). */
  datatype WrapperRecord = WrapperRecord(cartId: string, cart: CartTypes.Cart, state: State, extra: Extra)

  /** `CartWrapper`: the mutable object the repository's operations receive. */
  class CartWrapper {
    var cartId: string
    var cart: CartTypes.Cart
    var state: State
    var extra: Extra

    constructor (cartId: string, cart: CartTypes.Cart, state: State, extra: Extra)
      ensures Record() == WrapperRecord(cartId, cart, state, extra)
    {
      this.cartId := cartId;
      this.cart := cart;
      this.state := state;
      this.extra := extra;
    }

    function Record(): WrapperRecord
      reads this
    {
      WrapperRecord(cartId, cart, state, extra)
    }
  }

  /** `{...extra, orderId}`: the old fields with `orderId` added or overwritten. */
  function WithOrderId(extra: Extra, orderId: string): (r: Extra)
    ensures r.Some? && "orderId" in r.value && r.value["orderId"] == orderId
    ensures extra.Some? ==> forall key :: key in extra.value && key != "orderId" ==> key in r.value && r.value[key] == extra.value[key]
    ensures forall key :: key in r.value ==> key == "orderId" || (extra.Some? && key in extra.value)
  {
    Some(extra.GetOr(map[])["orderId" := orderId])
  }

  /**
   * The object `createRepository` returns. `storage` is the content of the
   * backend storage; `writes` lists the keys of the `storage.set` calls made.
   */
  class Repository {
    var storage: map<string, WrapperRecord>
    ghost var writes: seq<string>
    const definition: Definition

    /** `createRepository(storage, stateMachineDefinition?)`: the default table unless one is given. */
    constructor (initial: map<string, WrapperRecord>, stateMachineDefinition: Option<Definition>)
      ensures storage == initial && writes == []
      ensures definition == stateMachineDefinition.GetOr(DefaultDefinition())
    {
      storage := initial;
      writes := [];
      definition := stateMachineDefinition.GetOr(DefaultDefinition());
    }

    /** `find`: a new wrapper read from storage, or null when the key is absent. */
    method Find(id: string) returns (w: CartWrapper?)
      ensures w == null <==> id !in storage
      ensures w != null ==> fresh(w) && w.Record() == storage[id]
    {
      if id in storage {
        var item := storage[id];
        w := new CartWrapper(item.cartId, item.cart, item.state, item.extra);
      } else {
        w := null;
      }
    }

    /** `persist`: write the wrapper under its `cartId`. */
    method Persist(item: CartWrapper)
      modifies this`storage, this`writes
      ensures storage == old(storage)[item.cartId := item.Record()]
      ensures writes == old(writes) + [item.cartId]
    {
      storage := storage[item.cartId := item.Record()];
      writes := writes + [item.cartId];
    }

    /** `create`: a new wrapper in state Cart; nothing is written. */
    method Create(cart: CartTypes.Cart, id: string, extra: Extra) returns (w: CartWrapper)
      ensures fresh(w) && w.Record() == WrapperRecord(id, cart, Cart, extra)
    {
      w := new CartWrapper(id, cart, Cart, extra);
    }

    /**
     * The shared shape of `save` and `place`: probe with `canTransit`,
     * return false when it fails, otherwise transition and persist.
     */
    method Guarded(w: CartWrapper, name: Transition) returns (ok: bool)
      modifies this`storage, this`writes, w`state
      ensures ok == SM.ActionInfos(definition, old(w.state), name).Success?
      ensures !ok ==> w.state == old(w.state) && storage == old(storage) && writes == old(writes)
      ensures ok ==>
        && w.state == definition[old(w.state)].transitions[name].to
        && storage == old(storage)[w.cartId := w.Record()]
        && writes == old(writes) + [w.cartId]
    {
      var machine := new SM.Machine<State, Transition>(w.state, definition);
      if !machine.CanTransit(name) {
        return false;
      }
      var outcome := machine.Transition(name);
      w.state := machine.state;
      Persist(w);
      ok := true;
    }

    /** `save`: Cart to Cart, guarded; under the default table it succeeds exactly in state Cart. */
    method Save(w: CartWrapper) returns (ok: bool)
      modifies this`storage, this`writes, w`state
      ensures ok == SM.ActionInfos(definition, old(w.state), Transition.Save).Success?
      ensures !ok ==> w.state == old(w.state) && storage == old(storage) && writes == old(writes)
      ensures ok ==>
        && w.state == definition[old(w.state)].transitions[Transition.Save].to
        && storage == old(storage)[w.cartId := w.Record()]
        && writes == old(writes) + [w.cartId]
      ensures definition == DefaultDefinition() ==> (ok <==> old(w.state) == Cart) && w.state == old(w.state)
    {
      ok := Guarded(w, Transition.Save);
    }

    /** `place`: Cart to Placed, guarded; under the default table it succeeds exactly in state Cart. */
    method Place(w: CartWrapper) returns (ok: bool)
      modifies this`storage, this`writes, w`state
      ensures ok == SM.ActionInfos(definition, old(w.state), Transition.Place).Success?
      ensures !ok ==> w.state == old(w.state) && storage == old(storage) && writes == old(writes)
      ensures ok ==>
        && w.state == definition[old(w.state)].transitions[Transition.Place].to
        && storage == old(storage)[w.cartId := w.Record()]
        && writes == old(writes) + [w.cartId]
      ensures definition == DefaultDefinition() ==> (ok <==> old(w.state) == Cart) && (ok ==> w.state == Placed)
    {
      ok := Guarded(w, Transition.Place);
    }

    /**
     * `attachOrderId`: merge `orderId` into `extra` first, then transition
     * with fullfill without probing, so a wrapper not in Placed throws
     * `TransitionError` (with `extra` already changed) and nothing is written.
     */
    method AttachOrderId(w: CartWrapper, orderId: string) returns (outcome: Outcome<RepositoryError>)
      modifies this`storage, this`writes, w`state, w`extra
      ensures w.extra == WithOrderId(old(w.extra), orderId)
      ensures outcome.Pass? <==> SM.ActionInfos(definition, old(w.state), Fullfill).Success?
      ensures outcome.Fail? ==>
        && outcome.error == SM.ActionInfos(definition, old(w.state), Fullfill).error
        && w.state == old(w.state) && storage == old(storage) && writes == old(writes)
      ensures outcome.Pass? ==>
        && w.state == definition[old(w.state)].transitions[Fullfill].to
        && storage == old(storage)[w.cartId := w.Record()]
        && writes == old(writes) + [w.cartId]
      ensures definition == DefaultDefinition() ==>
        && (outcome.Pass? <==> old(w.state) == Placed)
        && (outcome.Pass? ==> w.state == Paid)
        && (outcome.Fail? ==> outcome.error.TransitionError? && outcome.error.code == SM.TransitionErrorCode)
    {
      w.extra := WithOrderId(w.extra, orderId);
      var machine := new SM.Machine<State, Transition>(w.state, definition);
      outcome := machine.Transition(Fullfill);
      if outcome.Fail? {
        return;
      }
      w.state := machine.state;
      Persist(w);
    }
  }

  /**
   * create, place, attachOrderId on an empty default repository: the state
   * goes Cart, Placed, Paid, the storage is written twice under the id, and
   * `find` then returns the paid wrapper with the order id in `extra`.
   */
  method PlaceThenPay(cart: CartTypes.Cart, id: string, orderId: string)
    returns (states: seq<State>, found: Option<WrapperRecord>, ghost written: seq<string>)
    ensures states == [Cart, Placed, Paid]
    ensures found == Some(WrapperRecord(id, cart, Paid, Some(map["orderId" := orderId])))
    ensures written == [id, id]
  {
    var repository := new Repository(map[], None);
    var w := repository.Create(cart, id, None);
    states := [w.state];
    var placed := repository.Place(w);
    states := states + [w.state];
    var paid := repository.AttachOrderId(w, orderId);
    states := states + [w.state];
    var f := repository.Find(id);
    found := if f == null then None else Some(f.Record());
    written := repository.writes;
  }

  /**
   * attachOrderId on a freshly created wrapper throws `TransitionError`
   * and writes nothing, so `find` returns null.
   */
  method PayWithoutPlacing(cart: CartTypes.Cart, id: string, orderId: string)
    returns (outcome: Outcome<RepositoryError>, absent: bool)
    ensures outcome.Fail? && outcome.error.TransitionError?
    ensures absent
  {
    var repository := new Repository(map[], None);
    var w := repository.Create(cart, id, None);
    outcome := repository.AttachOrderId(w, orderId);
    var f := repository.Find(id);
    absent := f == null;
  }

  /** save on a placed wrapper returns false and writes nothing: storage keeps the placed record. */
  method SaveAfterPlace(cart: CartTypes.Cart, id: string)
    returns (saved: bool, found: Option<WrapperRecord>)
    ensures !saved
    ensures found == Some(WrapperRecord(id, cart, Placed, None))
  {
    var repository := new Repository(map[], None);
    var w := repository.Create(cart, id, None);
    var placed := repository.Place(w);
    saved := repository.Save(w);
    var f := repository.Find(id);
    found := if f == null then None else Some(f.Record());
  }
}
