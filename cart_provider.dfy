/** The cart provider: the in-memory cart and the persisted slot it mirrors,
    with the three operations that read the cart, edit a copy and commit it. */
module CartStore {
  import opened Cart

  class CartProvider {
    /** The in-memory cart state (`useState`). */
    var cart: seq<Entry>
    /** The persisted slot `@RocketShoes:cart` (`localStorage`). */
    var stored: Slot

    /** Reloading the slot reproduces the in-memory cart. */
    predicate Synced()
      reads this
    {
      Load(stored) == cart
    }

    /** Start-up: the cart is the stored snapshot when there is one, else empty;
        the slot itself is not written. */
    constructor (slot: Slot)
      ensures stored == slot
      ensures cart == Load(slot)
      ensures Synced()
    {
      stored := slot;
      if slot.Holds? {
        cart := slot.entries;
      } else {
        cart := [];
      }
    }

    /** `setCart` and `localStorage.setItem` with the same new cart. */
    method Commit(updated: seq<Entry>)
      modifies this
      ensures cart == updated && stored == Holds(updated)
      ensures Synced()
    {
      cart := updated;
      stored := Holds(updated);
    }

    method AddProduct(productId: int, product: Lookup<Product>, stock: Lookup<int>) returns (o: Outcome)
      modifies this
      ensures Change(o, cart) == Add(old(cart), productId, product, stock)
      ensures o == Ok ==> stored == Holds(cart)
      ensures o != Ok ==> cart == old(cart) && stored == old(stored)
      ensures old(Synced()) ==> Synced()
      ensures old(Unique(cart)) && (product.Found? ==> product.value.id == productId) ==> Unique(cart)
      ensures old(AmountsPositive(cart)) ==> AmountsPositive(cart)
    {
      if Unique(cart) && (product.Found? ==> product.value.id == productId) {
        AddPreservesUnique(cart, productId, product, stock);
      }
      if AmountsPositive(cart) {
        AddPreservesPositive(cart, productId, product, stock);
      }
      if product.Failed? {
        return Err(AddFailedMessage);
      }
      var p := product.value;
      var i := FindIndex(cart, productId);
      if i == -1 {
        Commit(cart + [Entry(p.id, p.details, 1)]);
        return Ok;
      }
      if stock.Failed? {
        return Err(AddFailedMessage);
      }
      if stock.value - cart[i].amount <= 0 {
        return Err(OutOfStockMessage);
      }
      var updated := cart[i := cart[i].(amount := cart[i].amount + 1)];
      Commit(updated);
      return Ok;
    }

    method RemoveProduct(productId: int) returns (o: Outcome)
      modifies this
      ensures Change(o, cart) == Remove(old(cart), productId)
      ensures o == Ok ==> stored == Holds(cart)
      ensures o != Ok ==> cart == old(cart) && stored == old(stored)
      ensures old(Synced()) ==> Synced()
      ensures old(Unique(cart)) ==> Unique(cart) && !Contains(cart, productId)
      ensures old(AmountsPositive(cart)) ==> AmountsPositive(cart)
    {
      if Unique(cart) {
        RemoveClearsId(cart, productId);
      }
      if AmountsPositive(cart) {
        RemovePreservesPositive(cart, productId);
      }
      var i := FindIndex(cart, productId);
      if i == -1 {
        return Err(RemoveFailedMessage);
      }
      var updated := cart[..i] + cart[i + 1..];
      Commit(updated);
      return Ok;
    }

    method UpdateProductAmount(productId: int, amount: int, stock: Lookup<int>) returns (o: Outcome)
      modifies this
      ensures Change(o, cart) == Update(old(cart), productId, amount, stock)
      ensures o == Ok ==> stored == Holds(cart)
      ensures o != Ok ==> cart == old(cart) && stored == old(stored)
      ensures old(Synced()) ==> Synced()
      ensures old(Unique(cart)) ==> Unique(cart)
      ensures old(AmountsPositive(cart)) ==> AmountsPositive(cart)
    {
      UpdateKeepsIds(cart, productId, amount, stock);
      if stock.Failed? {
        return Err(UpdateFailedMessage);
      }
      if amount > stock.value {
        return Err(OutOfStockMessage);
      }
      if amount < 1 {
        return Silent;
      }
      var i := FindIndex(cart, productId);
      if i == -1 {
        return Err(OutOfStockMessage);
      }
      var updated := cart[i := cart[i].(amount := amount)];
      Commit(updated);
      return Ok;
    }
  }

  /** A restart: a provider built from the persisted slot of a synced provider
      holds the same cart. */
  method Reload(p: CartProvider) returns (q: CartProvider)
    requires p.Synced()
    ensures q.cart == p.cart && q.stored == p.stored
  {
    q := new CartProvider(p.stored);
  }

  /** The worked example, driven through the provider. */
  method ExampleSession(d: Details)
  {
    var store := new CartProvider(Holds([Entry(1, d, 2)]));
    var o := store.AddProduct(1, Found(Product(1, d)), Found(2));
    assert o == Err(OutOfStockMessage) && store.cart == [Entry(1, d, 2)];
    o := store.AddProduct(1, Found(Product(1, d)), Found(3));
    assert o == Ok && store.cart == [Entry(1, d, 3)] && store.stored == Holds(store.cart);
    o := store.UpdateProductAmount(1, 0, Found(3));
    assert o == Silent && store.cart == [Entry(1, d, 3)];
    o := store.RemoveProduct(1);
    assert o == Ok && store.cart == [] && store.stored == Holds([]);
    o := store.RemoveProduct(1);
    assert o == Err(RemoveFailedMessage);
  }
}
