/** The shopping cart of the storefront: its entries, the first-match lookup of
    `findIndex`, and the result of each cart operation as a pure function of the
    current cart and of what the catalog and stock services answered. */
module Cart {

  /** Product fields the cart carries but never inspects (title, price, image). */
  datatype Details = Details(title: string, price: real, image: string)

  /** A product as the catalog returns it for `/products/{id}`. */
  datatype Product = Product(id: int, details: Details)

  /** One line of the cart: a product's fields with the quantity chosen. */
  datatype Entry = Entry(id: int, details: Details, amount: int)

  /** The answer of a remote lookup: a value, or a failed request. */
  datatype Lookup<T> = Found(value: T) | Failed

  /** What an operation reports: success, a toast message, or nothing at all. */
  datatype Outcome = Ok | Err(msg: string) | Silent

  /** The outcome of an operation together with the cart it leaves. */
  datatype Change = Change(outcome: Outcome, cart: seq<Entry>)

  /** The persisted storage slot: never written, or holding a cart snapshot. */
  datatype Slot = Absent | Holds(entries: seq<Entry>)

  const OutOfStockMessage: string := "Quantidade solicitada fora de estoque"
  const AddFailedMessage: string := "Erro na adição do produto"
  const RemoveFailedMessage: string := "Erro na remoção do produto"
  const UpdateFailedMessage: string := "Erro na alteração de quantidade do produto"

  /** The cart a slot yields at start-up: its snapshot, or the empty cart. */
  function Load(slot: Slot): seq<Entry>
  {
    match slot
    case Absent => []
    case Holds(entries) => entries
  }

  predicate Contains(cart: seq<Entry>, id: int)
  {
    exists k :: 0 <= k < |cart| && cart[k].id == id
  }

  /** At most one entry per product id. */
  predicate Unique(cart: seq<Entry>)
  {
    forall j, k :: 0 <= j < k < |cart| ==> cart[j].id != cart[k].id
  }

  /** Every entry holds at least one unit. */
  predicate AmountsPositive(cart: seq<Entry>)
  {
    forall k :: 0 <= k < |cart| ==> cart[k].amount >= 1
  }

  /** `cart.findIndex(e => e.id === id)`: the first index holding `id`, or -1. */
  function FindIndex(cart: seq<Entry>, id: int): (i: int)
    ensures -1 <= i < |cart|
    ensures i == -1 <==> !Contains(cart, id)
    ensures i >= 0 ==> cart[i].id == id && forall k :: 0 <= k < i ==> cart[k].id != id
    decreases |cart|
  {
    if |cart| == 0 then -1
    else if cart[0].id == id then 0
    else
      var j := FindIndex(cart[1..], id);
      assert forall k :: 1 <= k < |cart| ==> cart[k] == cart[1..][k - 1];
      if j == -1 then -1 else j + 1
  }

  /** The quantity of product `id` in the cart, read from its first entry. */
  function Quantity(cart: seq<Entry>, id: int): int
  {
    var i := FindIndex(cart, id);
    if i == -1 then 0 else cart[i].amount
  }

  /** The number of units in the cart, over all entries. */
  function Total(cart: seq<Entry>): int
  {
    if cart == [] then 0 else cart[0].amount + Total(cart[1..])
  }

  /** The cart with every entry for `id` dropped, the others in order. */
  function Without(cart: seq<Entry>, id: int): seq<Entry>
  {
    if cart == [] then []
    else if cart[0].id == id then Without(cart[1..], id)
    else [cart[0]] + Without(cart[1..], id)
  }

  /** `addProduct(productId)`, given the catalog's answer for the product and
      the stock service's answer for its stock. */
  function Add(cart: seq<Entry>, productId: int, product: Lookup<Product>, stock: Lookup<int>): (r: Change)
    ensures r.outcome.Ok? || r.cart == cart
    ensures r.outcome != Silent
    ensures product.Failed? ==> r.outcome == Err(AddFailedMessage)
    // a product not yet in the cart is appended with one unit, whatever the stock says
    ensures product.Found? && !Contains(cart, productId) ==>
      r == Change(Ok, cart + [Entry(product.value.id, product.value.details, 1)])
    ensures product.Found? && Contains(cart, productId) ==>
      var i := FindIndex(cart, productId);
      && (stock.Failed? ==> r.outcome == Err(AddFailedMessage))
      && (stock.Found? && stock.value - cart[i].amount <= 0 ==> r.outcome == Err(OutOfStockMessage))
      && (stock.Found? && stock.value - cart[i].amount > 0 ==>
            && r.outcome == Ok
            && |r.cart| == |cart|
            && r.cart[i] == cart[i].(amount := cart[i].amount + 1)
            && r.cart[i].amount <= stock.value
            && forall k :: 0 <= k < |cart| && k != i ==> r.cart[k] == cart[k])
  {
    match product
    case Failed => Change(Err(AddFailedMessage), cart)
    case Found(p) =>
      var i := FindIndex(cart, productId);
      if i == -1 then Change(Ok, cart + [Entry(p.id, p.details, 1)])
      else
        match stock
        case Failed => Change(Err(AddFailedMessage), cart)
        case Found(available) =>
          if available - cart[i].amount <= 0 then Change(Err(OutOfStockMessage), cart)
          else Change(Ok, cart[i := cart[i].(amount := cart[i].amount + 1)])
  }

  /** `removeProduct(productId)`: splices out the first entry for the id. */
  function Remove(cart: seq<Entry>, productId: int): (r: Change)
    ensures r.outcome.Ok? || r.cart == cart
    ensures !Contains(cart, productId) <==> r.outcome == Err(RemoveFailedMessage)
    ensures Contains(cart, productId) ==>
      var i := FindIndex(cart, productId);
      && r.outcome == Ok
      && |r.cart| == |cart| - 1
      && (forall k :: 0 <= k < i ==> r.cart[k] == cart[k])
      && (forall k :: i <= k < |r.cart| ==> r.cart[k] == cart[k + 1])
  {
    var i := FindIndex(cart, productId);
    if i == -1 then Change(Err(RemoveFailedMessage), cart)
    else Change(Ok, cart[..i] + cart[i + 1..])
  }

  /** `updateProductAmount({productId, amount})`, given the stock service's answer. */
  function Update(cart: seq<Entry>, productId: int, amount: int, stock: Lookup<int>): (r: Change)
    ensures r.outcome.Ok? || r.cart == cart
    ensures stock.Failed? ==> r.outcome == Err(UpdateFailedMessage)
    ensures stock.Found? && amount > stock.value ==> r.outcome == Err(OutOfStockMessage)
    ensures r.outcome == Silent <==> stock.Found? && amount <= stock.value && amount < 1
    ensures stock.Found? && 1 <= amount <= stock.value && !Contains(cart, productId) ==>
      r.outcome == Err(OutOfStockMessage)
    ensures r.outcome == Ok <==> stock.Found? && 1 <= amount <= stock.value && Contains(cart, productId)
    ensures r.outcome == Ok ==>
      var i := FindIndex(cart, productId);
      && |r.cart| == |cart|
      && r.cart[i] == cart[i].(amount := amount)
      && forall k :: 0 <= k < |cart| && k != i ==> r.cart[k] == cart[k]
  {
    match stock
    case Failed => Change(Err(UpdateFailedMessage), cart)
    case Found(available) =>
      if amount > available then Change(Err(OutOfStockMessage), cart)
      else if amount < 1 then Change(Silent, cart)
      else
        var i := FindIndex(cart, productId);
        if i == -1 then Change(Err(OutOfStockMessage), cart)
        else Change(Ok, cart[i := cart[i].(amount := amount)])
  }

  // ---------------------------------------------------------------------------
  // Lookup after the three kinds of edit

  lemma FindIndexAppend(cart: seq<Entry>, e: Entry, id: int)
    ensures FindIndex(cart + [e], id) ==
      if FindIndex(cart, id) != -1 then FindIndex(cart, id)
      else if e.id == id then |cart| else -1
  {
    var c := cart + [e];
    assert forall k :: 0 <= k < |cart| ==> c[k] == cart[k];
    assert c[|cart|] == e;
  }

  lemma FindIndexSet(cart: seq<Entry>, i: int, x: Entry, id: int)
    requires 0 <= i < |cart| && x.id == cart[i].id
    ensures FindIndex(cart[i := x], id) == FindIndex(cart, id)
  {
    var c := cart[i := x];
    assert forall k :: 0 <= k < |cart| ==> c[k].id == cart[k].id;
  }

  lemma FindIndexSplice(cart: seq<Entry>, i: int, id: int)
    requires 0 <= i < |cart| && cart[i].id != id
    ensures var j := FindIndex(cart, id);
      FindIndex(cart[..i] + cart[i + 1..], id) == if j == -1 then -1 else if j < i then j else j - 1
  {
    var c := cart[..i] + cart[i + 1..];
    assert forall k :: 0 <= k < i ==> c[k] == cart[k];
    assert forall k :: i <= k < |c| ==> c[k] == cart[k + 1];
    var j := FindIndex(cart, id);
    if j == -1 {
      assert forall k :: 0 <= k < |c| ==> c[k].id != id;
    } else if j > i {
      assert c[j - 1] == cart[j];
    }
  }

  // ---------------------------------------------------------------------------
  // Totals after the three kinds of edit

  lemma {:induction false} TotalAppend(cart: seq<Entry>, e: Entry)
    ensures Total(cart + [e]) == Total(cart) + e.amount
  {
    if cart != [] {
      assert (cart + [e])[1..] == cart[1..] + [e];
      TotalAppend(cart[1..], e);
    }
  }

  lemma {:induction false} TotalSet(cart: seq<Entry>, i: int, x: Entry)
    requires 0 <= i < |cart|
    ensures Total(cart[i := x]) == Total(cart) - cart[i].amount + x.amount
  {
    if i > 0 {
      assert cart[i := x][1..] == cart[1..][i - 1 := x];
      TotalSet(cart[1..], i - 1, x);
    }
  }

  lemma {:induction false} TotalSplice(cart: seq<Entry>, i: int)
    requires 0 <= i < |cart|
    ensures Total(cart[..i] + cart[i + 1..]) == Total(cart) - cart[i].amount
  {
    if i == 0 {
      assert cart[..0] + cart[1..] == cart[1..];
    } else {
      var rest := cart[1..];
      assert (cart[..i] + cart[i + 1..])[0] == cart[0];
      assert (cart[..i] + cart[i + 1..])[1..] == rest[..i - 1] + rest[i..];
      TotalSplice(rest, i - 1);
    }
  }

  // ---------------------------------------------------------------------------
  // addProduct

  /** With the catalog answering for the product asked for, adding keeps the
      cart free of duplicate ids: it appends only when the id was absent. */
  lemma AddPreservesUnique(cart: seq<Entry>, productId: int, product: Lookup<Product>, stock: Lookup<int>)
    requires Unique(cart)
    requires product.Found? ==> product.value.id == productId
    ensures Unique(Add(cart, productId, product, stock).cart)
  {
  }

  lemma AddPreservesPositive(cart: seq<Entry>, productId: int, product: Lookup<Product>, stock: Lookup<int>)
    requires AmountsPositive(cart)
    ensures AmountsPositive(Add(cart, productId, product, stock).cart)
  {
  }

  /** A successful add raises the quantity of that product by one, leaves every
      other product's quantity alone, and adds one unit to the cart's total. */
  lemma AddQuantity(cart: seq<Entry>, p: Product, stock: Lookup<int>)
    ensures var r := Add(cart, p.id, Found(p), stock);
      r.outcome.Ok? ==>
        && Quantity(r.cart, p.id) == Quantity(cart, p.id) + 1
        && Total(r.cart) == Total(cart) + 1
        && forall other :: other != p.id ==> Quantity(r.cart, other) == Quantity(cart, other)
  {
    var r := Add(cart, p.id, Found(p), stock);
    var i := FindIndex(cart, p.id);
    if i == -1 {
      var e := Entry(p.id, p.details, 1);
      FindIndexAppend(cart, e, p.id);
      TotalAppend(cart, e);
      forall other | other != p.id ensures Quantity(r.cart, other) == Quantity(cart, other) {
        FindIndexAppend(cart, e, other);
        if FindIndex(cart, other) != -1 {
          assert r.cart[FindIndex(cart, other)] == cart[FindIndex(cart, other)];
        }
      }
    } else if r.outcome.Ok? {
      var x := cart[i].(amount := cart[i].amount + 1);
      assert r.cart == cart[i := x];
      FindIndexSet(cart, i, x, p.id);
      TotalSet(cart, i, x);
      forall other | other != p.id ensures Quantity(r.cart, other) == Quantity(cart, other) {
        FindIndexSet(cart, i, x, other);
      }
    }
  }

  /** The appended entry takes its id from the catalog's answer: when that
      answer names a product already in the cart, the cart gets a duplicate. */
  lemma AddForeignIdDuplicates(d: Details)
    ensures var cart := [Entry(2, d, 1)];
      && Unique(cart)
      && Add(cart, 1, Found(Product(2, d)), Failed) == Change(Ok, [Entry(2, d, 1), Entry(2, d, 1)])
      && !Unique(Add(cart, 1, Found(Product(2, d)), Failed).cart)
  {
    var cart := [Entry(2, d, 1)];
    assert FindIndex(cart, 1) == -1;
    var c := Add(cart, 1, Found(Product(2, d)), Failed).cart;
    assert c[0].id == c[1].id;
  }

  // ---------------------------------------------------------------------------
  // removeProduct

  /** In a cart without duplicate ids, a successful removal leaves no entry for
      that id, keeps the cart free of duplicates, and equals dropping the id. */
  lemma RemoveClearsId(cart: seq<Entry>, productId: int)
    requires Unique(cart)
    ensures var r := Remove(cart, productId);
      && Unique(r.cart)
      && !Contains(r.cart, productId)
      && (r.outcome.Ok? ==> r.cart == Without(cart, productId))
  {
    var r := Remove(cart, productId);
    var i := FindIndex(cart, productId);
    if i != -1 {
      var c := r.cart;
      assert forall k :: 0 <= k < i ==> c[k] == cart[k];
      assert forall k :: i <= k < |c| ==> c[k] == cart[k + 1];
      forall k | 0 <= k < |c| ensures c[k].id != productId {
        if k >= i { assert cart[k + 1].id != cart[i].id; }
      }
      forall j, k | 0 <= j < k < |c| ensures c[j].id != c[k].id {
        if j >= i { assert cart[j + 1].id != cart[k + 1].id; }
        else if k >= i { assert cart[j].id != cart[k + 1].id; }
      }
      WithoutUniqueSplice(cart, i);
    }
  }

  /** Dropping the id of the entry at `i` from a duplicate-free cart is exactly
      splicing out position `i`. */
  lemma {:induction false} WithoutUniqueSplice(cart: seq<Entry>, i: int)
    requires Unique(cart) && 0 <= i < |cart|
    ensures Without(cart, cart[i].id) == cart[..i] + cart[i + 1..]
    decreases |cart|
  {
    var id := cart[i].id;
    var rest := cart[1..];
    assert Unique(rest) by {
      forall j, k | 0 <= j < k < |rest| ensures rest[j].id != rest[k].id {
        assert rest[j] == cart[j + 1] && rest[k] == cart[k + 1];
      }
    }
    if i == 0 {
      assert forall k :: 0 <= k < |rest| ==> rest[k].id != id by {
        forall k | 0 <= k < |rest| ensures rest[k].id != id {
          assert rest[k] == cart[k + 1];
        }
      }
      WithoutAbsent(rest, id);
      assert cart[..0] + cart[1..] == rest;
    } else {
      assert rest[i - 1] == cart[i];
      assert cart[0].id != id;
      WithoutUniqueSplice(rest, i - 1);
      assert cart[..i] + cart[i + 1..] == [cart[0]] + (rest[..i - 1] + rest[i..]);
    }
  }

  lemma {:induction false} WithoutAbsent(cart: seq<Entry>, id: int)
    requires forall k :: 0 <= k < |cart| ==> cart[k].id != id
    ensures Without(cart, id) == cart
  {
    if cart != [] {
      assert cart[0].id != id;
      WithoutAbsent(cart[1..], id);
      assert cart == [cart[0]] + cart[1..];
    }
  }

  lemma RemovePreservesPositive(cart: seq<Entry>, productId: int)
    requires AmountsPositive(cart)
    ensures AmountsPositive(Remove(cart, productId).cart)
  {
  }

  /** A successful removal leaves every other product's quantity alone and
      takes the removed entry's units off the cart's total. */
  lemma RemoveQuantity(cart: seq<Entry>, productId: int)
    ensures var r := Remove(cart, productId);
      r.outcome.Ok? ==>
        && Total(r.cart) == Total(cart) - Quantity(cart, productId)
        && forall other :: other != productId ==> Quantity(r.cart, other) == Quantity(cart, other)
  {
    var r := Remove(cart, productId);
    var i := FindIndex(cart, productId);
    if i != -1 {
      TotalSplice(cart, i);
      forall other | other != productId ensures Quantity(r.cart, other) == Quantity(cart, other) {
        FindIndexSplice(cart, i, other);
        var j := FindIndex(cart, other);
        if j != -1 && j > i {
          assert r.cart[j - 1] == cart[j];
        }
      }
    }
  }

  /** Adding a product that is not in the cart and then removing it gives back
      the cart as it was. */
  lemma AddThenRemove(cart: seq<Entry>, p: Product, stock: Lookup<int>)
    requires !Contains(cart, p.id)
    ensures var r := Add(cart, p.id, Found(p), stock);
      r.outcome == Ok && Remove(r.cart, p.id) == Change(Ok, cart)
  {
    var e := Entry(p.id, p.details, 1);
    FindIndexAppend(cart, e, p.id);
    assert (cart + [e])[..|cart|] == cart;
  }

  // ---------------------------------------------------------------------------
  // updateProductAmount

  /** A successful update changes only the amount of one entry: ids, order and
      the set of products stay as they were. */
  lemma UpdateKeepsIds(cart: seq<Entry>, productId: int, amount: int, stock: Lookup<int>)
    ensures var r := Update(cart, productId, amount, stock);
      && |r.cart| == |cart|
      && (forall k :: 0 <= k < |cart| ==> r.cart[k].id == cart[k].id && r.cart[k].details == cart[k].details)
      && (Unique(cart) ==> Unique(r.cart))
      && (AmountsPositive(cart) ==> AmountsPositive(r.cart))
      && (r.outcome == Ok ==> 1 <= Quantity(r.cart, productId) <= stock.value)
  {
  }

  /** A successful update sets the product's quantity to exactly `amount`,
      leaves every other product's quantity alone, and moves the total by the
      difference. */
  lemma UpdateQuantity(cart: seq<Entry>, productId: int, amount: int, stock: Lookup<int>)
    ensures var r := Update(cart, productId, amount, stock);
      r.outcome.Ok? ==>
        && Quantity(r.cart, productId) == amount
        && Total(r.cart) == Total(cart) - Quantity(cart, productId) + amount
        && forall other :: Quantity(r.cart, other) == if other == productId then amount else Quantity(cart, other)
  {
    var r := Update(cart, productId, amount, stock);
    if r.outcome.Ok? {
      var i := FindIndex(cart, productId);
      var x := cart[i].(amount := amount);
      TotalSet(cart, i, x);
      forall other ensures Quantity(r.cart, other) == if other == productId then amount else Quantity(cart, other) {
        FindIndexSet(cart, i, x, other);
      }
    }
  }

  /** Repeating a successful update changes nothing more. */
  lemma UpdateIdempotent(cart: seq<Entry>, productId: int, amount: int, stock: Lookup<int>)
    ensures var r := Update(cart, productId, amount, stock);
      r.outcome.Ok? ==> Update(r.cart, productId, amount, stock) == r
  {
  }

  /** An increment by add is undone by updating the entry back to its previous
      amount, when that amount is a legal one. */
  lemma UpdateUndoesAdd(cart: seq<Entry>, p: Product, available: int)
    requires Contains(cart, p.id)
    requires 1 <= Quantity(cart, p.id)
    ensures var r := Add(cart, p.id, Found(p), Found(available));
      r.outcome.Ok? ==> Update(r.cart, p.id, Quantity(cart, p.id), Found(available)) == Change(Ok, cart)
  {
  }

  // ---------------------------------------------------------------------------
  // The worked example: one entry for product 1 holding two units.

  lemma ExampleAddAgainstStock(d: Details)
    ensures var cart := [Entry(1, d, 2)];
      && Add(cart, 1, Found(Product(1, d)), Found(3)) == Change(Ok, [Entry(1, d, 3)])
      && Add(cart, 1, Found(Product(1, d)), Found(2)) == Change(Err(OutOfStockMessage), cart)
  {
  }
}
