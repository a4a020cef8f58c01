# Shopping cart of the RocketShoes storefront, in Dafny

This project models the cart held by `CartProvider` in `src/hooks/useCart.tsx`.
The cart is an ordered list of product entries, each with an `amount`.
It is kept in React state and mirrored to the browser storage slot `@RocketShoes:cart`.
Three operations change it:

- `addProduct` appends a product that is not yet in the cart with one unit.
  If the product is already there, it adds one unit, provided the stock service reports more units than the entry holds.
- `removeProduct` splices out the product's entry.
- `updateProductAmount` sets an entry's amount, within the stock.

Each operation either commits one new cart to both the state and the slot, or changes nothing.
Every path that changes nothing shows a toast, except the silent no-op of `updateProductAmount` for an amount below 1.

The project has two modules:

- `Cart` (`cart.dfy`) holds the value types and the `findIndex` lookup (`FindIndex`).
  It gives each operation's result as a pure function of the current cart and of what the catalog and stock services answered (`Add`, `Remove`, `Update`).
  It also proves the invariants and relations between these functions.
  The abstract view of a cart is `Quantity(cart, id)`, the amount in the first entry for `id`, or 0.
  These are the invariants and relations proved:
  - at most one entry per id (`Unique`);
  - every amount at least one (`AmountsPositive`);
  - the total number of units (`Total`);
  - removal matching a filter over the ids (`Without`);
  - add followed by remove, and add followed by update, giving back the original cart;
  - update being idempotent.
- `CartStore` (`cart_provider.dfy`) holds the class `CartProvider`, with the two fields `cart` (the state) and `stored` (the slot).
  Its methods follow the source step by step: look up the index, check the guards, edit a copy, commit through `Commit`.
  Each method is proved equal to the matching pure function.
  Each is also proved to write the slot exactly when it succeeds, so `Synced()` (reloading the slot gives the cart) always holds.

The services and the toast become plain values:

- the catalog's answer for `/products/{id}` is a `Lookup<Product>` input;
- the stock service's answer for `/stock/{id}` is a `Lookup<int>` input;
- `Failed` stands for a request that threw;
- the toast is the returned `Outcome` (`Ok`, `Err(message)` with the source's exact Portuguese text, or `Silent`).

The storage slot is `Slot = Absent | Holds(entries)`, not a bare list.
The initialiser never writes the slot, so a fresh provider with no saved cart has an empty cart and a slot that is still absent.
`Load` is what the initialiser reads back from the slot.

## Design notes

- A new entry gets its `id` from the catalog's product (the object spread of `product.data`), not from the `productId` argument.
  So `AddPreservesUnique` assumes the catalog answers with the product that was asked for.
  `AddQuantity`, `AddThenRemove`, `UpdateUndoesAdd` and `ExampleAddAgainstStock` make the same assumption: each adds with `productId` equal to the id of the catalog's product.
  `AddForeignIdDuplicates` shows what happens without it: a cart holding only product 2, asked to add product 1 while the catalog answers with product 2, ends up with two entries for product 2.
- Adding a product not yet in the cart never consults the stock.
  The entry gets one unit even when the stock is 0.
  `Add`'s contract states this as written.
- `updateProductAmount` reports the out-of-stock message when the id is not in the cart.
  The model keeps this as written.
- The guards of `updateProductAmount` run in the source's order.
  With a negative stock and `amount = 0`, the result is therefore the out-of-stock message, not the silent no-op.

## Model

| member | source | states |
|---|---|---|
| Cart.FindIndex | src/hooks/useCart.tsx:37 | the result is -1 exactly when no entry has the id; otherwise it is the first index holding the id |
| Cart.Add | src/hooks/useCart.tsx:33-72 | a failed catalog lookup gives "Erro na adição do produto"; an absent id is appended as the product's fields with amount 1, with no stock check; for a present id, a failed stock lookup gives the generic error, `stock - amount <= 0` gives "Quantidade solicitada fora de estoque", and otherwise exactly that entry gains one unit, staying within the stock; every failure leaves the cart as it was |
| Cart.Remove | src/hooks/useCart.tsx:74-91 | an absent id gives "Erro na remoção do produto" and the same cart; a present id loses exactly the element at its first index, and the entries before and after keep their order |
| Cart.Update | src/hooks/useCart.tsx:93-130 | the checks run in the source's order: a failed stock lookup gives "Erro na alteração de quantidade do produto", `amount > stock` gives the out-of-stock message, `amount < 1` is silent, and an absent id gives the out-of-stock message; success happens exactly when stock is known, 1 <= amount <= stock and the id is present, and then only that entry's amount changes, to `amount` |
| Cart.AddPreservesUnique | src/hooks/useCart.tsx:37-46 | when the catalog answers with the product asked for, adding keeps the cart to at most one entry per id |
| Cart.AddPreservesPositive | src/hooks/useCart.tsx:41-59 | adding keeps every amount at least 1 |
| Cart.AddQuantity | src/hooks/useCart.tsx:41-63 | a successful add raises that product's quantity by exactly one and the cart's total by one, and leaves every other product's quantity unchanged |
| Cart.RemoveClearsId | src/hooks/useCart.tsx:76-83 | in a cart with at most one entry per id, removal keeps that property and leaves no entry with the id; a successful removal equals filtering the id out |
| Cart.RemovePreservesPositive | src/hooks/useCart.tsx:82-83 | removing keeps every amount at least 1 |
| Cart.RemoveQuantity | src/hooks/useCart.tsx:82-83 | a successful removal takes the removed entry's units off the total and leaves every other product's quantity unchanged |
| Cart.AddThenRemove | src/hooks/useCart.tsx:37-83 | adding a product that is not in the cart and then removing it gives back the original cart |
| Cart.UpdateKeepsIds | src/hooks/useCart.tsx:111-121 | update keeps the length, every id and every product's fields, keeps ids unique and amounts positive, and on success leaves the quantity within 1..stock |
| Cart.UpdateQuantity | src/hooks/useCart.tsx:118-121 | a successful update sets that product's quantity to exactly `amount`, changes no other product's quantity, and moves the total by the difference |
| Cart.UpdateIdempotent | src/hooks/useCart.tsx:111-121 | repeating a successful update with the same arguments changes nothing more |
| Cart.UpdateUndoesAdd | src/hooks/useCart.tsx:56-121 | an increment by add is undone by updating the entry back to its previous amount |
| Cart.AddForeignIdDuplicates | src/hooks/useCart.tsx:35-46 | a catalog answer whose id differs from the requested id is appended even when that id is already in the cart, so the cart then holds two entries for it |
| Cart.ExampleAddAgainstStock | src/hooks/useCart.tsx:54-59 | with one entry for product 1 holding 2 units, adding product 1 with stock 3 gives 3 units; with stock 2 it fails out of stock and the cart is unchanged |
| CartStore.CartProvider.constructor | src/hooks/useCart.tsx:25-31 | the initial cart is the stored snapshot when there is one, else empty; the slot is not written |
| CartStore.CartProvider.Commit | src/hooks/useCart.tsx:46-50 | the state and the slot both receive the same new cart |
| CartStore.CartProvider.AddProduct | src/hooks/useCart.tsx:33-72 | the outcome and the new cart are those of `Add`; the slot is written with the new cart exactly on success and is untouched otherwise; reload-equals-state, unique ids and positive amounts are preserved |
| CartStore.CartProvider.RemoveProduct | src/hooks/useCart.tsx:74-91 | the outcome and the new cart are those of `Remove`; the slot is written exactly on success; with unique ids no entry with the id remains afterwards |
| CartStore.CartProvider.UpdateProductAmount | src/hooks/useCart.tsx:93-130 | the outcome and the new cart are those of `Update`; the slot is written exactly on success, and the error and silent paths write neither field |
| CartStore.Reload | src/hooks/useCart.tsx:25-31 | a provider rebuilt from the slot of a synced provider holds the same cart |

## Left out

- The React context, the provider component, `useCart` and the JSX (src/hooks/useCart.tsx:22, 132-145) are UI plumbing.
- The HTTP calls through `api.get` are not modelled as I/O. Their answers are inputs, and a request that throws is `Failed`.
- `toast.error` becomes the returned `Outcome`. The `console.log` call is dropped.
- JSON serialisation of the slot is treated as the identity: the slot holds the cart value itself. `Absent` stands for a missing slot and for an empty string, since the source treats both as falsy and starts with an empty cart. What happens when the stored text is corrupt JSON is unspecified in the source and not modelled.
- A write to `localStorage` that throws (for example a full quota) is not modelled. In the source it would leave the state committed but the slot stale.
- `async`/`await` is not modelled. Neither is the race between overlapping calls that read the same stale `cart` and commit last-writer-wins. Each operation is one atomic step.
- Aliasing is not modelled. `[...cart]` copies only the array, so `amount += 1` and `amount = amount` also change the entry objects of the previous state. Entries here are values.
- Numbers are unbounded integers. JavaScript's floating-point `number` (fractional amounts or prices, rounding) is not modelled. Price is carried as an opaque real.
- Product fields other than `id` and `amount` (title, price, image) are carried opaquely in `Details`.
- AddPreservesUnique: assumes the catalog's product has the requested id. The source takes the new entry's id from the catalog's answer, so a catalog that answers with another id could create a duplicate.
