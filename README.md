# Inventory and cart backend: a Dafny model

This project models the request handlers of a small shop backend
(`billetes.py`). The backend keeps two tables:

- `productos` maps a caller-chosen product code to a description, a stock
  count and a unit price.
- `carrito` maps an auto-increment line id to a product code, a quantity,
  and a copy of the product's description and price taken when the line
  was created.

Each HTTP handler reads these tables, validates the request and writes
them. Adding to the cart takes units off a product's stock. Removing a cart
line gives them back.

The model has three modules:

- `Inventory` (inventory.dfy) holds the rows and the pair of tables as
  values. It also holds the invariant every reachable state keeps
  (`WellFormed`: one line per product code, positive quantities, ids below
  the AUTOINCREMENT counter, every stored integer within SQLite's signed
  64-bit INTEGER range) and the sum `InCart` of a product's units in the
  cart, with its lemmas.
- `Transitions` (transitions.dfy) gives each handler as a function from the
  tables before a request to the tables after it plus the reply. Its
  `ensures` clauses and lemmas carry the properties: error precedence,
  exact stock deltas, merge versus insert, invariant preservation,
  conservation of stock plus cart units, and the orphaned-line behaviour.
- `Service` (service.dfy) holds the class `Store`, with the two tables and
  the id counter as fields. The mutating handlers are methods that change
  the fields step by step, in the order of the SQL statements. Each one is
  proved to end in the state and reply its `Transitions` function gives.
  The two listing handlers are loops that build their reply row by row.

A request field that is absent from the JSON body is `None`. Replies are
`Result` values:

| reply | HTTP status in the source |
|---|---|
| `Ok` | 200 or 201 |
| `NotFound` | 404 |
| `Validation` | 400 |
| `InsufficientStock` | 400 |
| `Failure` | the generic 500 reply of the catch-all `except` |

Five behaviours of the code are easy to misread:

- Creating a product under a code already in use gives the generic failure
  reply. No distinct conflict kind exists.
- Create and update check only that fields are present. They check neither
  the type nor the sign of the values. So stock can be negative, and
  "stock ≥ 0" is not an invariant of the tables.
- Removing a cart line is not atomic. The line's deletion is committed
  before the product is read again. If that product was deleted, the line
  is still gone, the reply is the generic failure, and no stock changes.
  `Transitions.OrphanedLine` states the consequence: the line's units are
  lost.
- Every integer the handlers bind to a statement must lie in the signed
  64-bit range (`Inventory.MinInteger` to `Inventory.MaxInteger`). The
  driver raises for any other value, and the catch-all `except` turns that
  into the generic failure reply. This covers a code or stock outside the
  range on create and update, a grown cart quantity above the range, and a
  restored stock above the range. In the last case the line's deletion is
  already committed, so its units are lost
  (`Transitions.OverflowLosesUnits`). Likewise, once the AUTOINCREMENT
  sequence has handed out the largest id, inserting a new cart line fails.
- The code of the product routes and the id of the removal route are
  matched by Flask's `int` converter, which accepts only digits. A negative
  value therefore matches no route and gets a 404 before any handler runs.
  The model gives `NotFound` for it.

## Model

| member | source | states |
|---|---|---|
| `Service.Store.constructor` | billetes.py:15-35 | the store starts with both tables empty and the first cart id at 1, and satisfies the table invariant |
| `Transitions.CreateProduct` | billetes.py:37-54 | any missing field gives a validation reply; otherwise a code or stock outside the 64-bit range, or an existing code, gives the failure reply; the only success is a new code within range, which is inserted with the given fields; a failure changes nothing; no existing product is ever overwritten; the invariant is kept |
| `Service.Store.CreateProduct` | billetes.py:37-54 | the handler ends in exactly the tables and reply of `Transitions.CreateProduct` and keeps the invariant |
| `Service.Store.GetProduct` | billetes.py:56-74 | returns the product stored under the code when the code is routable, within range and present; a code above the 64-bit range gives the failure reply; any other code gives not found |
| `Transitions.UpdateProduct` | billetes.py:76-96 | a negative code gives not found before anything else; a missing field gives a validation reply before the code is looked up; a code above the 64-bit range gives failure; an unknown code gives not found; a stock outside the range gives failure; otherwise description, stock and price are overwritten with no sign check (negative values are stored), the code and every other row are kept, and the cart is untouched; every non-success changes nothing |
| `Service.Store.UpdateProduct` | billetes.py:76-96 | the handler ends in exactly the tables and reply of `Transitions.UpdateProduct` and keeps the invariant |
| `Service.Store.ListProducts` | billetes.py:98-115 | the listing has one row per product, each row carries that product's stored fields, and no code appears twice |
| `Transitions.AddToCart` | billetes.py:117-157 | errors in order: missing field gives validation; a code outside the 64-bit range gives failure; unknown code gives not found, whatever the quantity; a quantity ≤ 0 gives validation; a quantity above stock gives insufficient stock; a grown line quantity above the range, or an exhausted id sequence, gives failure. Success happens exactly when none of these applies. Every failure leaves both tables unchanged. On success the product's stock drops by exactly the quantity and stays ≥ 0, and no other product changes. The invariant is kept |
| `Service.Store.AddToCart` | billetes.py:117-157 | the handler (check, merge-or-insert, stock update) ends in exactly the tables and reply of `Transitions.AddToCart` and keeps the invariant |
| `Transitions.AddToCartMerges` | billetes.py:137-146 | when the product already has a line, a successful addition grows that line's quantity by the requested amount, keeps its description and price snapshot, and adds no line |
| `Transitions.AddToCartInserts` | billetes.py:137-142 | when the product has no line, a successful addition inserts exactly one line, under the next fresh id, with the product's current description and price and the requested quantity |
| `Transitions.AddToCartConserves` | billetes.py:144-150 | for every product code, stock plus the units in the cart is the same after an addition, whether it succeeds or fails |
| `Service.Store.ListCart` | billetes.py:159-177 | the listing has one row per cart line with its id and stored fields, and no id appears twice |
| `Transitions.RemoveFromCart` | billetes.py:179-202 | a negative id, or an id within range that names no line, gives not found and changes nothing; an id above the range gives failure and changes nothing; otherwise exactly that line is removed; if the line's product exists and its restored stock is within range, the stock grows by the line's quantity and the reply is success; otherwise the reply is failure and the products table is unchanged; the invariant is kept |
| `Service.Store.RemoveFromCart` | billetes.py:179-202 | the handler (delete and commit, re-read product, restore stock) ends in exactly the tables and reply of `Transitions.RemoveFromCart` and keeps the invariant |
| `Transitions.RemoveFromCartConserves` | billetes.py:189-195 | removing a line keeps stock plus cart units for every code, except that a line that is deleted while its units cannot go back (product gone, or restored stock out of range) loses its units |
| `Transitions.OrphanedLine` | billetes.py:184-220 | after the product of a cart line is deleted (its code being routable), removing that line still deletes it and replies with failure; the removal changes no product row, so the product's units are gone from both tables |
| `Transitions.DeleteProduct` | billetes.py:204-220 | success exactly when the code is routable, within the 64-bit range and present; a code above the range gives failure, any other code not found; only a deleted product's row disappears; cart lines that refer to it stay in place; the invariant is kept |
| `Service.Store.DeleteProduct` | billetes.py:204-220 | the handler ends in exactly the tables and reply of `Transitions.DeleteProduct` and keeps the invariant |
| `Transitions.DeleteTwice` | billetes.py:204-214 | deleting an existing product succeeds exactly when its code is not negative, and deleting it a second time gives not found |
| `Transitions.AddTwiceMerges` | billetes.py:137-150 | adding quantities q1 and q2 of a product not yet in the cart, with an id left in the sequence, leaves one line with q1 + q2 (not two lines), one id spent, and stock lowered by q1 + q2 |
| `Transitions.AddThenRemoveRestores` | billetes.py:117-202 | removing the line that an addition has just inserted restores both tables exactly, except that the id counter has moved on |
| `Transitions.RunConserves` | billetes.py:117-202 | over any sequence of add and remove requests, an existing product whose stock plus cart units lies within the 64-bit range keeps existing, and that sum never changes; the invariant holds throughout |
| `Service.WidgetScenario` | billetes.py:37-202 | create a product with stock 10, add 4 to the cart (stock 6, one line of 4 under id 1), ask for 100 more (insufficient stock), remove line 1 (stock back to 10, cart empty) |
| `Inventory.InCartOfLine` | billetes.py:137-146 | with one line per product code, a product's units in the cart are exactly its line's quantity |
| `Inventory.SetQuantityOfLine` | billetes.py:144-146 | with one line per product code, updating the quantity of every line of a product changes that product's single line and nothing else |
| `Transitions.OverflowLosesUnits` | billetes.py:179-202 | from empty tables: create a product with the largest stock, put all of it in the cart, set its stock to 5, remove the line; the removal fails, the line is gone, and the product's stock plus cart units drops from 5 + 2^63 - 1 to 5 |
| `Inventory.FetchLine` | billetes.py:137-138 | the line fetched for a product that has one is a line of that product |
| `Inventory.SetQuantity` | billetes.py:144-146 | updating the quantity of a product's lines keeps every line id, code, description and price, sets each line of that product to the new quantity, and leaves every other line's quantity alone |

## Left out

- HTTP routing, CORS, JSON parsing and responses, and status codes are not modelled, except that a negative code or id in a URL gets `NotFound`. Each handler takes its request fields as parameters and returns a `Result`; the status codes are listed in the table above.
- SQLite connections and cursors, table creation, and connections left open on early returns are not modelled. The tables are maps; the store's constructor stands for freshly created empty tables.
- Prices are FLOAT in the source. They are modelled as `real` values, which are only copied, never computed with.
- The coercion `int(data['cantidad'])` (billetes.py:130) is not modelled; the quantity parameter stands for its result. The coercion runs after the product lookup. It truncates a finite float toward zero (so 0.5 becomes 0 and gets the validation reply), and it accepts integer strings (such as "3" or " 3 ") and booleans. It raises for null, any string that is not an integer literal (such as "2.5"), NaN or Infinity (which the JSON loader produces for `NaN`, `Infinity` or an overflowing literal such as `1e400`), a list or an object; those requests get the generic failure reply once the product has been found, and the model has no input for them.
- Create and update store the JSON values as given. SQLite's type affinity for values of the wrong type is not modelled: the fields are typed.
- A request without a JSON body makes the handler fail outside its `try`. This is not modelled.
- Errors other than the ones the model names are not modelled: a locked or unreadable database file, a full disk, and the like. The model names the duplicate primary key on create, integers outside the 64-bit range, the exhausted AUTOINCREMENT sequence, and the `TypeError` raised by reading the stock of a missing product when a line is removed (billetes.py:194).
- Concurrency and transaction isolation are not modelled. Each request is one sequential step, and the early commit inside removal is modelled by its effect on the final state.
- The listings' order depends on the store. The model states only that each table row appears exactly once, with its stored fields.
- The greeting route `inicio` is not modelled.
- `Inventory.FetchLine` stands for the first row that `fetchone` returns for the product, in storage order; the model picks one of the product's lines arbitrarily. `Transitions.AddToCart` then sets every line of that product to that line's quantity plus the request. Only under the one-line-per-code invariant, which every reachable state satisfies, do the model's lemmas say which line it is.
