/**
 What each handler of the shop backend does to the two tables, as a
 function from the tables before the request to the tables after it and
 the reply. Missing request fields are `None`; the product code of the
 update and delete routes and the line id of the removal route come from
 the URL and are always present.
 */
module Transitions {
  import opened Inventory

  /** The tables after a request, and the reply to it. */
  datatype Step<T> = Step(state: Tables, result: Result<T>)

  /** `alta_producto`: insert a product under a new code. A code already in
      use violates the primary key, and a code or stock outside the 64-bit
      range cannot be bound; the handler turns either into its generic
      failure reply. */
  function CreateProduct(s: Tables, code: Option<int>, description: Option<string>,
                         stock: Option<int>, price: Option<real>): (out: Step<()>)
    ensures out.result == Validation <==> code.None? || description.None? || stock.None? || price.None?
    ensures out.result == Failure <==>
      !out.result.Validation? && (!Fits(code.value) || !Fits(stock.value) || code.value in s.products)
    ensures out.result.Ok? || out.result.Validation? || out.result.Failure?
    ensures !out.result.Ok? ==> out.state == s
    ensures out.result.Ok? ==>
      && out.state.products == s.products[code.value := Product(description.value, stock.value, price.value)]
      && out.state.cart == s.cart && out.state.nextId == s.nextId
    // an existing product is never overwritten
    ensures forall k :: k in s.products ==> k in out.state.products && out.state.products[k] == s.products[k]
    ensures WellFormed(s) ==> WellFormed(out.state)
  {
    if code.None? || description.None? || stock.None? || price.None? then Step(s, Validation)
    else if !Fits(code.value) || !Fits(stock.value) || code.value in s.products then Step(s, Failure)
    else
      var product := Product(description.value, stock.value, price.value);
      Step(s.(products := s.products[code.value := product]), Ok(()))
  }

  /** `modificar_producto`: overwrite description, stock and price of an
      existing product. A negative code in the URL matches no route. There
      is no sign check, so a negative stock or price is stored as given; a
      code or stock outside the 64-bit range cannot be bound. */
  function UpdateProduct(s: Tables, code: int, description: Option<string>,
                         stock: Option<int>, price: Option<real>): (out: Step<()>)
    ensures out.result == Validation <==> 0 <= code && (description.None? || stock.None? || price.None?)
    ensures out.result == NotFound <==>
      code < 0 || (!out.result.Validation? && code <= MaxInteger && code !in s.products)
    ensures out.result == Failure <==>
      && 0 <= code && !out.result.Validation?
      && (MaxInteger < code || (code in s.products && !Fits(stock.value)))
    ensures out.result.Ok? <==>
      && 0 <= code <= MaxInteger && code in s.products
      && description.Some? && stock.Some? && price.Some? && Fits(stock.value)
    ensures !out.result.Ok? ==> out.state == s
    ensures out.result.Ok? ==>
      && out.state.products.Keys == s.products.Keys
      && out.state.products[code] == Product(description.value, stock.value, price.value)
      && (forall k :: k in s.products && k != code ==> out.state.products[k] == s.products[k])
      && out.state.cart == s.cart && out.state.nextId == s.nextId
    ensures WellFormed(s) ==> WellFormed(out.state)
  {
    if code < 0 then Step(s, NotFound)
    else if description.None? || stock.None? || price.None? then Step(s, Validation)
    else if MaxInteger < code then Step(s, Failure)
    else if code !in s.products then Step(s, NotFound)
    else if !Fits(stock.value) then Step(s, Failure)
    else
      var product := Product(description.value, stock.value, price.value);
      Step(s.(products := s.products[code := product]), Ok(()))
  }

  /** `eliminar_producto`: drop a product row. Cart lines that refer to it
      are left where they are. */
  function DeleteProduct(s: Tables, code: int): (out: Step<()>)
    ensures out.result.Ok? <==> 0 <= code <= MaxInteger && code in s.products
    ensures out.result == Failure <==> MaxInteger < code
    ensures out.result.Ok? || out.result.NotFound? || out.result.Failure?
    // no product row but its own is touched
    ensures out.state.products.Keys == if out.result.Ok? then s.products.Keys - {code} else s.products.Keys
    ensures forall k :: k in out.state.products ==> out.state.products[k] == s.products[k]
    ensures out.state.cart == s.cart && out.state.nextId == s.nextId
    ensures WellFormed(s) ==> WellFormed(out.state)
  {
    if code < 0 then Step(s, NotFound)
    else if MaxInteger < code then Step(s, Failure)
    else if code !in s.products then Step(s, NotFound)
    else Step(s.(products := s.products - {code}), Ok(()))
  }

  /** The checks of an addition pass: the code names a product and the
      quantity is positive and covered by its stock. */
  predicate Accepts(s: Tables, c: int, q: int)
  {
    Fits(c) && c in s.products && 0 < q <= s.products[c].stock
  }

  /** The cart can take the addition: the grown quantity of the product's
      line is still a 64-bit integer, or, for a new line, the AUTOINCREMENT
      sequence has an id left. */
  ghost predicate Room(s: Tables, c: int, q: int)
  {
    if HasLine(s.cart, c) then s.cart[FetchLine(s.cart, c)].quantity + q <= MaxInteger
    else s.nextId <= MaxInteger
  }

  /** `agregar_al_carrito`: check the request, then either grow the
      product's cart line or insert a new line with a snapshot of the
      product, then take the units off the product's stock. The first
      failing check decides the reply: missing field, a code that cannot be
      bound, unknown code, non-positive quantity, not enough stock. A write
      that fails is never committed. */
  ghost function AddToCart(s: Tables, code: Option<int>, quantity: Option<int>): (out: Step<()>)
    ensures out.result == Validation <==>
      code.None? || quantity.None? || (Fits(code.value) && code.value in s.products && quantity.value <= 0)
    ensures out.result == NotFound <==>
      code.Some? && quantity.Some? && Fits(code.value) && code.value !in s.products
    ensures out.result == InsufficientStock <==>
      && code.Some? && quantity.Some? && Fits(code.value) && code.value in s.products
      && 0 < quantity.value && s.products[code.value].stock < quantity.value
    ensures out.result == Failure <==>
      && code.Some? && quantity.Some?
      && (!Fits(code.value) || (Accepts(s, code.value, quantity.value) && !Room(s, code.value, quantity.value)))
    ensures out.result.Ok? <==>
      code.Some? && quantity.Some? && Accepts(s, code.value, quantity.value) && Room(s, code.value, quantity.value)
    ensures !out.result.Ok? ==> out.state == s
    // exact stock delta on the product, no other product touched
    ensures out.result.Ok? ==>
      var c, q := code.value, quantity.value;
      && out.state.products.Keys == s.products.Keys
      && out.state.products[c] == s.products[c].(stock := s.products[c].stock - q)
      && out.state.products[c].stock >= 0
      && (forall k :: k in s.products && k != c ==> out.state.products[k] == s.products[k])
    ensures WellFormed(s) ==> WellFormed(out.state)
  {
    if code.None? || quantity.None? then Step(s, Validation)
    else
      var c, q := code.value, quantity.value;
      if !Fits(c) then Step(s, Failure)
      else if c !in s.products then Step(s, NotFound)
      else
        var product := s.products[c];
        if q <= 0 then Step(s, Validation)
        else if product.stock < q then Step(s, InsufficientStock)
        else if HasLine(s.cart, c) then
          var id := FetchLine(s.cart, c);
          var grown := s.cart[id].quantity + q;
          if MaxInteger < grown then Step(s, Failure)
          else Step(Tables(s.products[c := product.(stock := product.stock - q)], SetQuantity(s.cart, c, grown), s.nextId), Ok(()))
        else if MaxInteger < s.nextId then Step(s, Failure)
        else
          var line := CartLine(c, product.description, q, product.price);
          Step(Tables(s.products[c := product.(stock := product.stock - q)], s.cart[s.nextId := line], s.nextId + 1), Ok(()))
  }

  /** The removal reaches its DELETE: the id matches the route, can be
      bound, and names a line. */
  predicate DropsLine(s: Tables, id: int)
  {
    0 <= id <= MaxInteger && id in s.cart
  }

  /** `eliminar_del_carrito`: delete the line, then give its units back to
      the product's stock. The deletion is committed before the product is
      read again, so when the product has been deleted, or when the restored
      stock is not a 64-bit integer, the line is gone, the reply is the
      generic failure and no stock changes. */
  function RemoveFromCart(s: Tables, id: int): (out: Step<()>)
    ensures out.result == NotFound <==> id < 0 || (id <= MaxInteger && id !in s.cart)
    ensures out.result.Ok? <==>
      DropsLine(s, id) && s.cart[id].code in s.products
      && Fits(s.products[s.cart[id].code].stock + s.cart[id].quantity)
    ensures out.result == Failure <==>
      MaxInteger < id ||
      (DropsLine(s, id) && (s.cart[id].code !in s.products
                            || !Fits(s.products[s.cart[id].code].stock + s.cart[id].quantity)))
    ensures !DropsLine(s, id) ==> out.state == s
    ensures DropsLine(s, id) ==> out.state.cart == s.cart - {id} && out.state.nextId == s.nextId
    ensures out.result.Ok? ==>
      var line := s.cart[id];
      out.state.products == s.products[line.code := s.products[line.code].(stock := s.products[line.code].stock + line.quantity)]
    ensures !out.result.Ok? ==> out.state.products == s.products
    ensures WellFormed(s) ==> WellFormed(out.state)
  {
    if id < 0 then Step(s, NotFound)
    else if MaxInteger < id then Step(s, Failure)
    else if id !in s.cart then Step(s, NotFound)
    else
      var line := s.cart[id];
      var cart := s.cart - {id};
      if line.code !in s.products then Step(s.(cart := cart), Failure)
      else
        var product := s.products[line.code];
        var restored := product.stock + line.quantity;
        if !Fits(restored) then Step(s.(cart := cart), Failure)
        else Step(Tables(s.products[line.code := product.(stock := restored)], cart, s.nextId), Ok(()))
  }

  /** A successful addition for a product that already has a line grows
      that line by the quantity, keeps its description and price snapshot,
      and adds no line. */
  lemma AddToCartMerges(s: Tables, c: int, q: int, id: int)
    requires WellFormed(s)
    requires id in s.cart && s.cart[id].code == c
    requires AddToCart(s, Some(c), Some(q)).result.Ok?
    ensures var after := AddToCart(s, Some(c), Some(q)).state;
      && after.cart == s.cart[id := s.cart[id].(quantity := s.cart[id].quantity + q)]
      && after.nextId == s.nextId
  {
    SetQuantityOfLine(s.cart, id, s.cart[id].quantity + q);
  }

  /** A successful addition for a product without a line inserts exactly
      one line, under the next id, with the product's current description
      and price and the requested quantity. */
  lemma AddToCartInserts(s: Tables, c: int, q: int)
    requires WellFormed(s)
    requires !HasLine(s.cart, c)
    requires AddToCart(s, Some(c), Some(q)).result.Ok?
    ensures var after := AddToCart(s, Some(c), Some(q)).state;
      && s.nextId !in s.cart
      && after.cart.Keys == s.cart.Keys + {s.nextId}
      && after.cart - {s.nextId} == s.cart
      && after.cart[s.nextId] == CartLine(c, s.products[c].description, q, s.products[c].price)
      && after.nextId == s.nextId + 1
  {
  }

  /** Adding to the cart moves units from the shelf to the cart: for every
      product code, stock plus units in the cart is what it was. */
  lemma AddToCartConserves(s: Tables, code: Option<int>, quantity: Option<int>, c: int)
    requires WellFormed(s)
    ensures Held(AddToCart(s, code, quantity).state, c) == Held(s, c)
  {
    var out := AddToCart(s, code, quantity);
    if out.result.Ok? {
      var k, q := code.value, quantity.value;
      if HasLine(s.cart, k) {
        var id := FetchLine(s.cart, k);
        AddToCartMerges(s, k, q, id);
        InCartReplace(s.cart, id, s.cart[id].(quantity := s.cart[id].quantity + q), c);
      } else {
        var product := s.products[k];
        InCartInsert(s.cart, s.nextId, CartLine(k, product.description, q, product.price), c);
      }
    }
  }

  /** Removing a line moves its units back to the shelf, so stock plus units
      in the cart is unchanged for every code, except when the line is
      dropped but its units cannot go back (the product is gone, or its
      restored stock overflows): then the line's units disappear. */
  lemma RemoveFromCartConserves(s: Tables, id: int, c: int)
    ensures Held(RemoveFromCart(s, id).state, c) ==
      Held(s, c) - (if DropsLine(s, id) && !RemoveFromCart(s, id).result.Ok? then Units(s.cart[id], c) else 0)
  {
    if DropsLine(s, id) {
      InCartRemove(s.cart, id, c);
    }
  }

  /** The orphaned line: delete a product while the cart holds it, then
      remove its line. The line is gone, the reply is a failure, and the
      line's units are returned to no product. */
  lemma OrphanedLine(s: Tables, id: int)
    requires WellFormed(s)
    requires id in s.cart && s.cart[id].code in s.products
    // a negative code cannot be named in the URL of the delete route
    requires 0 <= s.cart[id].code
    ensures var line := s.cart[id];
      var deleted := DeleteProduct(s, line.code);
      var removed := RemoveFromCart(deleted.state, id);
      && deleted.result.Ok? && removed.result == Failure
      && removed.state == Tables(s.products - {line.code}, s.cart - {id}, s.nextId)
      && Held(removed.state, line.code) == 0
  {
    var line := s.cart[id];
    InCartOfLine(s.cart, id);
    InCartRemove(s.cart, id, line.code);
  }

  /** Units lost to overflow: a product with the largest stock is put in
      the cart whole, its stock is then set to 5, and the line is removed.
      Giving the units back would exceed the 64-bit range, so the removal
      fails after the line's deletion has been committed. */
  lemma OverflowLosesUnits()
    ensures var s0 := Tables(map[], map[], 1);
      var s1 := CreateProduct(s0, Some(1), Some("Widget"), Some(MaxInteger), Some(2.5)).state;
      var s2 := AddToCart(s1, Some(1), Some(MaxInteger)).state;
      var s3 := UpdateProduct(s2, 1, Some("Widget"), Some(5), Some(2.5)).state;
      var removed := RemoveFromCart(s3, 1);
      && s3 == Tables(map[1 := Product("Widget", 5, 2.5)], map[1 := CartLine(1, "Widget", MaxInteger, 2.5)], 2)
      && removed == Step(Tables(map[1 := Product("Widget", 5, 2.5)], map[], 2), Failure)
      && Held(s3, 1) == 5 + MaxInteger && Held(removed.state, 1) == 5
  {
    var s1 := CreateProduct(Tables(map[], map[], 1), Some(1), Some("Widget"), Some(MaxInteger), Some(2.5)).state;
    assert s1 == Tables(map[1 := Product("Widget", MaxInteger, 2.5)], map[], 1);
    assert !HasLine(map[], 1);
    var cart := map[1 := CartLine(1, "Widget", MaxInteger, 2.5)];
    var s2 := AddToCart(s1, Some(1), Some(MaxInteger)).state;
    assert s2 == Tables(map[1 := Product("Widget", 0, 2.5)], cart, 2);
    var s3 := UpdateProduct(s2, 1, Some("Widget"), Some(5), Some(2.5)).state;
    assert s3 == Tables(map[1 := Product("Widget", 5, 2.5)], cart, 2);
    InCartOfLine(cart, 1);
    InCartAbsent(map[], 1);
  }

  /** Adding two quantities of a product that is not in the cart yet ends
      with one line holding their sum, not two lines. */
  lemma AddTwiceMerges(s: Tables, c: int, q1: int, q2: int)
    requires WellFormed(s)
    requires c in s.products && !HasLine(s.cart, c)
    requires 0 < q1 && 0 < q2 && q1 + q2 <= s.products[c].stock
    requires s.nextId <= MaxInteger
    ensures var first := AddToCart(s, Some(c), Some(q1));
      var second := AddToCart(first.state, Some(c), Some(q2));
      && first.result.Ok? && second.result.Ok?
      && second.state.cart == s.cart[s.nextId := CartLine(c, s.products[c].description, q1 + q2, s.products[c].price)]
      && second.state.nextId == s.nextId + 1
      && second.state.products[c].stock == s.products[c].stock - q1 - q2
  {
    var first := AddToCart(s, Some(c), Some(q1));
    var line := CartLine(c, s.products[c].description, q1, s.products[c].price);
    assert first.state.cart == s.cart[s.nextId := line];
    AddToCartMerges(first.state, c, q2, s.nextId);
  }

  /** Removing the line that an addition has just inserted gives every unit
      back: the tables are as before, save for the spent id. */
  lemma AddThenRemoveRestores(s: Tables, c: int, q: int)
    requires WellFormed(s)
    requires !HasLine(s.cart, c)
    requires AddToCart(s, Some(c), Some(q)).result.Ok?
    ensures RemoveFromCart(AddToCart(s, Some(c), Some(q)).state, s.nextId) == Step(s.(nextId := s.nextId + 1), Ok(()))
  {
  }

  /** Deleting a product succeeds once, unless its code is negative and so
      matches no route; deleting it again finds nothing. */
  lemma DeleteTwice(s: Tables, code: int)
    requires WellFormed(s)
    requires code in s.products
    ensures DeleteProduct(s, code).result.Ok? <==> 0 <= code
    ensures DeleteProduct(DeleteProduct(s, code).state, code).result == NotFound
  {
  }

  /** A request to the cart routes. */
  datatype CartOp = Add(code: int, quantity: int) | Remove(id: int)

  ghost function Apply(s: Tables, op: CartOp): Tables
  {
    match op
    case Add(code, quantity) => AddToCart(s, Some(code), Some(quantity)).state
    case Remove(id) => RemoveFromCart(s, id).state
  }

  ghost function Run(s: Tables, ops: seq<CartOp>): Tables
    decreases |ops|
  {
    if ops == [] then s else Run(Apply(s, ops[0]), ops[1..])
  }

  /** Stock conservation over any sequence of cart requests: for a product
      that exists and whose stock plus units in the cart is a 64-bit
      integer, that sum never changes, and the tables stay well formed. */
  lemma {:induction false} RunConserves(s: Tables, ops: seq<CartOp>, c: int)
    requires WellFormed(s) && c in s.products
    requires Held(s, c) <= MaxInteger
    ensures var t := Run(s, ops); WellFormed(t) && c in t.products && Held(t, c) == Held(s, c)
    decreases |ops|
  {
    if ops != [] {
      var next := Apply(s, ops[0]);
      match ops[0] {
        case Add(code, quantity) =>
          AddToCartConserves(s, Some(code), Some(quantity), c);
        case Remove(id) =>
          if DropsLine(s, id) && s.cart[id].code == c {
            // the line holds all of c's cart units, so restoring them
            // cannot overflow
            InCartOfLine(s.cart, id);
          }
          RemoveFromCartConserves(s, id, c);
      }
      RunConserves(next, ops[1..], c);
    }
  }
}
