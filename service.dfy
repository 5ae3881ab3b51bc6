/**
 The request handlers of the shop backend, each a method on the store
 that holds the two tables. A mutating handler changes the tables step by
 step, as the SQL statements it issues do, and is proved to end where the
 matching function of module Transitions says; the read-only handlers
 build their reply row by row.
 */
module Service {
  import opened Inventory
  import Transitions

  /** One element of the product listing. */
  datatype ProductRow = ProductRow(code: int, product: Product)

  /** One element of the cart listing. */
  datatype CartRow = CartRow(id: int, line: CartLine)

  class Store {
    var products: map<int, Product>
    var cart: map<int, CartLine>
    var nextId: int

    function State(): Tables
      reads this
    {
      Tables(products, cart, nextId)
    }

    ghost predicate Valid()
      reads this
    {
      WellFormed(State())
    }

    /** Freshly created, empty tables; the first cart line gets id 1. */
    constructor ()
      ensures Valid()
      ensures products == map[] && cart == map[] && nextId == 1
    {
      products, cart, nextId := map[], map[], 1;
    }

    method CreateProduct(code: Option<int>, description: Option<string>,
                         stock: Option<int>, price: Option<real>) returns (r: Result<()>)
      requires Valid()
      modifies this
      ensures Valid()
      ensures Transitions.Step(State(), r) == Transitions.CreateProduct(old(State()), code, description, stock, price)
    {
      if code.None? || description.None? || stock.None? || price.None? {
        return Validation;
      }
      if !Fits(code.value) || !Fits(stock.value) || code.value in products {
        // the INSERT cannot bind a value, or fails on the primary key
        return Failure;
      }
      products := products[code.value := Product(description.value, stock.value, price.value)];
      return Ok(());
    }

    /** `consultar_producto`. A negative code matches no route; a code
        above the 64-bit range cannot be bound to the SELECT. */
    method GetProduct(code: int) returns (r: Result<Product>)
      ensures r.Ok? <==> 0 <= code <= MaxInteger && code in products
      ensures r.Ok? ==> r.value == products[code]
      ensures r == Failure <==> MaxInteger < code
      ensures r.Ok? || r.NotFound? || r.Failure?
    {
      if code < 0 {
        return NotFound;
      }
      if MaxInteger < code {
        return Failure;
      }
      if code !in products {
        return NotFound;
      }
      return Ok(products[code]);
    }

    method UpdateProduct(code: int, description: Option<string>,
                         stock: Option<int>, price: Option<real>) returns (r: Result<()>)
      requires Valid()
      modifies this
      ensures Valid()
      ensures Transitions.Step(State(), r) == Transitions.UpdateProduct(old(State()), code, description, stock, price)
    {
      if code < 0 {
        return NotFound;
      }
      if description.None? || stock.None? || price.None? {
        return Validation;
      }
      if MaxInteger < code {
        return Failure;
      }
      if code !in products {
        return NotFound;
      }
      if !Fits(stock.value) {
        return Failure;
      }
      products := products[code := Product(description.value, stock.value, price.value)];
      return Ok(());
    }

    /** `listar_productos`: every product row once, in the order the store
        yields them. */
    method ListProducts() returns (rows: seq<ProductRow>)
      ensures |rows| == |products|
      ensures forall i :: 0 <= i < |rows| ==> rows[i].code in products && rows[i].product == products[rows[i].code]
      ensures forall code :: code in products ==> exists i :: 0 <= i < |rows| && rows[i].code == code
      ensures forall i, j :: 0 <= i < j < |rows| ==> rows[i].code != rows[j].code
    {
      rows := [];
      var pending := products.Keys;
      while pending != {}
        invariant pending <= products.Keys
        invariant |rows| + |pending| == |products|
        invariant forall i :: 0 <= i < |rows| ==>
          rows[i].code in products && rows[i].code !in pending && rows[i].product == products[rows[i].code]
        invariant forall code :: code in products && code !in pending ==>
          exists i :: 0 <= i < |rows| && rows[i].code == code
        invariant forall i, j :: 0 <= i < j < |rows| ==> rows[i].code != rows[j].code
        decreases pending
      {
        assert (forall k :: k !in pending) ==> pending == {};
        var code :| code in pending;
        ghost var before := rows;
        rows := rows + [ProductRow(code, products[code])];
        pending := pending - {code};
        forall k | k in products && k !in pending
          ensures exists i :: 0 <= i < |rows| && rows[i].code == k
        {
          if k == code {
            assert rows[|rows| - 1].code == k;
          } else {
            var i :| 0 <= i < |before| && before[i].code == k;
            assert rows[i].code == k;
          }
        }
      }
    }

    /** `agregar_al_carrito`. */
    method AddToCart(code: Option<int>, quantity: Option<int>) returns (r: Result<()>)
      requires Valid()
      modifies this
      ensures Valid()
      ensures Transitions.Step(State(), r) == Transitions.AddToCart(old(State()), code, quantity)
    {
      if code.None? || quantity.None? {
        return Validation;
      }
      var c := code.value;
      if !Fits(c) {
        return Failure;
      }
      if c !in products {
        return NotFound;
      }
      var product := products[c];
      var q := quantity.value;
      if q <= 0 {
        return Validation;
      }
      if product.stock < q {
        return InsufficientStock;
      }
      if HasLine(cart, c) {
        var id :| id in cart && cart[id].code == c;
        var grown := cart[id].quantity + q;
        if MaxInteger < grown {
          // the UPDATE cannot bind the new quantity; nothing is committed
          return Failure;
        }
        cart := SetQuantity(cart, c, grown);
      } else {
        if MaxInteger < nextId {
          // the AUTOINCREMENT sequence is exhausted
          return Failure;
        }
        cart := cart[nextId := CartLine(c, product.description, q, product.price)];
        nextId := nextId + 1;
      }
      products := products[c := product.(stock := product.stock - q)];
      return Ok(());
    }

    /** `obtener_carrito`: every cart line once, with its id, in the order
        the store yields them. */
    method ListCart() returns (rows: seq<CartRow>)
      ensures |rows| == |cart|
      ensures forall i :: 0 <= i < |rows| ==> rows[i].id in cart && rows[i].line == cart[rows[i].id]
      ensures forall id :: id in cart ==> exists i :: 0 <= i < |rows| && rows[i].id == id
      ensures forall i, j :: 0 <= i < j < |rows| ==> rows[i].id != rows[j].id
    {
      rows := [];
      var pending := cart.Keys;
      while pending != {}
        invariant pending <= cart.Keys
        invariant |rows| + |pending| == |cart|
        invariant forall i :: 0 <= i < |rows| ==>
          rows[i].id in cart && rows[i].id !in pending && rows[i].line == cart[rows[i].id]
        invariant forall id :: id in cart && id !in pending ==>
          exists i :: 0 <= i < |rows| && rows[i].id == id
        invariant forall i, j :: 0 <= i < j < |rows| ==> rows[i].id != rows[j].id
        decreases pending
      {
        assert (forall k :: k !in pending) ==> pending == {};
        var id :| id in pending;
        ghost var before := rows;
        rows := rows + [CartRow(id, cart[id])];
        pending := pending - {id};
        forall k | k in cart && k !in pending
          ensures exists i :: 0 <= i < |rows| && rows[i].id == k
        {
          if k == id {
            assert rows[|rows| - 1].id == k;
          } else {
            var i :| 0 <= i < |before| && before[i].id == k;
            assert rows[i].id == k;
          }
        }
      }
    }

    /** `eliminar_del_carrito`: the line is deleted (and committed) before
        the product is read again to restore its stock. */
    method RemoveFromCart(id: int) returns (r: Result<()>)
      requires Valid()
      modifies this
      ensures Valid()
      ensures Transitions.Step(State(), r) == Transitions.RemoveFromCart(old(State()), id)
    {
      if id < 0 {
        return NotFound;
      }
      if MaxInteger < id {
        return Failure;
      }
      if id !in cart {
        return NotFound;
      }
      var line := cart[id];
      cart := cart - {id};
      if line.code !in products {
        // the product row is gone: reading its stock fails
        return Failure;
      }
      var product := products[line.code];
      var restored := product.stock + line.quantity;
      if !Fits(restored) {
        // the UPDATE cannot bind the restored stock
        return Failure;
      }
      products := products[line.code := product.(stock := restored)];
      return Ok(());
    }

    /** `eliminar_producto`. */
    method DeleteProduct(code: int) returns (r: Result<()>)
      requires Valid()
      modifies this
      ensures Valid()
      ensures Transitions.Step(State(), r) == Transitions.DeleteProduct(old(State()), code)
    {
      if code < 0 {
        return NotFound;
      }
      if MaxInteger < code {
        return Failure;
      }
      if code !in products {
        return NotFound;
      }
      products := products - {code};
      return Ok(());
    }
  }

  /** A client of the store: create a product with ten units, put four in
      the cart, ask for a hundred more, then take the line out again. */
  method WidgetScenario() returns (created: Result<()>, added: Result<()>, refused: Result<()>,
                                   removed: Result<()>, stockAfterAdd: int, cartAfterAdd: map<int, CartLine>,
                                   stockAfterRemove: int, cartAfterRemove: map<int, CartLine>)
    ensures created == Ok(()) && added == Ok(()) && refused == InsufficientStock && removed == Ok(())
    ensures stockAfterAdd == 6 && cartAfterAdd == map[1 := CartLine(1, "Widget", 4, 2.5)]
    ensures stockAfterRemove == 10 && cartAfterRemove == map[]
  {
    var store := new Store();
    created := store.CreateProduct(Some(1), Some("Widget"), Some(10), Some(2.5));
    added := store.AddToCart(Some(1), Some(4));
    stockAfterAdd, cartAfterAdd := store.products[1].stock, store.cart;
    refused := store.AddToCart(Some(1), Some(100));
    removed := store.RemoveFromCart(1);
    stockAfterRemove, cartAfterRemove := store.products[1].stock, store.cart;
  }
}
