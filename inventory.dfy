/**
 The two tables of the shop backend, as values.

 `productos` maps a caller-assigned product code (its primary key) to the
 product's description, stock and unit price; `carrito` maps an
 auto-increment line id to a cart line that names a product code and keeps
 a snapshot of that product's description and price. The counter `nextId`
 stands for the table's AUTOINCREMENT sequence: the id the next inserted
 cart line receives.
 */
module Inventory {

  datatype Option<T> = None | Some(value: T)

  /** Outcome of one handler: `Ok` carries the response payload, the other
      constructors are the error replies (404, 400, 400 and 500). */
  datatype Result<T> = Ok(value: T) | NotFound | Validation | InsufficientStock | Failure

  /** A row of `productos`; its code is the key it is stored under. The
      price is a FLOAT in the store and is only ever copied. */
  datatype Product = Product(description: string, stock: int, price: real)

  /** A row of `carrito`; its id is the key it is stored under. */
  datatype CartLine = CartLine(code: int, description: string, quantity: int, price: real)

  datatype Tables = Tables(products: map<int, Product>, cart: map<int, CartLine>, nextId: int)

  /** Bounds of an SQLite INTEGER: the driver refuses to bind a Python
      integer outside the signed 64-bit range and raises instead. */
  const MinInteger: int := -0x8000_0000_0000_0000
  const MaxInteger: int := 0x7fff_ffff_ffff_ffff

  predicate Fits(n: int)
  {
    MinInteger <= n <= MaxInteger
  }

  /** Some cart line refers to product `code`. */
  predicate HasLine(cart: map<int, CartLine>, code: int)
  {
    exists id :: id in cart && cart[id].code == code
  }

  /** Lines are merged, never duplicated: no two lines share a product code. */
  ghost predicate OneLinePerCode(cart: map<int, CartLine>)
  {
    forall i, j :: i in cart && j in cart && cart[i].code == cart[j].code ==> i == j
  }

  /** What every reachable pair of tables satisfies: every stored integer
      is a 64-bit INTEGER, line ids run from 1 up to below the counter, the
      counter is at most one past the largest id, every line holds at least
      one unit, and there is at most one line per product code. */
  ghost predicate WellFormed(t: Tables)
  {
    && 1 <= t.nextId <= MaxInteger + 1
    && (forall code :: code in t.products ==> Fits(code) && Fits(t.products[code].stock))
    && (forall id :: id in t.cart ==>
          && 1 <= id < t.nextId
          && 0 < t.cart[id].quantity <= MaxInteger
          && Fits(t.cart[id].code))
    && OneLinePerCode(t.cart)
  }

  /** The line `SELECT * FROM carrito WHERE codigo = code` returns first:
      some line of that product. */
  ghost function FetchLine(cart: map<int, CartLine>, code: int): (id: int)
    requires HasLine(cart, code)
    ensures id in cart && cart[id].code == code
  {
    var id :| id in cart && cart[id].code == code; id
  }

  /** The cart after `UPDATE carrito SET cantidad = n WHERE codigo = code`:
      every line of that product gets quantity `n`, nothing else changes.
      Lemma `SetQuantityOfLine` shows that this touches a single line. */
  function SetQuantity(cart: map<int, CartLine>, code: int, n: int): (r: map<int, CartLine>)
    ensures r.Keys == cart.Keys
    ensures forall id :: id in r ==>
      && r[id].code == cart[id].code
      && r[id].description == cart[id].description
      && r[id].price == cart[id].price
      && r[id].quantity == (if cart[id].code == code then n else cart[id].quantity)
  {
    map id | id in cart :: if cart[id].code == code then cart[id].(quantity := n) else cart[id]
  }

  /** Units of product `code` that one line holds. */
  function Units(line: CartLine, code: int): int
  {
    if line.code == code then line.quantity else 0
  }

  /** Some line of a nonempty cart: the one the sum below takes first. */
  ghost function Pick(cart: map<int, CartLine>): (id: int)
    requires |cart| != 0
    ensures id in cart
  {
    assert (forall k :: k !in cart) ==> cart == map[];
    var id :| id in cart; id
  }

  /** Units of product `code` held by the cart: the sum of the quantities
      of all lines that refer to it. */
  ghost function InCart(cart: map<int, CartLine>, code: int): int
    decreases |cart|
  {
    if |cart| == 0 then 0
    else
      var id := Pick(cart);
      assert |cart - {id}| < |cart| by { assert (cart - {id}).Keys == cart.Keys - {id}; }
      Units(cart[id], code) + InCart(cart - {id}, code)
  }

  /** Stock on the shelf plus units in the cart: the quantity that cart
      operations move around but neither create nor destroy. A code with no
      product row counts no shelf stock. */
  ghost function Held(t: Tables, code: int): int
  {
    (if code in t.products then t.products[code].stock else 0) + InCart(t.cart, code)
  }

  /** Any line can be taken out of the sum first. */
  lemma {:induction false} InCartRemove(cart: map<int, CartLine>, id: int, code: int)
    requires id in cart
    ensures InCart(cart, code) == Units(cart[id], code) + InCart(cart - {id}, code)
    decreases |cart|
  {
    assert |cart| != 0 by { assert id in cart.Keys; }
    var k := Pick(cart);
    if k != id {
      assert (cart - {k}).Keys == cart.Keys - {k};
      assert (cart - {id}).Keys == cart.Keys - {id};
      InCartRemove(cart - {k}, id, code);
      InCartRemove(cart - {id}, k, code);
      assert cart - {k} - {id} == cart - {id} - {k};
    }
  }

  /** A line stored under a fresh id adds its units to the sum. */
  lemma InCartInsert(cart: map<int, CartLine>, id: int, line: CartLine, code: int)
    requires id !in cart
    ensures InCart(cart[id := line], code) == Units(line, code) + InCart(cart, code)
  {
    InCartRemove(cart[id := line], id, code);
    assert cart[id := line] - {id} == cart;
  }

  /** Overwriting a line replaces its units in the sum. */
  lemma InCartReplace(cart: map<int, CartLine>, id: int, line: CartLine, code: int)
    requires id in cart
    ensures InCart(cart[id := line], code) == InCart(cart, code) - Units(cart[id], code) + Units(line, code)
  {
    InCartRemove(cart, id, code);
    InCartRemove(cart[id := line], id, code);
    assert cart[id := line] - {id} == cart - {id};
  }

  /** A cart with no line for `code` holds none of it. */
  lemma {:induction false} InCartAbsent(cart: map<int, CartLine>, code: int)
    requires !HasLine(cart, code)
    ensures InCart(cart, code) == 0
    decreases |cart|
  {
    if |cart| != 0 {
      var k := Pick(cart);
      assert (cart - {k}).Keys == cart.Keys - {k};
      assert Units(cart[k], code) == 0;
      assert !HasLine(cart - {k}, code);
      InCartAbsent(cart - {k}, code);
    }
  }

  /** With one line per code, the units of `code` in the cart are exactly
      the quantity of its line. */
  lemma InCartOfLine(cart: map<int, CartLine>, id: int)
    requires OneLinePerCode(cart)
    requires id in cart
    ensures InCart(cart, cart[id].code) == cart[id].quantity
  {
    var code := cart[id].code;
    InCartRemove(cart, id, code);
    assert !HasLine(cart - {id}, code);
    InCartAbsent(cart - {id}, code);
  }

  /** With one line per code, updating a product's lines updates one line. */
  lemma SetQuantityOfLine(cart: map<int, CartLine>, id: int, n: int)
    requires OneLinePerCode(cart)
    requires id in cart
    ensures SetQuantity(cart, cart[id].code, n) == cart[id := cart[id].(quantity := n)]
  {
    var updated, expected := SetQuantity(cart, cart[id].code, n), cart[id := cart[id].(quantity := n)];
    assert updated.Keys == expected.Keys;
    forall k | k in updated
      ensures updated[k] == expected[k]
    {
      if k != id {
        assert cart[k].code != cart[id].code;
      }
    }
  }
}
