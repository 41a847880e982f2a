/**
  The cart table as a relation over (username, product id, name, price):
  `getCart`, `addToCart`, `removeFromCart` and `clearCart`. The table is a
  sequence of rows in insertion order, duplicates allowed (the table has no
  key over these columns).
 */
module CartDb {

  datatype CartRow = CartRow(username: string, productId: string, name: string, price: real)

  /** The item fields an insert reads. */
  datatype Item = Item(productId: string, name: string, price: real)

  type Carts = seq<CartRow>

  /** The rows that satisfy `keep`, in table order; each kept row with its multiplicity. */
  function Filter(rows: Carts, keep: CartRow -> bool): (r: Carts)
    ensures |r| <= |rows|
    ensures forall row :: multiset(r)[row] == if keep(row) then multiset(rows)[row] else 0
  {
    if rows == [] then []
    else
      var rest := Filter(rows[1..], keep);
      assert rows == [rows[0]] + rows[1..];
      if keep(rows[0]) then [rows[0]] + rest else rest
  }

  /** `SELECT * FROM carts WHERE username = ?`. */
  function GetCart(carts: Carts, username: string): (r: Carts)
    ensures forall row :: multiset(r)[row] == if row.username == username then multiset(carts)[row] else 0
    ensures forall i :: 0 <= i < |r| ==> r[i].username == username
  {
    var r := Filter(carts, (row: CartRow) => row.username == username);
    assert forall i :: 0 <= i < |r| ==> r[i] in multiset(r);
    r
  }

  /** INSERT of one row for the user. */
  function AddToCart(carts: Carts, username: string, item: Item): (r: Carts)
    ensures multiset(r) == multiset(carts) + multiset{CartRow(username, item.productId, item.name, item.price)}
    ensures |r| == |carts| + 1
  {
    carts + [CartRow(username, item.productId, item.name, item.price)]
  }

  /** `DELETE ... WHERE username = ? AND product_id = ?`. */
  function RemoveFromCart(carts: Carts, username: string, productId: string): (r: Carts)
    ensures forall row :: multiset(r)[row] == (if row.username == username && row.productId == productId then 0 else multiset(carts)[row])
  {
    Filter(carts, (row: CartRow) => !(row.username == username && row.productId == productId))
  }

  /** `DELETE ... WHERE username = ?`. */
  function ClearCart(carts: Carts, username: string): (r: Carts)
    ensures forall row :: multiset(r)[row] == if row.username == username then 0 else multiset(carts)[row]
  {
    Filter(carts, (row: CartRow) => row.username != username)
  }

  /** `cart.reduce((sum, item) => sum + item.price, 0)`: a left fold from 0. */
  function Total(rows: Carts): (t: real)
    ensures rows == [] ==> t == 0.0
    ensures |rows| == 1 ==> t == rows[0].price
  {
    if rows == [] then 0.0 else Total(rows[..|rows| - 1]) + rows[|rows| - 1].price
  }

  lemma {:induction false} TotalConcat(a: Carts, b: Carts)
    ensures Total(a + b) == Total(a) + Total(b)
    decreases |b|
  {
    if b != [] {
      var b' := b[..|b| - 1];
      assert (a + b)[..|a + b| - 1] == a + b';
      assert (a + b)[|a + b| - 1] == b[|b| - 1];
      TotalConcat(a, b');
      assert Total(b) == Total(b') + b[|b| - 1].price;
    } else {
      assert a + b == a;
    }
  }

  /** With no negative prices the total is never negative. */
  lemma {:induction false} TotalNonNegative(rows: Carts)
    requires forall i :: 0 <= i < |rows| ==> rows[i].price >= 0.0
    ensures Total(rows) >= 0.0
    decreases |rows|
  {
    if rows != [] {
      TotalNonNegative(rows[..|rows| - 1]);
    }
  }

  /** Adding and then removing the same product leaves no row for that user and product. */
  lemma AddThenRemove(carts: Carts, username: string, item: Item)
    ensures var r := RemoveFromCart(AddToCart(carts, username, item), username, item.productId);
            forall i :: 0 <= i < |r| ==> !(r[i].username == username && r[i].productId == item.productId)
  {
    var r := RemoveFromCart(AddToCart(carts, username, item), username, item.productId);
    forall i | 0 <= i < |r|
      ensures !(r[i].username == username && r[i].productId == item.productId)
    {
      assert r[i] in multiset(r);
    }
  }

  /** An added row is in the user's cart. */
  lemma AddThenGet(carts: Carts, username: string, item: Item)
    ensures CartRow(username, item.productId, item.name, item.price) in GetCart(AddToCart(carts, username, item), username)
  {
    var row := CartRow(username, item.productId, item.name, item.price);
    var r := GetCart(AddToCart(carts, username, item), username);
    assert multiset(r)[row] >= 1;
  }

  /** Clearing empties the user's cart. */
  lemma ClearEmpties(carts: Carts, username: string)
    ensures GetCart(ClearCart(carts, username), username) == []
  {
    var r := GetCart(ClearCart(carts, username), username);
    assert forall row :: multiset(r)[row] == 0;
  }

  /** Filtering twice keeps what both filters keep, in the same order. */
  lemma {:induction false} FilterFilter(rows: Carts, p: CartRow -> bool, q: CartRow -> bool, pq: CartRow -> bool)
    requires forall row :: pq(row) == (p(row) && q(row))
    ensures Filter(Filter(rows, p), q) == Filter(rows, pq)
    decreases |rows|
  {
    if rows != [] {
      FilterFilter(rows[1..], p, q, pq);
      var rest := Filter(rows[1..], p);
      if p(rows[0]) {
        assert ([rows[0]] + rest)[1..] == rest;
      }
    }
  }

  /** Filters that agree on every row of the table return the same rows. */
  lemma {:induction false} FilterAgree(rows: Carts, p: CartRow -> bool, q: CartRow -> bool)
    requires forall i :: 0 <= i < |rows| ==> p(rows[i]) == q(rows[i])
    ensures Filter(rows, p) == Filter(rows, q)
    decreases |rows|
  {
    if rows != [] {
      assert forall i :: 0 <= i < |rows[1..]| ==> rows[1..][i] == rows[i + 1];
      FilterAgree(rows[1..], p, q);
    }
  }

  /** Clearing one user's cart leaves every other user's cart exactly as it was, order included. */
  lemma ClearKeepsOthers(carts: Carts, username: string, other: string)
    requires other != username
    ensures GetCart(ClearCart(carts, username), other) == GetCart(carts, other)
  {
    FilterFilter(carts, (row: CartRow) => row.username != username, (row: CartRow) => row.username == other,
                 (row: CartRow) => row.username != username && row.username == other);
    FilterAgree(carts, (row: CartRow) => row.username != username && row.username == other, (row: CartRow) => row.username == other);
  }

  /** Removing a product from one user's cart leaves every other user's cart exactly as it was. */
  lemma RemoveKeepsOthers(carts: Carts, username: string, productId: string, other: string)
    requires other != username
    ensures GetCart(RemoveFromCart(carts, username, productId), other) == GetCart(carts, other)
  {
    FilterFilter(carts, (row: CartRow) => !(row.username == username && row.productId == productId), (row: CartRow) => row.username == other,
                 (row: CartRow) => !(row.username == username && row.productId == productId) && row.username == other);
    FilterAgree(carts, (row: CartRow) => !(row.username == username && row.productId == productId) && row.username == other,
                (row: CartRow) => row.username == other);
  }
}
