/**
  POST /api/checkout: pay for the user's cart out of the balance, log the
  purchase and empty the cart. The database is the users table and the cart
  table together; the two modules the route imports from its library folder
  are taken to be the users table and the cart functions modelled here. The
  clock's ISO timestamp is the parameter `timestamp`.
 */
module Checkout {
  import opened Common
  import opened Users
  import CartDb

  datatype Db = Db(users: Table, carts: CartDb.Carts)

  datatype Outcome = Rejected(status: int, error: string) | Paid(newBalance: real)

  datatype CheckedOut = CheckedOut(outcome: Outcome, db: Db)

  const MissingUsername := "Missing username"
  const UserNotFound := "User not found"
  const InsufficientBalance := "Insufficient balance"
  const PurchaseKind := "purchase"

  /** `UPDATE users SET balance = ?, transactions = ? WHERE username = ?`: every row with the name. */
  function SetAccount(users: Table, username: string, balance: real, transactions: seq<Transaction>): (t: Table)
    ensures |t| == |users|
    ensures forall j :: 0 <= j < |users| ==>
      t[j] == if users[j].username == username
              then users[j].(balance := balance, transactions := transactions)
              else users[j]
  {
    seq(|users|, j requires 0 <= j < |users| =>
      if users[j].username == username then users[j].(balance := balance, transactions := transactions) else users[j])
  }

  function Checkout(db: Db, username: Option<string>, timestamp: string): (r: CheckedOut)
    // every rejection leaves the database as it was
    ensures r.outcome.Rejected? ==> r.db == db
    ensures !Present(username) <==> r.outcome == Rejected(400, MissingUsername)
    ensures Present(username) ==>
      var u := username.value;
      var cart := CartDb.GetCart(db.carts, u);
      var total := CartDb.Total(cart);
      match Find(db.users, u)
      case None => r.outcome == Rejected(404, UserNotFound)
      case Some(i) =>
        var user := db.users[i];
        && (user.balance < total <==> r.outcome == Rejected(402, InsufficientBalance))
        && (user.balance >= total <==> r.outcome.Paid?)
        && (r.outcome.Paid? ==>
              && r.outcome.newBalance == user.balance - total
              && r.outcome.newBalance >= 0.0
              && r.db.carts == CartDb.ClearCart(db.carts, u)
              && r.db.users == SetAccount(db.users, u, user.balance - total,
                                          user.transactions + [Transaction(PurchaseKind, total, timestamp, cart)]))
  {
    if !Present(username) then CheckedOut(Rejected(400, MissingUsername), db)
    else
      var u := username.value;
      var cart := CartDb.GetCart(db.carts, u);
      var total := CartDb.Total(cart);
      match Find(db.users, u)
      case None => CheckedOut(Rejected(404, UserNotFound), db)
      case Some(i) =>
        var user := db.users[i];
        if user.balance < total then CheckedOut(Rejected(402, InsufficientBalance), db)
        else
          var newBalance := user.balance - total;
          var log := user.transactions + [Transaction(PurchaseKind, total, timestamp, cart)];
          CheckedOut(Paid(newBalance), Db(SetAccount(db.users, u, newBalance, log), CartDb.ClearCart(db.carts, u)))
  }

  /**
    A paid checkout moves exactly the cart total out of the buyer's balance
    into one new purchase entry; earlier entries stay as they were, other
    accounts are untouched, and the buyer's cart is empty afterwards.
   */
  lemma PaidCheckoutLedger(db: Db, u: string, timestamp: string)
    requires Unique(db.users)
    requires Checkout(db, Some(u), timestamp).outcome.Paid?
    ensures var r := Checkout(db, Some(u), timestamp);
            var i := Find(db.users, u).value;
            var before, after := db.users[i], r.db.users[i];
            && after.balance + CartDb.Total(CartDb.GetCart(db.carts, u)) == before.balance
            && |after.transactions| == |before.transactions| + 1
            && after.transactions[..|before.transactions|] == before.transactions
            && after.transactions[|before.transactions|].kind == PurchaseKind
            && after.transactions[|before.transactions|].amount == before.balance - after.balance
            && after.transactions[|before.transactions|].items == CartDb.GetCart(db.carts, u)
            && (forall j :: 0 <= j < |db.users| && j != i ==> r.db.users[j] == db.users[j])
            && CartDb.GetCart(r.db.carts, u) == []
  {
    var i := Find(db.users, u).value;
    forall j | 0 <= j < |db.users| && j != i
      ensures db.users[j].username != u
    {
      if j < i {
      } else {
        assert db.users[i].username != db.users[j].username;
      }
    }
    CartDb.ClearEmpties(db.carts, u);
  }

  /** Checkout keeps usernames unique: it rewrites balances and logs, never names. */
  lemma CheckoutPreservesUnique(db: Db, username: Option<string>, timestamp: string)
    requires Unique(db.users)
    ensures Unique(Checkout(db, username, timestamp).db.users)
  {
  }

  /**
    A second checkout right after a paid one finds an empty cart: it is paid
    with a total of 0, keeps the balance, and still logs a purchase of 0.
   */
  lemma SecondCheckoutLogsEmptyPurchase(db: Db, u: string, t1: string, t2: string)
    requires Unique(db.users)
    requires Checkout(db, Some(u), t1).outcome.Paid?
    ensures var first := Checkout(db, Some(u), t1);
            var second := Checkout(first.db, Some(u), t2);
            var i := Find(db.users, u).value;
            && second.outcome == Paid(first.outcome.newBalance)
            && second.db.users[i].transactions == first.db.users[i].transactions + [Transaction(PurchaseKind, 0.0, t2, [])]
  {
    var first := Checkout(db, Some(u), t1);
    var i := Find(db.users, u).value;
    PaidCheckoutLedger(db, u, t1);
    CheckoutPreservesUnique(db, Some(u), t1);
    FindUnique(first.db.users, i);
    EmptyCartAlwaysPaid(first.db, u, t2);
  }

  /** A user with a non-negative balance can always check out an empty cart, and it logs a purchase of 0. */
  lemma EmptyCartAlwaysPaid(db: Db, u: string, timestamp: string)
    requires u != ""
    requires CartDb.GetCart(db.carts, u) == []
    requires Find(db.users, u).Some? && db.users[Find(db.users, u).value].balance >= 0.0
    ensures var i := Find(db.users, u).value;
            var r := Checkout(db, Some(u), timestamp);
            && r.outcome == Paid(db.users[i].balance)
            && r.db.users[i].transactions == db.users[i].transactions + [Transaction(PurchaseKind, 0.0, timestamp, [])]
  {
    assert CartDb.Total([]) == 0.0;
  }
}
