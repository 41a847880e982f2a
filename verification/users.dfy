/**
  The users table shared by signup, login and checkout: one row per
  account, a UNIQUE username column, the hashed password, the balance and
  the JSON transaction log (held here already parsed).
 */
module Users {
  import opened Common
  import CartDb

  /** One entry of the transaction log. */
  datatype Transaction = Transaction(kind: string, amount: real, timestamp: string, items: CartDb.Carts)

  datatype UserRow = UserRow(username: string, password: string, balance: real, transactions: seq<Transaction>)

  type Table = seq<UserRow>

  /** The UNIQUE constraint on the username column. */
  predicate Unique(t: Table) {
    forall i, j :: 0 <= i < j < |t| ==> t[i].username != t[j].username
  }

  /** The balance a new account starts with. */
  const InitialBalance: real := 100000.0

  /** A request field that is there and truthy: JavaScript's `!field` is false for it. */
  predicate Present(f: Option<string>) {
    f.Some? && f.value != ""
  }

  /** `SELECT * FROM users WHERE username = ?` then `.get`: the first matching row, if any, from `from` on. */
  function FindFrom(t: Table, username: string, from: nat): (r: Option<nat>)
    requires from <= |t|
    decreases |t| - from
    ensures r.None? <==> forall i :: from <= i < |t| ==> t[i].username != username
    ensures r.Some? ==>
      && from <= r.value < |t|
      && t[r.value].username == username
      && forall i :: from <= i < r.value ==> t[i].username != username
  {
    if from == |t| then None
    else if t[from].username == username then Some(from)
    else FindFrom(t, username, from + 1)
  }

  function Find(t: Table, username: string): (r: Option<nat>)
    ensures r.None? <==> forall i :: 0 <= i < |t| ==> t[i].username != username
    ensures r.Some? ==>
      && r.value < |t|
      && t[r.value].username == username
      && forall i :: 0 <= i < r.value ==> t[i].username != username
  {
    FindFrom(t, username, 0)
  }

  /** Under the UNIQUE constraint the row found is the only row with that name. */
  lemma FindUnique(t: Table, i: nat)
    requires Unique(t) && i < |t|
    ensures Find(t, t[i].username) == Some(i)
  {
  }

  /** A name the table does not hold is found in the row appended for it. */
  lemma FindAppended(t: Table, row: UserRow)
    requires Find(t, row.username).None?
    ensures Find(t + [row], row.username) == Some(|t|)
  {
    var t' := t + [row];
    assert forall i :: 0 <= i < |t| ==> t'[i] == t[i];
    assert t'[|t|] == row;
  }

  /** Appending a row whose name is new keeps the usernames unique. */
  lemma AppendUnique(t: Table, row: UserRow)
    requires Unique(t) && Find(t, row.username).None?
    ensures Unique(t + [row])
  {
    var t' := t + [row];
    assert forall i :: 0 <= i < |t| ==> t'[i] == t[i];
  }
}
