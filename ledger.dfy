/** How both services read the stock table: the nullable count of one row, the
    count as `getStock` reports it, and the loose `<` used by the
    insufficiency checks. */
module Ledger {
  import opened Model

  /** The count stored for `k`, or `None` when there is no row (what
      `value('quantity')` and a freshly created row's attribute give). */
  function Lookup(stock: map<Key, int>, k: Key): (r: Option<int>)
    ensures r.Some? <==> k in stock
    ensures k in stock ==> r.value == stock[k]
  {
    if k in stock then Some(stock[k]) else None
  }

  /** The count of `k`, an absent row counting as 0. */
  function Count(stock: map<Key, int>, k: Key): (c: int)
  {
    if k in stock then stock[k] else 0
  }

  /** PHP's `$current < $quantity` where `$current` may be null. PHP 8 compares
      null with an integer as two booleans, so `null < q` holds exactly when
      `q` is non-zero. */
  predicate Insufficient(current: Option<int>, q: int)
  {
    match current
    case Some(c) => c < q
    case None => q != 0
  }

  /** Every stored count is non-negative. */
  ghost predicate NonNegative(stock: map<Key, int>)
  {
    forall k :: k in stock ==> stock[k] >= 0
  }

  /** For a non-negative request, the loose comparison against a missing row
      behaves as if the row held 0. */
  lemma InsufficientAgainstCount(stock: map<Key, int>, k: Key, q: int)
    requires q >= 0
    ensures Insufficient(Lookup(stock, k), q) <==> Count(stock, k) < q
  {
  }

  /** A request that passes the check leaves the row at or above 0 after it
      is taken off; a missing row passes only a zero request. */
  lemma SufficientKeepsNonNegative(stock: map<Key, int>, k: Key, q: int)
    requires !Insufficient(Lookup(stock, k), q)
    ensures k in stock ==> stock[k] - q >= 0
    ensures k !in stock ==> q == 0
  {
  }
}
