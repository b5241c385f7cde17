/** The table of offers as LedgerTxnRoot queries it (loadBestOffers and
    isBetterOffer in src/ledger/LedgerTxnOfferSQL.cpp), and what its cache of best
    offers may hold. Prices are real numbers. */
module OfferTable {
  import opened Order
  import opened LedgerTypes

  datatype Pair = Pair(buying: Asset, selling: Asset)

  predicate Matches(e: LedgerEntry, p: Pair) {
    e.data.Offer? && e.data.buying == p.buying && e.data.selling == p.selling
  }

  /** The precondition is the program's own assert: same pair. */
  predicate IsBetterOffer(a: LedgerEntry, b: LedgerEntry)
    requires a.data.Offer? && b.data.Offer? && a.data.buying == b.data.buying && a.data.selling == b.data.selling
  {
    a.data.price < b.data.price || (a.data.price == b.data.price && a.data.offerID < b.data.offerID)
  }

  // ----- The order of rows -----

  function Price(e: LedgerEntry): (r: real) {
    if e.data.Offer? then e.data.price else 0.0
  }

  function Number(e: LedgerEntry): (r: nat) {
    if e.data.Offer? then e.data.offerID else 0
  }

  function Seller(e: LedgerEntry): (r: AccountID) {
    if e.data.Offer? then e.data.sellerID else 0
  }

  /** ORDER BY price, offerid; should two offers share a number, the seller
      stands for whatever the database then does. */
  predicate RowLess(a: LedgerEntry, b: LedgerEntry) {
    if Price(a) != Price(b) then Price(a) < Price(b)
    else if Number(a) != Number(b) then Number(a) < Number(b)
    else Seller(a) < Seller(b)
  }

  lemma {:induction false} RowLessWeak()
    ensures StrictWeak(RowLess)
  {
    forall a: LedgerEntry, b: LedgerEntry, c: LedgerEntry
      ensures !RowLess(a, a)
      ensures RowLess(a, b) && RowLess(b, c) ==> RowLess(a, c)
      ensures !RowLess(a, b) && !RowLess(b, c) ==> !RowLess(a, c)
    {
    }
  }

  /** The two orders agree. */
  lemma {:induction false} RowsFollowOffers(a: LedgerEntry, b: LedgerEntry)
    requires a.data.Offer? && b.data.Offer? && a.data.buying == b.data.buying && a.data.selling == b.data.selling
    ensures IsBetterOffer(a, b) ==> RowLess(a, b)
    ensures RowLess(a, b) && a.data.offerID != b.data.offerID ==> IsBetterOffer(a, b)
  {
  }

  // ----- The rows of a pair -----

  type Table = map<LedgerKey, LedgerEntry>

  predicate IsRow(store: Table, p: Pair, e: LedgerEntry) {
    KeyOf(e) in store && store[KeyOf(e)] == e && Matches(e, p)
  }

  ghost predicate IsRows(store: Table, p: Pair, rows: seq<LedgerEntry>) {
    Strict(RowLess, rows) && forall e :: e in rows <==> IsRow(store, p, e)
  }

  lemma {:induction false} RowsUnique(store: Table, p: Pair, a: seq<LedgerEntry>, b: seq<LedgerEntry>)
    requires IsRows(store, p, a) && IsRows(store, p, b)
    ensures a == b
  {
    StrictUnique(RowLess, a, b);
  }

  lemma {:induction false} RowsDiffer(store: Table, p: Pair, a: LedgerEntry, b: LedgerEntry)
    requires IsRow(store, p, a) && IsRow(store, p, b) && a != b
    ensures RowLess(a, b) || RowLess(b, a)
  {
  }

  /** The whole query, without its limit. */
  method SelectRows(store: Table, p: Pair) returns (rows: seq<LedgerEntry>)
    requires WellKeyed(store)
    ensures IsRows(store, p, rows)
  {
    var found := FilterRows(store, p);
    rows := Sort(RowLess, found);
    RowLessWeak();
    SortSorted(RowLess, found);
    SortedAreRows(store, p, found, rows);
  }

  method FilterRows(store: Table, p: Pair) returns (found: seq<LedgerEntry>)
    requires WellKeyed(store)
    ensures NoRepeats(found) && forall e :: e in found <==> IsRow(store, p, e)
  {
    found := [];
    var left := store.Keys;
    while left != {}
      invariant left <= store.Keys && NoRepeats(found)
      invariant forall e :: e in found <==> IsRow(store, p, e) && KeyOf(e) !in left
    {
      var k :| k in left;
      left := left - {k};
      if Matches(store[k], p) {
        found := found + [store[k]];
      }
    }
  }

  lemma {:induction false} SortedAreRows(store: Table, p: Pair, found: seq<LedgerEntry>, rows: seq<LedgerEntry>)
    requires NoRepeats(found) && (forall e :: e in found <==> IsRow(store, p, e))
    requires multiset(rows) == multiset(found) && SortedBy(RowLess, rows)
    ensures IsRows(store, p, rows)
  {
    PermutationNoRepeats(found, rows);
    forall e
      ensures e in rows <==> IsRow(store, p, e)
    {
      SameElements(rows, found, e);
    }
    forall i, j | 0 <= i < j < |rows|
      ensures RowLess(rows[i], rows[j])
    {
      assert rows[i] in rows && rows[j] in rows;
      RowsDiffer(store, p, rows[i], rows[j]);
    }
  }

  // ----- The cache -----

  datatype CachedOffers = CachedOffers(bestOffers: seq<LedgerEntry>, allLoaded: bool)

  predicate CachedPrefix(rows: seq<LedgerEntry>, c: CachedOffers) {
    c.bestOffers <= rows && (c.allLoaded ==> c.bestOffers == rows)
  }

  /** The cached list of a pair is a beginning of its rows. */
  ghost predicate CachedOk(store: Table, p: Pair, c: CachedOffers) {
    exists rows :: IsRows(store, p, rows) && CachedPrefix(rows, c)
  }

  ghost predicate OffersOk(store: Table, cache: map<Pair, CachedOffers>) {
    forall p :: p in cache ==> CachedOk(store, p, cache[p])
  }
}
