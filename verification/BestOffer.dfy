/** The best offer for an asset pair through any nesting of transactions
    (getBestOffer in src/ledger/LedgerTxn.cpp), with the root's cache of best
    offers kept across queries, commits and deletions. */
module BestOffer {
  import opened Order
  import opened BucketFile
  import opened LedgerTypes
  import T = TxnStack
  import opened BulkApply
  import opened OfferTable
  import opened LedgerTxn

  // ----- What is asked for -----

  /** A matching offer of the map that is not excluded. */
  predicate Candidate(m: T.Entries, p: Pair, exclude: set<LedgerKey>, k: LedgerKey) {
    k in m && k !in exclude && Matches(m[k], p)
  }

  /** Nothing eligible is missed, and nothing eligible is better. */
  ghost predicate IsBest(m: T.Entries, p: Pair, exclude: set<LedgerKey>, best: Option<LedgerEntry>) {
    match best
    case None => forall k :: !Candidate(m, p, exclude, k)
    case Some(e) =>
      && Candidate(m, p, exclude, KeyOf(e)) && m[KeyOf(e)] == e
      && forall k :: Candidate(m, p, exclude, k) ==> !IsBetterOffer(m[k], e)
  }

  /** No eligible offer is cheaper, nor as cheap and older. */
  lemma {:induction false} BestIsCheapest(m: T.Entries, p: Pair, exclude: set<LedgerKey>, best: Option<LedgerEntry>)
    requires IsBest(m, p, exclude, best)
    ensures forall k :: k in m && k !in exclude && Matches(m[k], p) ==>
              && best.Some? && best.value.data.Offer? && best.value.data.price <= m[k].data.price
              && (best.value.data.price == m[k].data.price ==> best.value.data.offerID <= m[k].data.offerID)
  {
    forall k | k in m && k !in exclude && Matches(m[k], p)
      ensures best.Some? && !IsBetterOffer(m[k], best.value)
    {
      assert Candidate(m, p, exclude, k);
    }
  }

  /** With one offer per offer number the answer is unique. */
  lemma {:induction false} BestUnique(m: T.Entries, p: Pair, exclude: set<LedgerKey>, a: Option<LedgerEntry>,
                                      b: Option<LedgerEntry>)
    requires IsBest(m, p, exclude, a) && IsBest(m, p, exclude, b)
    requires forall k, j ::
               Candidate(m, p, exclude, k) && Candidate(m, p, exclude, j) && m[k].data.offerID == m[j].data.offerID ==>
               k == j
    ensures a == b
  {
    if a.Some? {
      assert Candidate(m, p, exclude, KeyOf(a.value));
      if b.Some? {
        assert Candidate(m, p, exclude, KeyOf(b.value));
      }
    }
  }

  // ----- The root: a cached prefix of the sorted table -----

  const BATCH_SIZE: nat := 5

  method FindIncludedOffer(offers: seq<LedgerEntry>, from: nat, exclude: set<LedgerKey>) returns (r: Option<nat>)
    requires from <= |offers|
    ensures r.None? ==> forall i :: from <= i < |offers| ==> KeyOf(offers[i]) in exclude
    ensures r.Some? ==> from <= r.value < |offers| && KeyOf(offers[r.value]) !in exclude
    ensures r.Some? ==> forall i :: from <= i < r.value ==> KeyOf(offers[i]) in exclude
  {
    for i := from to |offers|
      invariant forall j :: from <= j < i ==> KeyOf(offers[j]) in exclude
    {
      if KeyOf(offers[i]) !in exclude {
        return Some(i);
      }
    }
    return None;
  }

  /** ORDER BY price, offerid LIMIT n OFFSET offset. */
  function LoadBestOffers(rows: seq<LedgerEntry>, n: nat, offset: nat): (r: seq<LedgerEntry>)
    requires offset <= |rows|
  {
    if offset + n <= |rows| then rows[offset..offset + n] else rows[offset..]
  }

  /** The first row not excluded is the best offer of the store. */
  lemma {:induction false} FirstIsBest(store: T.Entries, p: Pair, rows: seq<LedgerEntry>, exclude: set<LedgerKey>,
                                       i: nat)
    requires WellKeyed(store) && IsRows(store, p, rows) && i <= |rows|
    requires forall j :: 0 <= j < i ==> KeyOf(rows[j]) in exclude
    requires i < |rows| ==> KeyOf(rows[i]) !in exclude
    ensures IsBest(store, p, exclude, if i < |rows| then Some(rows[i]) else None)
  {
    assert i < |rows| ==> rows[i] in rows && IsRow(store, p, rows[i]);
    forall k | Candidate(store, p, exclude, k)
      ensures i < |rows| && !IsBetterOffer(store[k], rows[i])
    {
      assert IsRow(store, p, store[k]);
      var j :| 0 <= j < |rows| && rows[j] == store[k];
      assert j >= i;
      NotBetterLater(rows, p, i, j);
    }
  }

  lemma {:induction false} NotBetterLater(rows: seq<LedgerEntry>, p: Pair, i: nat, j: nat)
    requires Strict(RowLess, rows) && i <= j < |rows| && Matches(rows[i], p) && Matches(rows[j], p)
    ensures !IsBetterOffer(rows[j], rows[i])
  {
    RowsFollowOffers(rows[j], rows[i]);
  }

  /** The cached list stays a prefix of the sorted rows and grows by batches
      until an offer is found that is not excluded, or no row is left. */
  method Search(rows: seq<LedgerEntry>, cached: CachedOffers, exclude: set<LedgerKey>) returns (i: nat, c: CachedOffers)
    requires CachedPrefix(rows, cached)
    ensures CachedPrefix(rows, c) && |cached.bestOffers| <= |c.bestOffers|
    ensures i <= |rows| && (i < |rows| ==> KeyOf(rows[i]) !in exclude)
    ensures forall j :: 0 <= j < i ==> KeyOf(rows[j]) in exclude
  {
    c := cached;
    var res := FindIncludedOffer(c.bestOffers, 0, exclude);
    while res.None? && !c.allLoaded
      invariant CachedPrefix(rows, c) && |cached.bestOffers| <= |c.bestOffers|
      invariant res.None? ==> forall j :: 0 <= j < |c.bestOffers| ==> KeyOf(rows[j]) in exclude
      invariant res.Some? ==> 0 <= res.value < |c.bestOffers| && KeyOf(rows[res.value]) !in exclude
      invariant res.Some? ==> forall j :: 0 <= j < res.value ==> KeyOf(rows[j]) in exclude
      decreases if c.allLoaded then 0 else 1, |rows| - |c.bestOffers|
    {
      var from := |c.bestOffers|;
      var more := LoadBestOffers(rows, BATCH_SIZE, from);
      c := CachedOffers(c.bestOffers + more, |more| < BATCH_SIZE);
      assert c.bestOffers == rows[..|c.bestOffers|];
      res := FindIncludedOffer(c.bestOffers, from, exclude);
    }
    return if res.Some? then res.value else |rows|, c;
  }

  /** The cache may drop whatever it likes when a list is put in. */
  method KeepOffers(l: LedgerTxns, p: Pair, c: CachedOffers, ghost rows: seq<LedgerEntry>)
    requires OffersOk(l.store, l.bestOffers) && IsRows(l.store, p, rows) && CachedPrefix(rows, c)
    modifies l`bestOffers
    ensures OffersOk(l.store, l.bestOffers)
  {
    var evicted: set<Pair> := *;
    assert CachedOk(l.store, p, c);
    l.bestOffers := l.bestOffers[p := c] - evicted;
  }

  /** getFromBestOffersCache. */
  method CachedFor(l: LedgerTxns, p: Pair, rows: seq<LedgerEntry>) returns (c: CachedOffers)
    requires OffersOk(l.store, l.bestOffers) && IsRows(l.store, p, rows)
    ensures CachedPrefix(rows, c)
  {
    if p !in l.bestOffers {
      return CachedOffers([], false);
    }
    c := l.bestOffers[p];
    ghost var theirs :| IsRows(l.store, p, theirs) && CachedPrefix(theirs, c);
    RowsUnique(l.store, p, rows, theirs);
  }

  /** LedgerTxnRoot's getBestOffer. */
  method RootBestOffer(l: LedgerTxns, p: Pair, exclude: set<LedgerKey>) returns (best: Option<LedgerEntry>)
    requires WellKeyed(l.store) && CacheOk(l.store, l.cache) && OffersOk(l.store, l.bestOffers)
    modifies l`cache, l`bestOffers
    ensures CacheOk(l.store, l.cache) && OffersOk(l.store, l.bestOffers)
    ensures IsBest(l.store, p, exclude, best)
  {
    var rows := SelectRows(l.store, p);
    var c := CachedFor(l, p, rows);
    var i, c' := Search(rows, c, exclude);
    FirstIsBest(l.store, p, rows, exclude, i);
    best := if i < |rows| then Some(rows[i]) else None;
    KeepOffers(l, p, c', rows);
    if best.Some? {
      l.PutInEntryCache(KeyOf(best.value), best);
    }
  }

  // ----- Through the transactions -----

  function OfferKeys(d: Changes): (s: set<LedgerKey>) {
    set k | k in d && k.OfferKey?
  }

  /** The better of what a transaction holds itself and what its parent answers
      with the transaction's own offers excluded. */
  lemma {:induction false} BestOfBoth(below: T.Entries, d: Changes, p: Pair, exclude: set<LedgerKey>,
                                      own: Option<LedgerEntry>, parent: Option<LedgerEntry>)
    requires WellKeyed(below) && (forall k :: k in d && d[k].Some? ==> KeyOf(d[k].value) == k)
    requires IsBest(Held(d), p, exclude, own)
    requires IsBest(below, p, exclude + OfferKeys(d), parent)
    ensures IsBest(Overlay(below, d), p, exclude,
                   if own.Some? && parent.Some? then (if IsBetterOffer(own.value, parent.value) then own else parent)
                   else if own.Some? then own else parent)
  {
    var m := Overlay(below, d);
    forall k
      ensures Candidate(m, p, exclude, k) <==>
              Candidate(Held(d), p, exclude, k) || Candidate(below, p, exclude + OfferKeys(d), k)
      ensures Candidate(Held(d), p, exclude, k) ==> m[k] == Held(d)[k]
      ensures Candidate(below, p, exclude + OfferKeys(d), k) ==> m[k] == below[k]
    {
      MatchingIsOffer(below, p, k);
      MatchingIsOffer(Held(d), p, k);
    }
  }

  /** What a transaction holds itself. */
  function Held(d: Changes): (m: T.Entries) {
    map k | k in d && d[k].Some? :: d[k].value
  }

  lemma {:induction false} MatchingIsOffer(m: T.Entries, p: Pair, k: LedgerKey)
    requires WellKeyed(m)
    ensures k in m && Matches(m[k], p) ==> k.OfferKey?
  {
  }

  /** Best-so-far over the keys looked at. */
  ghost predicate BestSoFar(d: Changes, p: Pair, exclude: set<LedgerKey>, left: set<LedgerKey>,
                            own: Option<LedgerEntry>) {
    IsBest(Held(d), p, exclude + left, own)
  }

  lemma {:induction false} LookAt(d: Changes, p: Pair, exclude: set<LedgerKey>, left: set<LedgerKey>, k: LedgerKey,
                                  own: Option<LedgerEntry>)
    requires k in d && k in left && WellKeyed(Held(d)) && BestSoFar(d, p, exclude, left, own)
    ensures var takes := k !in exclude && d[k].Some? && Matches(d[k].value, p)
            && (own.None? || IsBetterOffer(d[k].value, own.value));
            BestSoFar(d, p, exclude, left - {k}, if takes then d[k] else own)
  {
    assert d[k].Some? ==> k in Held(d) && Held(d)[k] == d[k].value && KeyOf(d[k].value) == k;
    assert Candidate(Held(d), p, exclude, k) <==> k !in exclude && d[k].Some? && Matches(d[k].value, p);
    forall j
      ensures Candidate(Held(d), p, exclude + (left - {k}), j) <==>
              Candidate(Held(d), p, exclude + left, j) || (j == k && Candidate(Held(d), p, exclude, j))
    {
    }
  }

  /** The loop over a transaction's own entries. */
  method OwnBest(d: Changes, p: Pair, exclude: set<LedgerKey>)
    returns (own: Option<LedgerEntry>, exclude': set<LedgerKey>)
    requires WellKeyed(Held(d))
    ensures IsBest(Held(d), p, exclude, own)
    ensures exclude' == exclude + OfferKeys(d)
  {
    own, exclude' := None, exclude;
    var left := d.Keys;
    while left != {}
      invariant left <= d.Keys
      invariant BestSoFar(d, p, exclude, left, own)
      invariant exclude' == exclude + (OfferKeys(d) - left)
    {
      var k :| k in left;
      LookAt(d, p, exclude, left, k, own);
      if k.OfferKey? {
        if k !in exclude' {
          var e := d[k];
          if e.Some? && Matches(e.value, p) && (own.None? || IsBetterOffer(e.value, own.value)) {
            own := e;
          }
        }
        exclude' := exclude' + {k};
      } else {
        MatchingIsOffer(Held(d), p, k);
      }
      left := left - {k};
    }
    assert exclude + left == exclude;
  }

  /** getBestOffer at any depth: the best of the matching offers visible there
      that were not excluded to begin with. */
  method GetBestOffer(l: LedgerTxns, at: nat, p: Pair, exclude: set<LedgerKey>) returns (best: Option<LedgerEntry>)
    requires l.Valid() && at <= |l.txns|
    modifies l`cache, l`bestOffers
    ensures CacheOk(l.store, l.cache) && OffersOk(l.store, l.bestOffers)
    ensures IsBest(Flat(l.store, l.txns[..at]), p, exclude, best)
    ensures var m := Flat(l.store, l.txns[..at]);
            forall k :: k in m && k !in exclude && Matches(m[k], p) ==>
              && best.Some? && best.value.data.Offer? && best.value.data.price <= m[k].data.price
              && (best.value.data.price == m[k].data.price ==> best.value.data.offerID <= m[k].data.offerID)
    decreases at
  {
    if at == 0 {
      best := RootBestOffer(l, p, exclude);
      BestIsCheapest(l.store, p, exclude, best);
      return;
    }
    assert l.txns[..at][..at - 1] == l.txns[..at - 1];
    ChainAt(l.store, l.txns, at - 1);
    ChainPrefix(l.store, l.txns, at - 1);
    FlatWellKeyed(l.store, l.txns[..at - 1]);
    var d := l.txns[at - 1].entry;
    var own, exclude' := OwnBest(d, p, exclude);
    var parent := GetBestOffer(l, at - 1, p, exclude');
    BestOfBoth(Flat(l.store, l.txns[..at - 1]), d, p, exclude, own, parent);
    if own.Some? && parent.Some? {
      best := if IsBetterOffer(own.value, parent.value) then own else parent;
    } else {
      best := if own.Some? then own else parent;
    }
    BestIsCheapest(Flat(l.store, l.txns[..at]), p, exclude, best);
  }

  // ----- Runs that mix queries with everything else -----

  datatype Query = Do(at: nat, op: T.Op) | LoadBest(at: nat, pair: Pair) | DeleteFrom(ledger: nat)

  /** What a step may do: as the stack of maps says, with the best offer of the
      transaction's map loaded into it, or without the entries from a ledger on. */
  ghost predicate QueryStep(s: T.Stack, q: Query, r: T.Result, s': T.Stack) {
    match q
    case Do(at, op) => (s', r) == T.Step(s, at, op)
    case DeleteFrom(ledger) =>
      if s.frames != [] then s' == s && r == T.Failed(T.HasChild)
      else s' == s.(store := Older(s.store, ledger)) && r == T.Ok(None)
    case LoadBest(at, p) =>
      if at == 0 || at > |s.frames| then s' == s && r == T.Failed(T.Handled)
      else if s.frames[at - 1].isSealed || at < |s.frames| then s' == s && r.Failed?
      else exists best :: BestLoaded(s, at, p, best, r, s')
  }

  ghost predicate BestLoaded(s: T.Stack, at: nat, p: Pair, best: Option<LedgerEntry>, r: T.Result, s': T.Stack)
    requires 0 < at <= |s.frames|
  {
    && IsBest(s.frames[at - 1].view, p, {}, best)
    && (s', r) == if best.Some? then T.Step(s, at, T.Op.Load(KeyOf(best.value))) else (s, T.Ok(None))
  }

  /** loadBestOffer: the best of all visible offers is loaded into the
      innermost transaction. */
  method LoadBestOffer(l: LedgerTxns, at: nat, p: Pair) returns (r: T.Result)
    requires l.Valid()
    modifies l
    ensures l.Valid() && QueryStep(old(l.Abs()), LoadBest(at, p), r, l.Abs())
  {
    if at == 0 || at > |l.txns| {
      return T.Failed(T.Handled);
    }
    FrameAt(l.store, l.txns, at - 1);
    if l.txns[at - 1].isSealed {
      return T.Failed(T.IsSealed);
    }
    if at < |l.txns| {
      return T.Failed(T.HasChild);
    }
    ghost var s := l.Abs();
    var best := GetBestOffer(l, at, p, {});
    assert l.Abs() == s;
    if best.None? {
      assert BestLoaded(s, at, p, best, T.Ok(None), s);
      return T.Ok(None);
    }
    r := l.Perform(at, T.Op.Load(KeyOf(best.value)));
    assert BestLoaded(s, at, p, best, r, l.Abs());
  }

  /** Through every run of queries, edits, commits and rollbacks the root's
      caches stay images of the store, and every query is answered rightly. */
  method RunQueries(l: LedgerTxns, qs: seq<Query>) returns (rs: seq<T.Result>, ghost ss: seq<T.Stack>)
    requires l.Valid()
    modifies l
    ensures l.Valid() && |rs| == |qs| && |ss| == |qs| + 1 && ss[0] == old(l.Abs()) && ss[|qs|] == l.Abs()
    ensures forall i :: 0 <= i < |qs| ==> QueryStep(ss[i], qs[i], rs[i], ss[i + 1])
  {
    rs, ss := [], [l.Abs()];
    for i := 0 to |qs|
      invariant l.Valid() && |rs| == i && |ss| == i + 1 && ss[0] == old(l.Abs()) && ss[i] == l.Abs()
      invariant forall j :: 0 <= j < i ==> QueryStep(ss[j], qs[j], rs[j], ss[j + 1])
    {
      var r;
      match qs[i] {
        case Do(at, op) => r := l.Perform(at, op);
        case LoadBest(at, p) => r := LoadBestOffer(l, at, p);
        case DeleteFrom(ledger) => r := l.DeleteModifiedOnOrAfter(ledger);
      }
      rs, ss := rs + [r], ss + [l.Abs()];
    }
  }
}
