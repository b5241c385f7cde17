/** getInflationWinners over a stack of transactions: the loops that compute
    vote changes, and when the incremental answer is right. */
module InflationWinners {
  import opened Order
  import opened BucketFile
  import opened LedgerTypes
  import T = TxnStack
  import opened BulkApply
  import opened LedgerTxn
  import opened Inflation

  const SIZE_MAX: nat := 0xFFFF_FFFF_FFFF_FFFF

  ghost function TotalOf(m: T.Entries): (f: StrKey -> int) {
    (d: StrKey) => Total(m, d)
  }

  /** Whom an entry votes for. */
  function DestOf(e: Option<LedgerEntry>): (d: Maybe<StrKey>)
    ensures d.Just? ==> e.Some? && e.value.data.Account? && VoteOf(e, d.value) == e.value.data.balance
    ensures forall x: StrKey :: d != Just(x) ==> VoteOf(e, x) == 0
  {
    if e.Some? && e.value.data.Account?
      && e.value.data.balance >= MIN_VOTES_TO_INCLUDE then e.value.data.inflationDest else Nothing
  }

  function DestSet(e: Option<LedgerEntry>): (s: set<StrKey>) {
    if DestOf(e).Just? then {DestOf(e).value} else {}
  }

  // ----- Vote changes -----

  /** Destinations that a held account votes for, now or in the parent. */
  ghost function Touched(below: T.Entries, d: Changes): (s: set<StrKey>) {
    (set k | k in d && DestOf(d[k]).Just? :: DestOf(d[k]).value) +
    (set k | k in d && DestOf(T.Lookup(below, k)).Just? :: DestOf(T.Lookup(below, k)).value)
  }

  ghost function DeltaOf(below: T.Entries, d: Changes): (t: Tally) {
    map x | x in Touched(below, d) :: Total(Overlay(below, d), x) - Total(below, x)
  }

  ghost predicate DeltaSoFar(below: T.Entries, d: Changes, taken: set<LedgerKey>, delta: Tally) {
    && delta.Keys == Touched(below, Restrict(d, taken))
    && forall x :: At(delta, x) == Total(Overlay(below, Restrict(d, taken)), x) - Total(below, x)
  }

  lemma {:induction false} TouchedMore(below: T.Entries, d: Changes, taken: set<LedgerKey>, k: LedgerKey)
    requires k in d
    ensures Touched(below, Restrict(d, taken + {k}))
            == Touched(below, Restrict(d, taken)) + DestSet(d[k]) + DestSet(T.Lookup(below, k))
  {
    var a, b := Restrict(d, taken), Restrict(d, taken + {k});
    forall x
      ensures x in Touched(below, b) <==>
              x in Touched(below, a) || x in DestSet(d[k]) || x in DestSet(T.Lookup(below, k))
    {
      if x in DestSet(d[k]) {
        assert k in b && DestOf(b[k]) == Just(x);
      }
      if x in DestSet(T.Lookup(below, k)) {
        assert k in b && DestOf(T.Lookup(below, k)) == Just(x);
      }
      if x in Touched(below, a) {
        if j :| j in a && DestOf(a[j]) == Just(x) {
          assert j in b && b[j] == a[j];
        } else {
          var j :| j in a && DestOf(T.Lookup(below, j)) == Just(x);
          assert j in b;
        }
      }
    }
  }

  function Tallied(delta: Tally, e: Option<LedgerEntry>, sign: int): (r: Tally)
  {
    if DestOf(e).Just? then delta[DestOf(e).value := At(delta, DestOf(e).value) + sign * e.value.data.balance]
      else delta
  }

  lemma {:induction false} TalliedAt(delta: Tally, e: Option<LedgerEntry>, sign: int, x: StrKey)
    requires sign == 1 || sign == -1
    ensures At(Tallied(delta, e, sign), x) == At(delta, x) + (if sign == 1 then VoteOf(e, x) else -VoteOf(e, x))
    ensures Tallied(delta, e, sign).Keys == delta.Keys + DestSet(e)
  {
  }

  lemma {:induction false} DeltaNext(below: T.Entries, d: Changes, taken: set<LedgerKey>, delta: Tally, k: LedgerKey)
    requires k in d && k !in taken && DeltaSoFar(below, d, taken, delta)
    ensures DeltaSoFar(below, d, taken + {k}, Tallied(Tallied(delta, d[k], 1), T.Lookup(below, k), -1))
  {
    var one := Tallied(delta, d[k], 1);
    var two := Tallied(one, T.Lookup(below, k), -1);
    TouchedMore(below, d, taken, k);
    TalliedAt(delta, d[k], 1, 0);
    TalliedAt(one, T.Lookup(below, k), -1, 0);
    var m, m' := Overlay(below, Restrict(d, taken)), Overlay(below, Restrict(d, taken + {k}));
    OverlayOne(below, d, taken, k);
    forall x
      ensures At(two, x) == Total(m', x) - Total(below, x)
    {
      TalliedAt(delta, d[k], 1, x);
      TalliedAt(one, T.Lookup(below, k), -1, x);
      TotalChange(m, k, d[k], x);
    }
  }

  lemma {:induction false} NotAccount(k: LedgerKey, e: Option<LedgerEntry>)
    requires !k.AccountKey? && (e.Some? ==> KeyOf(e.value) == k)
    ensures DestOf(e) == Nothing
  {
  }

  /** The change of votes that one held entry makes. */
  method AddDelta(l: LedgerTxns, at: nat, k: LedgerKey, e: Option<LedgerEntry>, delta: Tally, ghost below: T.Entries)
    returns (r: Tally)
    requires CacheOk(l.store, l.cache) && at <= |l.txns| && below == Flat(l.store, l.txns[..at]) && WellKeyed(below)
    requires e.Some? ==> KeyOf(e.value) == k
    modifies l`cache
    ensures CacheOk(l.store, l.cache)
    ensures r == Tallied(Tallied(delta, e, 1), T.Lookup(below, k), -1)
  {
    if !k.AccountKey? {
      NotAccount(k, e);
      NotAccount(k, T.Lookup(below, k));
      return delta;
    }
    r := Tallied(delta, e, 1);
    var previous := l.GetNewestVersion(at, k);
    r := Tallied(r, previous, -1);
  }

  /** getDeltaVotes. */
  method GetDeltaVotes(l: LedgerTxns, at: nat, d: Changes, ghost below: T.Entries) returns (delta: Tally)
    requires CacheOk(l.store, l.cache) && at <= |l.txns| && below == Flat(l.store, l.txns[..at]) && WellKeyed(below)
    requires forall k :: k in d && d[k].Some? ==> KeyOf(d[k].value) == k
    modifies l`cache
    ensures CacheOk(l.store, l.cache)
    ensures delta == DeltaOf(below, d)
  {
    delta := map[];
    var left := d.Keys;
    ghost var taken: set<LedgerKey> := {};
    DeltaStart(below, d);
    while left != {}
      invariant CacheOk(l.store, l.cache)
      invariant left == d.Keys - taken && taken <= d.Keys
      invariant DeltaSoFar(below, d, taken, delta)
    {
      var k :| k in left;
      DeltaNext(below, d, taken, delta, k);
      delta := AddDelta(l, at, k, d[k], delta, below);
      left, taken := left - {k}, taken + {k};
    }
    assert taken == d.Keys;
    DeltaEnd(below, d, delta);
  }

  lemma {:induction false} DeltaStart(below: T.Entries, d: Changes)
    ensures DeltaSoFar(below, d, {}, map[])
  {
    OverlayAll(below, d);
    assert Touched(below, Restrict(d, {})) == {};
  }

  lemma {:induction false} DeltaEnd(below: T.Entries, d: Changes, delta: Tally)
    requires DeltaSoFar(below, d, d.Keys, delta)
    ensures delta == DeltaOf(below, d)
    ensures Follows(TotalOf(below), TotalOf(Overlay(below, d)), delta)
  {
    assert Restrict(d, d.Keys) == d;
    forall x | x in delta
      ensures delta[x] == DeltaOf(below, d)[x]
    {
      assert At(delta, x) == delta[x];
    }
  }

  // ----- The root -----

  /** The votes of the store grouped by destination; without voters no group. */
  ghost predicate Grouped(m: T.Entries, t: Tally) {
    forall x :: (x in t <==> Total(m, x) > 0) && (x in t ==> t[x] == Total(m, x))
  }

  method GroupVotes(store: T.Entries) returns (t: Tally)
    ensures Grouped(store, t)
  {
    t := map[];
    var left := store.Keys;
    ghost var seen: T.Entries := map[];
    while left != {}
      invariant left <= store.Keys
      invariant seen == map k | k in store && k !in left :: store[k]
      invariant Grouped(seen, t)
    {
      var k :| k in left;
      GroupOne(seen, t, k, store[k]);
      left := left - {k};
      t := Tallied(t, Some(store[k]), 1);
      seen := seen[k := store[k]];
    }
    assert seen == store;
  }

  lemma {:induction false} GroupOne(seen: T.Entries, t: Tally, k: LedgerKey, e: LedgerEntry)
    requires Grouped(seen, t) && k !in seen
    ensures Grouped(seen[k := e], Tallied(t, Some(e), 1))
  {
    var r := Tallied(t, Some(e), 1);
    forall x: StrKey
      ensures (x in r <==> Total(seen[k := e], x) > 0) && (x in r ==> r[x] == Total(seen[k := e], x))
    {
      TotalChange(seen, k, Some(e), x);
      TalliedAt(t, Some(e), 1, x);
    }
  }

  /** loadInflationWinners: the first `max` groups, up to the first that has too
      few votes. */
  method LoadInflationWinners(store: T.Entries, max: nat, min: int) returns (ws: seq<Winner>)
    ensures Answers(TotalOf(store), max, min, ws)
    ensures forall i, j :: 0 <= i < j < |ws| ==>
              ws[i].votes > ws[j].votes || (ws[i].votes == ws[j].votes && ws[i].dest > ws[j].dest)
  {
    var t := GroupVotes(store);
    var rows := EnumerateInflationWinners(t, max, 0);
    var n := 0;
    while n < |rows| && rows[n].votes >= min
      invariant n <= |rows| && forall i :: 0 <= i < n ==> rows[i].votes >= min
    {
      n := n + 1;
    }
    CutRows(store, t, max, min, rows, n);
    ws := rows[..n];
  }

  lemma {:induction false} CutRows(store: T.Entries, t: Tally, max: nat, min: int, rows: seq<Winner>, n: nat)
    requires Grouped(store, t) && Enumerated(t, max, 0, rows) && n <= |rows|
    requires (forall i :: 0 <= i < n ==> rows[i].votes >= min) && (n < |rows| ==> rows[n].votes < min)
    ensures Answers(TotalOf(store), max, min, rows[..n])
  {
    var total, ws := TotalOf(store), rows[..n];
    forall d | total(d) > 0 && total(d) >= min && !Listed(ws, d)
      ensures |ws| == max && AllAbove(ws, Winner(d, total(d)))
    {
    }
  }

  // ----- The stack -----

  method MaxIncreaseOf(delta: Tally) returns (inc: int)
    ensures MaxIncrease(delta, inc)
  {
    inc := 0;
    var left := delta.Keys;
    while left != {}
      invariant left <= delta.Keys && inc >= 0
      invariant forall d :: d in delta && d !in left ==> delta[d] <= inc
      invariant inc == 0 || exists d :: d in delta && delta[d] == inc
    {
      var d :| d in left;
      left := left - {d};
      if delta[d] > inc {
        inc := delta[d];
      }
    }
  }

  lemma {:induction false} MaxIncreaseExists(delta: Tally) returns (inc: int)
    ensures MaxIncrease(delta, inc)
    decreases |delta|
  {
    if delta.Keys == {} {
      return 0;
    }
    var d :| d in delta;
    var rest := map x | x in delta && x != d :: delta[x];
    assert rest.Keys == delta.Keys - {d};
    assert |rest| == |rest.Keys| < |delta.Keys| == |delta|;
    inc := MaxIncreaseExists(rest);
    assert forall x :: x in delta && x != d ==> x in rest && rest[x] == delta[x];
    if delta[d] > inc {
      inc := delta[d];
    }
  }

  lemma {:induction false} MaxIncreaseUnique(delta: Tally, a: int, b: int)
    requires MaxIncrease(delta, a) && MaxIncrease(delta, b)
    ensures a == b
  {
  }

  ghost function Increase(delta: Tally): (inc: int)
    ensures MaxIncrease(delta, inc)
  {
    assert exists inc :: MaxIncrease(delta, inc) by {
      var inc := MaxIncreaseExists(delta);
    }
    var inc :| MaxIncrease(delta, inc);
    inc
  }

  /** The change of votes made by the innermost transaction. */
  ghost function TopDelta(store: T.Entries, txns: seq<Txn>): (delta: Tally)
    requires txns != []
  {
    DeltaOf(Flat(store, txns[..|txns| - 1]), txns[|txns| - 1].entry)
  }

  ghost function TotalsAt(store: T.Entries, txns: seq<Txn>): (f: StrKey -> int) {
    TotalOf(Flat(store, txns))
  }

  ghost function AskMax(delta: Tally, max: nat): (r: nat) {
    max + |Changed(delta)|
  }

  ghost function AskMin(delta: Tally, min: int): (r: int) {
    NewMin(min, Increase(delta))
  }

  lemma {:induction false} DeltaExists(below: T.Entries, d: Changes, taken: set<LedgerKey>) returns (delta: Tally)
    requires taken <= d.Keys
    ensures DeltaSoFar(below, d, taken, delta)
    decreases |taken|
  {
    if taken == {} {
      DeltaStart(below, d);
      return map[];
    }
    var k :| k in taken;
    var before := DeltaExists(below, d, taken - {k});
    DeltaNext(below, d, taken - {k}, before, k);
    assert taken - {k} + {k} == taken;
    delta := Tallied(Tallied(before, d[k], 1), T.Lookup(below, k), -1);
  }

  lemma {:induction false} TopFollows(store: T.Entries, txns: seq<Txn>)
    requires txns != []
    ensures Follows(TotalsAt(store, txns[..|txns| - 1]), TotalsAt(store, txns), TopDelta(store, txns))
  {
    var below, d := Flat(store, txns[..|txns| - 1]), txns[|txns| - 1].entry;
    var delta := DeltaExists(below, d, d.Keys);
    DeltaEnd(below, d, delta);
  }

  lemma {:induction false} TopAsks(delta: Tally, max: nat, min: int)
    ensures Asks(delta, max, min, AskMax(delta, max), AskMin(delta, min))
  {
    assert MaxIncrease(delta, Increase(delta));
  }

  /** The answers that the whole stack can compute: the root's, then each
      transaction's from its parent's. */
  ghost predicate Computes(store: T.Entries, txns: seq<Txn>, max: nat, min: int, ws: seq<Winner>)
    decreases |txns|
  {
    if txns == [] then Answers(TotalOf(store), max, min, ws)
    else exists parent :: ComputesFrom(store, txns, max, min, parent, ws)
  }

  ghost predicate ComputesFrom(store: T.Entries, txns: seq<Txn>, max: nat, min: int, parent: seq<Winner>,
                               ws: seq<Winner>)
    requires txns != []
    decreases |txns|, 0
  {
    var delta := TopDelta(store, txns);
    && Computes(store, txns[..|txns| - 1], AskMax(delta, max), AskMin(delta, min), parent)
    && Enumerated(Combined(parent, delta, min), max, min, ws)
  }

  /** Somewhere down the stack too many winners are asked for. */
  ghost predicate Overflows(store: T.Entries, txns: seq<Txn>, max: nat)
    decreases |txns|
  {
    && txns != []
    && var newMax := AskMax(TopDelta(store, txns), max);
       newMax > SIZE_MAX || Overflows(store, txns[..|txns| - 1], newMax)
  }

  lemma {:induction false} EnumeratedDistinct(t: Tally, max: nat, min: int, ws: seq<Winner>)
    requires Enumerated(t, max, min, ws)
    ensures DistinctDests(ws)
  {
    forall i, j | 0 <= i < j < |ws|
      ensures ws[i].dest != ws[j].dest
    {
      assert Above(ws[i], ws[j]);
    }
  }

  lemma {:induction false} ComputedDistinct(store: T.Entries, txns: seq<Txn>, max: nat, min: int, ws: seq<Winner>)
    requires Computes(store, txns, max, min, ws)
    ensures DistinctDests(ws)
  {
    if txns == [] {
      RankedDistinct(TotalOf(store), max, min, ws);
    } else {
      var parent :| ComputesFrom(store, txns, max, min, parent, ws);
      EnumeratedDistinct(Combined(parent, TopDelta(store, txns), min), max, min, ws);
    }
  }

  /** What to ask the parent for; None when the number overflows. */
  method Widen(delta: Tally, max: nat, min: int) returns (r: Option<(nat, int)>)
    requires min >= 0
    ensures r == if AskMax(delta, max) > SIZE_MAX then None else Some((AskMax(delta, max), AskMin(delta, min)))
    ensures r.Some? ==> r.value.1 >= 0
  {
    var numChanged := |Changed(delta)|;
    if SIZE_MAX < numChanged + max {
      return None;
    }
    var inc := MaxIncreaseOf(delta);
    MaxIncreaseUnique(delta, inc, Increase(delta));
    return Some((max + numChanged, NewMin(min, inc)));
  }

  method VoteChanges(l: LedgerTxns, at: nat) returns (delta: Tally)
    requires WellKeyed(l.store) && CacheOk(l.store, l.cache) && ChainOk(l.store, l.txns) && 0 < at <= |l.txns|
    modifies l`cache
    ensures CacheOk(l.store, l.cache)
    ensures delta == TopDelta(l.store, l.txns[..at])
  {
    ChainAt(l.store, l.txns, at - 1);
    ChainPrefix(l.store, l.txns, at - 1);
    FlatWellKeyed(l.store, l.txns[..at - 1]);
    assert l.txns[..at][..at - 1] == l.txns[..at - 1];
    delta := GetDeltaVotes(l, at - 1, l.txns[at - 1].entry, Flat(l.store, l.txns[..at - 1]));
  }

  /** One transaction's answer from its parent's. */
  method Combine(parent: seq<Winner>, delta: Tally, max: nat, min: int, ghost store: T.Entries, ghost txns: seq<Txn>)
    returns (rs: seq<Winner>)
    requires txns != [] && delta == TopDelta(store, txns)
    requires Computes(store, txns[..|txns| - 1], AskMax(delta, max), AskMin(delta, min), parent)
    ensures Computes(store, txns, max, min, rs)
  {
    ComputedDistinct(store, txns[..|txns| - 1], AskMax(delta, max), AskMin(delta, min), parent);
    var total := GetTotalVotes(parent, delta, min);
    rs := EnumerateInflationWinners(total, max, min);
    assert ComputesFrom(store, txns, max, min, parent, rs);
  }

  /** getInflationWinners at any depth; None when the number of winners to ask for
      overflows. */
  method GetInflationWinners(l: LedgerTxns, at: nat, max: nat, min: int) returns (ws: Option<seq<Winner>>)
    requires WellKeyed(l.store) && CacheOk(l.store, l.cache) && ChainOk(l.store, l.txns) && at <= |l.txns| && min >= 0
    modifies l`cache
    ensures CacheOk(l.store, l.cache)
    ensures ws.None? <==> Overflows(l.store, l.txns[..at], max)
    ensures ws.Some? ==> Computes(l.store, l.txns[..at], max, min, ws.value)
    decreases at
  {
    if at == 0 {
      var rows := LoadInflationWinners(l.store, max, min);
      return Some(rows);
    }
    ghost var store, txns := l.store, l.txns;
    assert txns[..at][..at - 1] == txns[..at - 1];
    var delta := VoteChanges(l, at);
    assert l.store == store && l.txns == txns;
    var wide := Widen(delta, max, min);
    if wide.None? {
      return None;
    }
    var parent := GetInflationWinners(l, at - 1, wide.value.0, wide.value.1);
    assert l.store == store && l.txns == txns;
    if parent.None? {
      return None;
    }
    var rs := Combine(parent.value, delta, max, min, store, txns[..at]);
    return Some(rs);
  }

  // ----- When the answer is right -----

  /** At least n destinations rank higher. */
  ghost predicate Beaten(pt: StrKey -> int, n: nat, d: StrKey) {
    exists us: set<StrKey> :: |us| >= n && Ahead(pt, us, Winner(d, pt(d)))
  }

  /** A destination has enough votes for the parent's answer, but too many rank
      higher, so that it is not seen there; and yet it rises (or, when no votes are
      asked for, does not fall). */
  ghost predicate RisesUnseen(pt: StrKey -> int, delta: Tally, max: nat, min: int, d: StrKey) {
    && pt(d) > 0 && pt(d) >= AskMin(delta, min) && Beaten(pt, AskMax(delta, max), d)
    && d in delta && (delta[d] > 0 || delta[d] >= min)
  }

  lemma {:induction false} AheadAreListed(pt: StrKey -> int, max: nat, min: int, ws: seq<Winner>, i: nat,
                                          us: set<StrKey>)
    requires Answers(pt, max, min, ws) && i < |ws| && pt(ws[i].dest) > 0 && Ahead(pt, us, ws[i])
    ensures us <= Dests(ws[..i])
  {
    forall u | u in us
      ensures Listed(ws[..i], u)
    {
      assert Above(Winner(u, pt(u)), ws[i]);
      if !Listed(ws, u) {
        assert false;
      }
      var j :| 0 <= j < |ws| && ws[j].dest == u;
      assert ws[j] == Winner(u, pt(u));
      assert j < i;
      assert ws[..i][j].dest == u;
    }
  }

  /** Having enough votes, a destination is not listed exactly when it is beaten. */
  lemma {:induction false} ListedIffNotBeaten(pt: StrKey -> int, max: nat, min: int, ws: seq<Winner>, d: StrKey)
    requires Answers(pt, max, min, ws) && pt(d) > 0 && pt(d) >= min
    ensures Listed(ws, d) <==> !Beaten(pt, max, d)
  {
    if Listed(ws, d) {
      var i :| 0 <= i < |ws| && ws[i].dest == d;
      assert ws[i] == Winner(d, pt(d));
      forall us: set<StrKey> | Ahead(pt, us, Winner(d, pt(d)))
        ensures |us| < max
      {
        AheadAreListed(pt, max, min, ws, i, us);
        SubsetSize(us, Dests(ws[..i]));
        DestsCount(ws[..i]);
      }
    } else {
      RankedDistinct(pt, max, min, ws);
      DestsCount(ws);
      DestsAhead(pt, ws, Winner(d, pt(d)));
    }
  }

  lemma {:induction false} DestsAhead(pt: StrKey -> int, ws: seq<Winner>, w: Winner)
    requires (forall i :: 0 <= i < |ws| ==> ws[i].votes == pt(ws[i].dest)) && AllAbove(ws, w)
    ensures Ahead(pt, Dests(ws), w)
  {
    forall u | u in Dests(ws)
      ensures Above(Winner(u, pt(u)), w)
    {
      var i :| 0 <= i < |ws| && ws[i].dest == u;
      assert ws[i] == Winner(u, pt(u));
    }
  }

  /** What a right answer of the parent leaves out does not depend on which. */
  lemma {:induction false} MissedIsUnseen(pt: StrKey -> int, delta: Tally, max: nat, min: int, parent: seq<Winner>,
                                          d: StrKey)
    requires Answers(pt, AskMax(delta, max), AskMin(delta, min), parent)
    ensures Missed(pt, delta, parent, min, AskMin(delta, min), d) <==> RisesUnseen(pt, delta, max, min, d)
  {
    if pt(d) > 0 && pt(d) >= AskMin(delta, min) {
      ListedIffNotBeaten(pt, AskMax(delta, max), AskMin(delta, min), parent, d);
    }
  }

  /** At no depth does a destination rise unseen. */
  ghost predicate NothingMissed(store: T.Entries, txns: seq<Txn>, max: nat, min: int)
    decreases |txns|
  {
    txns == [] ||
    (var init, delta := txns[..|txns| - 1], TopDelta(store, txns);
     && NothingMissed(store, init, AskMax(delta, max), AskMin(delta, min))
     && NoneUnseen(TotalsAt(store, init), delta, max, min))
  }

  ghost predicate NoneUnseen(pt: StrKey -> int, delta: Tally, max: nat, min: int) {
    forall d :: !RisesUnseen(pt, delta, max, min, d)
  }

  lemma {:induction false} RightAbove(pt: StrKey -> int, ct: StrKey -> int, delta: Tally, max: nat, min: int,
                                      parent: seq<Winner>, ws: seq<Winner>)
    requires Follows(pt, ct, delta) && min >= 0 && Answers(pt, AskMax(delta, max), AskMin(delta, min), parent)
    requires Enumerated(Combined(parent, delta, min), max, min, ws) && NoneUnseen(pt, delta, max, min)
    ensures Answers(ct, max, min, ws)
  {
    forall d
      ensures !Missed(pt, delta, parent, min, AskMin(delta, min), d)
    {
      MissedIsUnseen(pt, delta, max, min, parent, d);
    }
    TopAsks(delta, max, min);
    CombinedAnswers(pt, ct, delta, parent, max, min, AskMax(delta, max), AskMin(delta, min), ws);
  }

  /** Over any stack: the answer is right if nothing rises unseen. */
  lemma {:induction false} RightIfNothingMissed(store: T.Entries, txns: seq<Txn>, max: nat, min: int, ws: seq<Winner>)
    requires Computes(store, txns, max, min, ws) && NothingMissed(store, txns, max, min) && min >= 0
    ensures Answers(TotalsAt(store, txns), max, min, ws)
    decreases |txns|
  {
    if txns != [] {
      var init, delta := txns[..|txns| - 1], TopDelta(store, txns);
      var parent :| ComputesFrom(store, txns, max, min, parent, ws);
      RightIfNothingMissed(store, init, AskMax(delta, max), AskMin(delta, min), parent);
      TopFollows(store, txns);
      RightAbove(TotalsAt(store, init), TotalsAt(store, txns), delta, max, min, parent, ws);
    }
  }

  /** Each parent's answer holds fewer winners than it was asked for. */
  ghost predicate NoneCut(store: T.Entries, txns: seq<Txn>, max: nat, min: int)
    decreases |txns|
  {
    txns == [] ||
    (var init, delta := txns[..|txns| - 1], TopDelta(store, txns);
     && NoneCut(store, init, AskMax(delta, max), AskMin(delta, min))
     && NotCut(TotalsAt(store, init), AskMax(delta, max), AskMin(delta, min)))
  }

  ghost predicate NotCut(pt: StrKey -> int, max: nat, min: int) {
    exists ws :: Answers(pt, max, min, ws) && |ws| < max
  }

  lemma {:induction false} NotCutNoneUnseen(pt: StrKey -> int, delta: Tally, max: nat, min: int)
    requires NotCut(pt, AskMax(delta, max), AskMin(delta, min))
    ensures NoneUnseen(pt, delta, max, min)
  {
    var newMax, newMin := AskMax(delta, max), AskMin(delta, min);
    var parent :| Answers(pt, newMax, newMin, parent) && |parent| < newMax;
    forall d
      ensures !RisesUnseen(pt, delta, max, min, d)
    {
      MissedIsUnseen(pt, delta, max, min, parent, d);
      if Missed(pt, delta, parent, min, newMin, d) {
        MissedOnlyIfCut(pt, delta, parent, min, newMax, newMin, d);
      }
    }
  }

  /** Over any stack: if no parent's answer is cut off, the answer is right. */
  lemma {:induction false} RightIfNoneCut(store: T.Entries, txns: seq<Txn>, max: nat, min: int, ws: seq<Winner>)
    requires Computes(store, txns, max, min, ws) && NoneCut(store, txns, max, min) && min >= 0
    ensures Answers(TotalsAt(store, txns), max, min, ws)
  {
    NoneCutNothingMissed(store, txns, max, min);
    RightIfNothingMissed(store, txns, max, min, ws);
  }

  lemma {:induction false} NoneCutNothingMissed(store: T.Entries, txns: seq<Txn>, max: nat, min: int)
    requires NoneCut(store, txns, max, min)
    ensures NothingMissed(store, txns, max, min)
    decreases |txns|
  {
    if txns != [] {
      var init, delta := txns[..|txns| - 1], TopDelta(store, txns);
      NoneCutNothingMissed(store, init, AskMax(delta, max), AskMin(delta, min));
      NotCutNoneUnseen(TotalsAt(store, init), delta, max, min);
    }
  }

  /** Where totals only fall, nothing is missed. */
  predicate Falling(delta: Tally) {
    forall d :: d in delta ==> delta[d] <= 0
  }

  lemma {:induction false} NoRiseNothingMissed(store: T.Entries, txns: seq<Txn>, max: nat, min: int)
    requires (forall i :: 0 < i <= |txns| ==> Falling(TopDelta(store, txns[..i]))) && min > 0
    ensures NothingMissed(store, txns, max, min)
    decreases |txns|
  {
    if txns != [] {
      var init, delta := txns[..|txns| - 1], TopDelta(store, txns);
      assert txns[..|txns|] == txns;
      assert Falling(delta) && Increase(delta) == 0;
      forall i | 0 < i <= |init|
        ensures Falling(TopDelta(store, init[..i]))
      {
        assert init[..i] == txns[..i];
      }
      NoRiseNothingMissed(store, init, AskMax(delta, max), min);
    }
  }

  // ----- Exactly when one transaction's answer is right -----

  /** All destinations that get votes. */
  ghost function Voted(m: T.Entries): (s: set<StrKey>) {
    set k | k in m && DestOf(Some(m[k])).Just? :: DestOf(Some(m[k])).value
  }

  lemma {:induction false} SumVoted(m: T.Entries, ks: set<LedgerKey>, d: StrKey)
    requires ks <= m.Keys && Sum(m, ks, d) > 0
    ensures d in Voted(m)
    decreases |ks|
  {
    var k :| k in ks && Sum(m, ks, d) == Vote(m[k], d) + Sum(m, ks - {k}, d);
    if Vote(m[k], d) > 0 {
      assert DestOf(Some(m[k])) == Just(d);
    } else {
      SumVoted(m, ks - {k}, d);
    }
  }

  /** Every destination that rises unseen is out of the top anyway. */
  ghost predicate UnseenOutOfTop(pt: StrKey -> int, ct: StrKey -> int, delta: Tally, max: nat, min: int) {
    forall d :: RisesUnseen(pt, delta, max, min, d) ==> OutOfTop(ct, max, min, d)
  }

  /** Over a right answer of the parent, the answer is right exactly when whatever
      rises unseen is out of the top anyway. */
  lemma {:induction false} RightIff(store: T.Entries, txns: seq<Txn>, max: nat, min: int, parent: seq<Winner>,
                                    ws: seq<Winner>)
    requires txns != [] && min > 0 && ComputesFrom(store, txns, max, min, parent, ws)
    requires var init, delta := txns[..|txns| - 1], TopDelta(store, txns);
             Answers(TotalsAt(store, init), AskMax(delta, max), AskMin(delta, min), parent)
    ensures var pt, ct := TotalsAt(store, txns[..|txns| - 1]), TotalsAt(store, txns);
            Answers(ct, max, min, ws) <==> UnseenOutOfTop(pt, ct, TopDelta(store, txns), max, min)
  {
    var pt, ct, delta := TotalsAt(store, txns[..|txns| - 1]), TotalsAt(store, txns), TopDelta(store, txns);
    var newMax, newMin := AskMax(delta, max), AskMin(delta, min);
    TopFollows(store, txns);
    TopAsks(delta, max, min);
    var m := Flat(store, txns);
    forall d | ct(d) > 0
      ensures d in Voted(m)
    {
      SumVoted(m, m.Keys, d);
    }
    RightIffMissedOut(pt, ct, delta, parent, max, min, newMax, newMin, Voted(m), ws);
    forall d
      ensures Missed(pt, delta, parent, min, newMin, d) <==> RisesUnseen(pt, delta, max, min, d)
    {
      MissedIsUnseen(pt, delta, max, min, parent, d);
    }
  }

  /** One transaction over the store: the condition speaks of votes alone. */
  lemma {:induction false} OneTransactionRightIff(store: T.Entries, txn: Txn, max: nat, min: int, ws: seq<Winner>)
    requires Computes(store, [txn], max, min, ws) && min > 0
    ensures var pt, ct := TotalOf(store), TotalOf(Overlay(store, txn.entry));
            Answers(ct, max, min, ws) <==> UnseenOutOfTop(pt, ct, DeltaOf(store, txn.entry), max, min)
  {
    OneTxn(store, txn);
    var parent :| ComputesFrom(store, [txn], max, min, parent, ws);
    var delta := TopDelta(store, [txn]);
    assert Computes(store, [], AskMax(delta, max), AskMin(delta, min), parent);
    RightIff(store, [txn], max, min, parent, ws);
  }

  lemma {:induction false} OneTxn(store: T.Entries, txn: Txn)
    ensures [txn][..0] == [] && Flat(store, []) == store && Flat(store, [txn]) == Overlay(store, txn.entry)
    ensures TopDelta(store, [txn]) == DeltaOf(store, txn.entry)
  {
  }

  // ----- An answer that is wrong -----

  function Voter(id: AccountID, balance: int, dest: StrKey): (e: LedgerEntry) {
    LedgerEntry(1, Account(id, balance, Just(dest)))
  }

  /** Three accounts vote, each for a destination of its own. */
  function ExampleStore(): (m: T.Entries) {
    map[AccountKey(10) := Voter(10, 3_000_000_000, 1)]
       [AccountKey(11) := Voter(11, 3_000_000_000, 2)]
       [AccountKey(12) := Voter(12, 2_000_000_000, 3)]
  }

  /** A fourth account joins in. */
  function ExampleEntry(): (d: Changes) {
    map[AccountKey(13) := Some(Voter(13, 2_000_000_000, 3))]
  }

  function ExampleVotes(d: StrKey): (v: int) {
    if d == 1 || d == 2 then 3_000_000_000 else if d == 3 then 2_000_000_000 else 0
  }

  function ExampleAfter(d: StrKey): (v: int) {
    if d == 3 then 4_000_000_000 else ExampleVotes(d)
  }

  const EXAMPLE_DELTA: Tally := map[3 := 2_000_000_000]
  const EXAMPLE_PARENT: seq<Winner> := [Winner(2, 3_000_000_000), Winner(1, 3_000_000_000)]
  const EXAMPLE_RESULT: seq<Winner> := [Winner(2, 3_000_000_000)]

  lemma {:induction false} ExampleTotals(d: StrKey)
    ensures Total(ExampleStore(), d) == ExampleVotes(d)
    ensures Total(Overlay(ExampleStore(), ExampleEntry()), d) == ExampleAfter(d)
  {
    var a: T.Entries := map[];
    var b := a[AccountKey(10) := Voter(10, 3_000_000_000, 1)];
    var c := b[AccountKey(11) := Voter(11, 3_000_000_000, 2)];
    TotalChange(a, AccountKey(10), Some(Voter(10, 3_000_000_000, 1)), d);
    TotalChange(b, AccountKey(11), Some(Voter(11, 3_000_000_000, 2)), d);
    TotalChange(c, AccountKey(12), Some(Voter(12, 2_000_000_000, 3)), d);
    assert ExampleStore() == c[AccountKey(12) := Voter(12, 2_000_000_000, 3)];
    TotalChange(ExampleStore(), AccountKey(13), Some(Voter(13, 2_000_000_000, 3)), d);
    assert Overlay(ExampleStore(), ExampleEntry()) == ExampleStore()[AccountKey(13) := Voter(13, 2_000_000_000, 3)];
  }

  lemma {:induction false} ExampleDelta()
    ensures DeltaOf(ExampleStore(), ExampleEntry()) == EXAMPLE_DELTA
  {
    var d := ExampleEntry();
    assert AccountKey(13) in d && DestOf(d[AccountKey(13)]) == Just(3);
    assert Touched(ExampleStore(), d) == {3};
    ExampleTotals(3);
  }

  lemma {:induction false} ExampleAsks()
    ensures AskMax(EXAMPLE_DELTA, 1) == 2 && AskMin(EXAMPLE_DELTA, 1_000_000_000) == 0
  {
    assert Changed(EXAMPLE_DELTA) == {3};
    assert EXAMPLE_DELTA[3] <= Increase(EXAMPLE_DELTA);
  }

  lemma {:induction false} ExampleParentRight()
    ensures Answers(TotalOf(ExampleStore()), 2, 0, EXAMPLE_PARENT)
  {
    var ws, pt := EXAMPLE_PARENT, TotalOf(ExampleStore());
    assert ws[0].dest == 2 && ws[1].dest == 1;
    ListedAt(ws, 0);
    ListedAt(ws, 1);
    forall d
      ensures pt(d) == ExampleVotes(d)
    {
      ExampleTotals(d);
    }
  }

  lemma {:induction false} ExampleCombined()
    ensures Combined(EXAMPLE_PARENT, EXAMPLE_DELTA, 1_000_000_000)
            == map[1 := 3_000_000_000, 2 := 3_000_000_000, 3 := 2_000_000_000]
  {
    var ws := EXAMPLE_PARENT;
    assert ws[0].dest == 2 && ws[1].dest == 1;
    ListedAt(ws, 0);
    ListedAt(ws, 1);
    ListedVotes(ws, ExampleVotes, 2);
    ListedVotes(ws, ExampleVotes, 1);
    NotListed(ws, 3);
    assert Dests(ws) == {1, 2};
  }

  lemma {:induction false} ExampleEnumerated()
    ensures Enumerated(map[1 := 3_000_000_000, 2 := 3_000_000_000, 3 := 2_000_000_000], 1, 1_000_000_000,
            EXAMPLE_RESULT)
  {
    assert EXAMPLE_RESULT[0].dest == 2;
    ListedAt(EXAMPLE_RESULT, 0);
  }

  lemma {:induction false} ExampleComputes(txn: Txn)
    requires txn.entry == ExampleEntry()
    ensures Computes(ExampleStore(), [txn], 1, 1_000_000_000, EXAMPLE_RESULT)
  {
    OneTxn(ExampleStore(), txn);
    ExampleDelta();
    ExampleAsks();
    ExampleParentRight();
    ExampleCombined();
    ExampleEnumerated();
    assert ComputesFrom(ExampleStore(), [txn], 1, 1_000_000_000, EXAMPLE_PARENT, EXAMPLE_RESULT);
  }

  lemma {:induction false} ExampleUnseen()
    ensures var pt, ct := TotalOf(ExampleStore()), TotalOf(Overlay(ExampleStore(), ExampleEntry()));
            !UnseenOutOfTop(pt, ct, EXAMPLE_DELTA, 1, 1_000_000_000)
  {
    var pt, ct := TotalOf(ExampleStore()), TotalOf(Overlay(ExampleStore(), ExampleEntry()));
    ExampleAsks();
    forall d
      ensures pt(d) == ExampleVotes(d) && ct(d) == ExampleAfter(d)
    {
      ExampleTotals(d);
    }
    var us: set<StrKey> := {1, 2};
    assert |us| == 2 && Ahead(pt, us, Winner(3, pt(3)));
    assert RisesUnseen(pt, EXAMPLE_DELTA, 1, 1_000_000_000, 3);
    forall us: set<StrKey> | |us| >= 1
      ensures !Ahead(ct, us, Winner(3, ct(3)))
    {
      var u :| u in us;
      assert !Above(Winner(u, ct(u)), Winner(3, ct(3)));
    }
  }

  /** One winner is wanted. Destination 3 rises above the others but was not
      among the two that the parent was asked for: there is an answer, and every
      answer is wrong. */
  lemma {:induction false} WrongWhenMissed(txn: Txn, ws: seq<Winner>)
    requires txn.entry == ExampleEntry()
    ensures Computes(ExampleStore(), [txn], 1, 1_000_000_000, EXAMPLE_RESULT)
    ensures Computes(ExampleStore(), [txn], 1, 1_000_000_000, ws) ==>
              !Answers(TotalOf(Overlay(ExampleStore(), txn.entry)), 1, 1_000_000_000, ws)
  {
    ExampleComputes(txn);
    ExampleDelta();
    ExampleUnseen();
    if Computes(ExampleStore(), [txn], 1, 1_000_000_000, ws) {
      OneTransactionRightIff(ExampleStore(), txn, 1, 1_000_000_000, ws);
    }
  }
}
