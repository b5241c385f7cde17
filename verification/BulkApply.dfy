/** Writing a committed transaction to the store in batches per entry type
    (LedgerTxnRoot in src/ledger/LedgerTxn.cpp). The tables are one map. */
module BulkApply {
  import opened BucketFile
  import opened LedgerTypes
  import opened TxnStack

  /** What a transaction holds: entries, and None for erased ones. */
  type Changes = map<LedgerKey, Option<LedgerEntry>>

  const LEDGER_ENTRY_BATCH_COMMIT_SIZE: nat := 0xfff

  /** The map seen through a transaction's changes. */
  function Overlay(m: Entries, d: Changes): (r: Entries) {
    map k | k in m.Keys + d.Keys && (k in d ==> d[k].Some?) :: if k in d then d[k].value else m[k]
  }

  function Restrict(d: Changes, ks: set<LedgerKey>): (r: Changes) {
    map k | k in d && k in ks :: d[k]
  }

  lemma {:induction false} OverlayMore(m: Entries, d: Changes, a: set<LedgerKey>, b: set<LedgerKey>)
    ensures Overlay(Overlay(m, Restrict(d, a)), Restrict(d, b)) == Overlay(m, Restrict(d, a + b))
  {
  }

  /** One more key of the changes. */
  lemma {:induction false} OverlayOne(m: Entries, d: Changes, taken: set<LedgerKey>, k: LedgerKey)
    requires k in d && k !in taken
    ensures var one, more := Overlay(m, Restrict(d, taken)), Overlay(m, Restrict(d, taken + {k}));
            && Lookup(one, k) == Lookup(m, k)
            && more == if d[k].Some? then one[k := d[k].value] else one - {k}
  {
  }

  lemma {:induction false} OverlayAll(m: Entries, d: Changes)
    ensures Overlay(m, Restrict(d, d.Keys)) == Overlay(m, d)
    ensures Overlay(m, Restrict(d, {})) == m
  {
    assert Restrict(d, d.Keys) == d;
  }

  /** Every erased key is there to be erased. */
  ghost predicate Exact(below: Entries, d: Changes) {
    forall k :: k in d && d[k].None? ==> k in below
  }

  predicate Distinct(ks: seq<LedgerKey>) {
    forall i, j :: 0 <= i < j < |ks| ==> ks[i] != ks[j]
  }

  function Elements(ks: seq<LedgerKey>): (s: set<LedgerKey>) {
    set k | k in ks
  }

  lemma {:induction false} UpsertOne(m: Entries, d: Changes, a: set<LedgerKey>, k: LedgerKey)
    requires k in d && d[k].Some?
    ensures Overlay(m, Restrict(d, a))[k := d[k].value] == Overlay(m, Restrict(d, a + {k}))
  {
  }

  // ----- Bulk statements -----

  method BulkUpsert(store: Entries, d: Changes, ks: seq<LedgerKey>) returns (r: Entries)
    requires forall k :: k in ks ==> k in d && d[k].Some?
    ensures r == Overlay(store, Restrict(d, Elements(ks)))
  {
    r := store;
    for i := 0 to |ks|
      invariant r == Overlay(store, Restrict(d, Elements(ks[..i])))
    {
      assert Elements(ks[..i + 1]) == Elements(ks[..i]) + {ks[i]};
      UpsertOne(store, d, Elements(ks[..i]), ks[i]);
      r := r[ks[i] := d[ks[i]].value];
    }
    assert ks[..|ks|] == ks;
  }

  function Present(store: Entries, ks: seq<LedgerKey>): (n: nat)
    ensures n <= |ks|
  {
    if ks == [] then 0 else Present(store, ks[..|ks| - 1]) + if ks[|ks| - 1] in store then 1 else 0
  }

  lemma {:induction false} PresentIfAll(store: Entries, ks: seq<LedgerKey>)
    requires forall i :: 0 <= i < |ks| ==> ks[i] in store
    ensures Present(store, ks) == |ks|
  {
    if ks != [] {
      PresentIfAll(store, ks[..|ks| - 1]);
    }
  }

  lemma {:induction false} AllIfPresent(store: Entries, ks: seq<LedgerKey>, i: nat)
    requires Present(store, ks) == |ks| && i < |ks|
    ensures ks[i] in store
  {
    var rest := ks[..|ks| - 1];
    if i < |rest| {
      AllIfPresent(store, rest, i);
      assert rest[i] == ks[i];
    }
  }

  lemma {:induction false} AllPresent(store: Entries, ks: seq<LedgerKey>)
    ensures Present(store, ks) == |ks| <==> forall k :: k in ks ==> k in store
  {
    if Present(store, ks) == |ks| {
      forall i | 0 <= i < |ks|
        ensures ks[i] in store
      {
        AllIfPresent(store, ks, i);
      }
    } else if forall k :: k in ks ==> k in store {
      PresentIfAll(store, ks);
    }
  }

  /** Under exact consistency a delete that misses a row is an error. */
  method BulkDelete(store: Entries, ks: seq<LedgerKey>, exact: bool) returns (ok: bool, r: Entries)
    requires Distinct(ks)
    ensures r == store - Elements(ks)
    ensures ok <==> !exact || forall k :: k in ks ==> k in store
  {
    r := store;
    var affected := 0;
    for i := 0 to |ks|
      invariant r == store - Elements(ks[..i])
      invariant affected == Present(store, ks[..i])
    {
      assert Elements(ks[..i + 1]) == Elements(ks[..i]) + {ks[i]};
      assert ks[..i + 1][..i] == ks[..i];
      assert ks[i] in r <==> ks[i] in store;
      if ks[i] in r {
        affected := affected + 1;
      }
      r := r - {ks[i]};
    }
    assert ks[..|ks|] == ks;
    AllPresent(store, ks);
    ok := !exact || affected == |ks|;
  }

  // ----- The accumulator: one upsert and one delete buffer per type -----

  const TYPES: nat := 4

  ghost predicate Buffer(d: Changes, ks: seq<LedgerKey>, t: nat, live: bool) {
    Distinct(ks) && forall k :: k in ks ==> k in d && TypeRank(k) == t && d[k].Some? == live
  }

  ghost predicate Buffers(d: Changes, bs: seq<seq<LedgerKey>>, live: bool) {
    |bs| == TYPES && forall t :: 0 <= t < TYPES ==> Buffer(d, bs[t], t, live)
  }

  /** A buffer over the threshold is written out, any other stays. */
  function Left(ks: seq<LedgerKey>, threshold: nat): (r: seq<LedgerKey>) {
    if |ks| > threshold then [] else ks
  }

  /** The first t of the buffers have been dealt with. */
  ghost predicate FlushedTo(before: seq<seq<LedgerKey>>, now: seq<seq<LedgerKey>>, t: nat, threshold: nat)
    requires |before| == |now| == TYPES
  {
    forall u :: 0 <= u < TYPES ==> now[u] == if u < t then Left(before[u], threshold) else before[u]
  }

  /** The changes of the keys have been written, with an error if exactness is asked
      for and a key to erase has no row. */
  ghost predicate Applied(store: Entries, d: Changes, ks: set<LedgerKey>, r: Entries, ok: bool, exact: bool) {
    r == Overlay(store, Restrict(d, ks)) && (ok <==> !exact || Exact(store, Restrict(d, ks)))
  }

  class Accumulator {
    var upserts: seq<seq<LedgerKey>>
    var deletes: seq<seq<LedgerKey>>

    /** The buffers hold distinct keys of d, each where it belongs. */
    ghost predicate Valid(d: Changes)
      reads this
    {
      Buffers(d, upserts, true) && Buffers(d, deletes, false)
    }

    ghost predicate Holds(k: LedgerKey)
      reads this
      requires |upserts| == |deletes| == TYPES
    {
      k in upserts[TypeRank(k)] || k in deletes[TypeRank(k)]
    }

    /** Taken from the transaction but not yet written. */
    ghost function Pending(d: Changes): (s: set<LedgerKey>)
      reads this
      requires Valid(d)
    {
      set k | k in d && Holds(k)
    }

    constructor (ghost d: Changes)
      ensures Valid(d) && Pending(d) == {}
    {
      upserts := [[], [], [], []];
      deletes := [[], [], [], []];
    }

    method Accumulate(d: Changes, k: LedgerKey)
      requires Valid(d) && k in d && k !in Pending(d)
      modifies this
      ensures Valid(d) && Pending(d) == old(Pending(d)) + {k}
      ensures k in if d[k].Some? then upserts[TypeRank(k)] else deletes[TypeRank(k)]
    {
      var t := TypeRank(k);
      if d[k].Some? {
        upserts := upserts[t := upserts[t] + [k]];
      } else {
        deletes := deletes[t := deletes[t] + [k]];
      }
    }

    method FlushUpserts(store: Entries, d: Changes, t: nat, threshold: nat) returns (r: Entries)
      requires Valid(d) && t < TYPES
      modifies this
      ensures Valid(d) && Pending(d) <= old(Pending(d))
      ensures forall exact :: Applied(store, d, old(Pending(d)) - Pending(d), r, true, exact)
      ensures deletes == old(deletes) && upserts == old(upserts)[t := Left(old(upserts)[t], threshold)]
    {
      r := store;
      if |upserts[t]| > threshold {
        r := BulkUpsert(store, d, upserts[t]);
        upserts := upserts[t := []];
        assert old(Pending(d)) - Pending(d) == Elements(old(upserts)[t]);
      }
    }

    method FlushDeletes(store: Entries, d: Changes, t: nat, threshold: nat, exact: bool) returns (ok: bool, r: Entries)
      requires Valid(d) && t < TYPES
      modifies this
      ensures Valid(d) && Pending(d) <= old(Pending(d))
      ensures Applied(store, d, old(Pending(d)) - Pending(d), r, ok, exact)
      ensures upserts == old(upserts) && deletes == old(deletes)[t := Left(old(deletes)[t], threshold)]
    {
      r, ok := store, true;
      if |deletes[t]| > threshold {
        ok, r := BulkDelete(store, deletes[t], exact);
        deletes := deletes[t := []];
        assert old(Pending(d)) - Pending(d) == Elements(old(deletes)[t]);
      }
    }

    /** The two buffers of one type. */
    method FlushType(store: Entries, d: Changes, t: nat, threshold: nat, exact: bool) returns (ok: bool, r: Entries)
      requires Valid(d) && t < TYPES
      modifies this
      ensures Valid(d) && Pending(d) <= old(Pending(d))
      ensures Applied(store, d, old(Pending(d)) - Pending(d), r, ok, exact)
      ensures upserts == old(upserts)[t := Left(old(upserts)[t], threshold)]
      ensures deletes == old(deletes)[t := Left(old(deletes)[t], threshold)]
    {
      var upserted := FlushUpserts(store, d, t, threshold);
      ghost var p := Pending(d);
      ok, r := FlushDeletes(upserted, d, t, threshold, exact);
      AppliedMore(store, d, old(Pending(d)), p, Pending(d), upserted, r, true, ok, exact);
    }

    /** bulkApply: each buffer over the threshold is written and emptied. */
    method BulkApply(store: Entries, d: Changes, threshold: nat, exact: bool) returns (ok: bool, r: Entries)
      requires Valid(d)
      modifies this
      ensures Valid(d) && Pending(d) <= old(Pending(d))
      ensures Applied(store, d, old(Pending(d)) - Pending(d), r, ok, exact)
      ensures FlushedTo(old(upserts), upserts, TYPES, threshold) && FlushedTo(old(deletes), deletes, TYPES, threshold)
      ensures threshold == 0 ==> Pending(d) == {}
    {
      ok, r := true, store;
      ghost var before := Pending(d);
      NothingApplied(store, d, before, exact);
      for t := 0 to TYPES
        invariant Valid(d) && Pending(d) <= before
        invariant Applied(store, d, before - Pending(d), r, ok, exact)
        invariant FlushedTo(old(upserts), upserts, t, threshold) && FlushedTo(old(deletes), deletes, t, threshold)
      {
        ghost var p := Pending(d);
        var fine, r' := FlushType(r, d, t, threshold, exact);
        AppliedMore(store, d, before, p, Pending(d), r, r', ok, fine, exact);
        ok, r := ok && fine, r';
      }
    }
  }

  lemma {:induction false} NothingApplied(store: Entries, d: Changes, p: set<LedgerKey>, exact: bool)
    ensures Applied(store, d, p - p, store, true, exact)
  {
    OverlayAll(store, d);
    assert p - p == {};
  }

  /** Applying p - p' and then p' - p'' is applying p - p''. */
  lemma {:induction false} AppliedMore(store: Entries, d: Changes, p: set<LedgerKey>, p': set<LedgerKey>,
                                       p'': set<LedgerKey>, r: Entries, r': Entries, ok: bool, ok': bool, exact: bool)
    requires p'' <= p' <= p
    requires Applied(store, d, p - p', r, ok, exact) && Applied(r, d, p' - p'', r', ok', exact)
    ensures Applied(store, d, p - p'', r', ok && ok', exact)
  {
    OverlayMore(store, d, p - p', p' - p'');
    assert (p - p') + (p' - p'') == p - p'';
    forall k | k in p' - p''
      ensures k in r <==> k in store
    {
    }
  }

  /** Everything taken is written or pending, and the rest untouched; `ok` if
      no delete has missed its row. */
  ghost predicate Progress(store: Entries, d: Changes, acc: Accumulator, left: set<LedgerKey>, current: Entries,
                           ok: bool, exact: bool)
    reads acc
  {
    && acc.Valid(d) && acc.Pending(d) !! left
    && Applied(store, d, d.Keys - left - acc.Pending(d), current, ok, exact)
  }

  /** One round of the commit: take an entry, then write the full buffers. */
  method CommitOne(ghost store: Entries, acc: Accumulator, current: Entries, d: Changes, k: LedgerKey,
                   ghost left: set<LedgerKey>, last: bool, fine: bool, exact: bool)
    returns (ok: bool, r: Entries)
    requires k in d && k !in left && Progress(store, d, acc, left + {k}, current, fine, exact)
    modifies acc
    ensures Progress(store, d, acc, left, r, ok, exact)
    ensures last ==> acc.Pending(d) == {}
  {
    acc.Accumulate(d, k);
    ghost var p := acc.Pending(d);
    assert d.Keys - (left + {k}) - old(acc.Pending(d)) == (d.Keys - left) - p;
    ok, r := acc.BulkApply(current, d, if last then 0 else LEDGER_ENTRY_BATCH_COMMIT_SIZE, exact);
    AppliedMore(store, d, d.Keys - left, p, acc.Pending(d), current, r, fine, ok, exact);
    ok := fine && ok;
  }

  lemma {:induction false} AllWritten(store: Entries, d: Changes, acc: Accumulator, current: Entries, ok: bool,
                                      exact: bool)
    requires Progress(store, d, acc, {}, current, ok, exact) && acc.Pending(d) == {}
    ensures current == Overlay(store, d)
    ensures ok <==> !exact || Exact(store, d)
  {
    OverlayAll(store, d);
    assert d.Keys - {} - {} == d.Keys;
  }

  /** LedgerTxnRoot's commitChild. The transaction's entries come in no
      particular order. Whatever the order and the batching, the store becomes
      the transaction's view of it, and under exact consistency the commit goes
      through exactly if every erased key was there. */
  method CommitToStore(store: Entries, d: Changes, exact: bool) returns (ok: bool, r: Entries)
    ensures r == Overlay(store, d)
    ensures ok <==> !exact || Exact(store, d)
  {
    ok, r := true, store;
    var acc := new Accumulator(d);
    var left := d.Keys;
    assert Progress(store, d, acc, left, r, ok, exact) by {
      NothingApplied(store, d, left, exact);
      assert d.Keys - left - acc.Pending(d) == left - left;
    }
    while left != {}
      invariant left <= d.Keys && fresh(acc)
      invariant Progress(store, d, acc, left, r, ok, exact)
      invariant left == {} ==> acc.Pending(d) == {}
    {
      var k :| k in left;
      var rest := left - {k};
      assert left == rest + {k};
      ok, r := CommitOne(store, acc, r, d, k, rest, rest == {}, ok, exact);
      left := rest;
    }
    AllWritten(store, d, acc, r, ok, exact);
  }
}
