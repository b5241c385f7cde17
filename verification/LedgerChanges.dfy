/** What a transaction reports of its changes when it is sealed: live and dead
    entries, the change list for the transaction's metadata, and the delta
    (src/ledger/LedgerTxn.cpp). Entries come in no particular order. */
module LedgerChanges {
  import opened Order
  import opened BucketFile
  import opened LedgerTypes
  import T = TxnStack
  import opened BulkApply
  import opened LedgerTxn

  // ----- Live and dead entries -----

  ghost predicate LiveOf(d: Changes, live: seq<LedgerEntry>) {
    && (forall i :: 0 <= i < |live| ==> KeyOf(live[i]) in d && d[KeyOf(live[i])] == Some(live[i]))
    && (forall k :: k in d && d[k].Some? ==> KeyOf(d[k].value) == k && d[k].value in live)
    && NoRepeats(live)
  }

  ghost predicate DeadOf(d: Changes, dead: seq<LedgerKey>) {
    (forall k :: k in dead <==> k in d && d[k].None?) && NoRepeats(dead)
  }

  method ListLive(d: Changes) returns (live: seq<LedgerEntry>)
    requires forall k :: k in d && d[k].Some? ==> KeyOf(d[k].value) == k
    ensures LiveOf(d, live)
  {
    live := [];
    var left := d.Keys;
    while left != {}
      invariant left <= d.Keys
      invariant forall i :: 0 <= i < |live| ==> KeyOf(live[i]) in d && d[KeyOf(live[i])] == Some(live[i])
      invariant forall i :: 0 <= i < |live| ==> KeyOf(live[i]) !in left
      invariant forall k :: k in d && k !in left && d[k].Some? ==> d[k].value in live
      invariant NoRepeats(live)
    {
      var k :| k in left;
      left := left - {k};
      if d[k].Some? {
        live := live + [d[k].value];
      }
    }
  }

  method ListDead(d: Changes) returns (dead: seq<LedgerKey>)
    ensures DeadOf(d, dead)
  {
    dead := [];
    var left := d.Keys;
    while left != {}
      invariant left <= d.Keys
      invariant forall k :: k in dead <==> k in d && k !in left && d[k].None?
      invariant NoRepeats(dead)
    {
      var k :| k in left;
      left := left - {k};
      if d[k].None? {
        dead := dead + [k];
      }
    }
  }

  method GetLiveEntries(l: LedgerTxns, at: nat) returns (r: T.Result, live: seq<LedgerEntry>)
    requires l.Valid() && 0 < at <= |l.txns|
    modifies l
    ensures l.Valid() && (l.Abs(), r) == T.Step(old(l.Abs()), at, T.Op.Seal(false))
    ensures r.Ok? <==> at == |old(l.txns)|
    ensures l.store == old(l.store) && l.header == old(l.header) && |l.txns| == |old(l.txns)|
    ensures r.Ok? ==> at == |l.txns| == |old(l.txns)| && l.txns == old(l.txns)[at - 1 := SealedTxn(old(l.txns)[at - 1])]
    ensures r.Ok? ==> LiveOf(l.txns[at - 1].entry, live)
  {
    r := l.Seal(at, false);
    live := [];
    if r.Ok? {
      ChainAt(l.store, l.txns, at - 1);
      live := ListLive(l.txns[at - 1].entry);
    }
  }

  method GetDeadEntries(l: LedgerTxns, at: nat) returns (r: T.Result, dead: seq<LedgerKey>)
    requires l.Valid() && 0 < at <= |l.txns|
    modifies l
    ensures l.Valid() && (l.Abs(), r) == T.Step(old(l.Abs()), at, T.Op.Seal(true))
    ensures r.Ok? <==> at == |old(l.txns)| && old(l.txns)[at - 1].exact
    ensures l.store == old(l.store) && l.header == old(l.header) && |l.txns| == |old(l.txns)|
    ensures r.Ok? ==> at == |l.txns| == |old(l.txns)| && l.txns == old(l.txns)[at - 1 := SealedTxn(old(l.txns)[at - 1])]
    ensures r.Ok? ==> DeadOf(l.txns[at - 1].entry, dead)
  {
    r := l.Seal(at, true);
    dead := [];
    if r.Ok? {
      dead := ListDead(l.txns[at - 1].entry);
    }
  }

  // ----- The change list -----

  datatype Change =
    | ChangeState(entry: LedgerEntry)
    | ChangeCreated(entry: LedgerEntry)
    | ChangeUpdated(entry: LedgerEntry)
    | ChangeRemoved(key: LedgerKey)

  /** A strict reader of change lists, with the key whose state was just stated. What
      is created must not be there; what is updated or removed must have been stated
      right before, as it is. */
  datatype Reader = Reader(m: T.Entries, stated: Option<LedgerKey>)

  function ReplayOne(r: Reader, c: Change): (r': Option<Reader>) {
    match c
    case ChangeState(e) =>
      var k := KeyOf(e);
      if r.stated.None? && k in r.m && r.m[k] == e then Some(Reader(r.m, Some(k))) else None
    case ChangeCreated(e) =>
      if r.stated.None? && KeyOf(e) !in r.m then Some(Reader(r.m[KeyOf(e) := e], None)) else None
    case ChangeUpdated(e) => if r.stated == Some(KeyOf(e)) then Some(Reader(r.m[KeyOf(e) := e], None)) else None
    case ChangeRemoved(k) => if r.stated == Some(k) then Some(Reader(r.m - {k}, None)) else None
  }

  function Replay(m: Reader, cs: seq<Change>): (r: Option<Reader>) {
    if cs == [] then Some(m)
    else
      var prior := Replay(m, cs[..|cs| - 1]);
      if prior.None? then None else ReplayOne(prior.value, cs[|cs| - 1])
  }

  lemma {:induction false} ReplayConcat(m: Reader, a: seq<Change>, b: seq<Change>)
    requires Replay(m, a).Some?
    ensures Replay(m, a + b) == Replay(Replay(m, a).value, b)
  {
    if b == [] {
      assert a + b == a;
    } else {
      ReplayConcat(m, a, b[..|b| - 1]);
      assert (a + b)[..|a + b| - 1] == a + b[..|b| - 1];
    }
  }

  lemma {:induction false} ReplaySingle(m: Reader, c: Change)
    ensures Replay(m, [c]) == ReplayOne(m, c)
  {
    assert [c][..0] == [];
  }

  lemma {:induction false} ReplayPair(m: Reader, c: Change, c': Change)
    requires ReplayOne(m, c).Some?
    ensures Replay(m, [c, c']) == ReplayOne(ReplayOne(m, c).value, c')
  {
    assert [c, c'][..1] == [c];
    ReplaySingle(m, c);
  }

  /** The changes reported for one key. */
  function ChangesOf(below: T.Entries, k: LedgerKey, e: Option<LedgerEntry>): (cs: seq<Change>)
    requires e.None? ==> k in below
  {
    if k in below then [ChangeState(below[k]), if e.Some? then ChangeUpdated(e.value) else ChangeRemoved(k)]
    else [ChangeCreated(e.value)]
  }

  lemma {:induction false} ReplayKey(below: T.Entries, m: T.Entries, k: LedgerKey, e: Option<LedgerEntry>)
    requires WellKeyed(below) && (e.None? ==> k in below) && (e.Some? ==> KeyOf(e.value) == k)
    requires T.Lookup(m, k) == T.Lookup(below, k)
    ensures Replay(Reader(m, None), ChangesOf(below, k, e)) ==
            Some(Reader(if e.Some? then m[k := e.value] else m - {k}, None))
  {
    var c := ChangesOf(below, k, e);
    if k in below {
      ReplayPair(Reader(m, None), c[0], c[1]);
    } else {
      ReplaySingle(Reader(m, None), c[0]);
    }
  }

  /** The list says what becomes of the key. */
  predicate Settles(c: Change, k: LedgerKey) {
    match c
    case ChangeState(_) => false
    case ChangeCreated(e) => KeyOf(e) == k
    case ChangeUpdated(e) => KeyOf(e) == k
    case ChangeRemoved(j) => j == k
  }

  /** The list settles each of these keys, once, and no other. */
  ghost predicate SettlesOnce(cs: seq<Change>, ks: set<LedgerKey>) {
    && (forall k :: k in ks ==> exists i :: 0 <= i < |cs| && Settles(cs[i], k))
    && (forall i, k :: 0 <= i < |cs| && Settles(cs[i], k) ==> k in ks)
    && (forall i, j, k :: 0 <= i < j < |cs| && Settles(cs[i], k) ==> !Settles(cs[j], k))
  }

  lemma {:induction false} SettlesMore(cs: seq<Change>, ks: set<LedgerKey>, below: T.Entries, k: LedgerKey,
                                       e: Option<LedgerEntry>)
    requires SettlesOnce(cs, ks) && k !in ks && (e.None? ==> k in below) && (e.Some? ==> KeyOf(e.value) == k)
    ensures SettlesOnce(cs + ChangesOf(below, k, e), ks + {k})
  {
    var more, all := ChangesOf(below, k, e), cs + ChangesOf(below, k, e);
    forall x | x in ks + {k}
      ensures exists i :: 0 <= i < |all| && Settles(all[i], x)
    {
      if x in ks {
        var i :| 0 <= i < |cs| && Settles(cs[i], x);
        assert all[i] == cs[i];
      } else {
        assert Settles(all[|all| - 1], k);
      }
    }
    forall i, x | 0 <= i < |all| && Settles(all[i], x)
      ensures x in ks + {k} && (i >= |cs| ==> x == k && i == |all| - 1)
    {
    }
  }

  /** The list covers the keys taken so far. */
  ghost predicate Replayed(below: T.Entries, d: Changes, taken: set<LedgerKey>, cs: seq<Change>) {
    && Replay(Reader(below, None), cs) == Some(Reader(Overlay(below, Restrict(d, taken)), None))
    && SettlesOnce(cs, taken)
  }

  /** A key not replayed yet is as it was below. */
  lemma {:induction false} ReplayNext(below: T.Entries, d: Changes, taken: set<LedgerKey>, k: LedgerKey,
                                      cs: seq<Change>)
    requires WellKeyed(below) && k in d && k !in taken && (d[k].None? ==> k in below)
             && (d[k].Some? ==> KeyOf(d[k].value) == k)
    requires Replayed(below, d, taken, cs)
    ensures Replayed(below, d, taken + {k}, cs + ChangesOf(below, k, d[k]))
  {
    OverlayOne(below, d, taken, k);
    ReplayKey(below, Overlay(below, Restrict(d, taken)), k, d[k]);
    ReplayConcat(Reader(below, None), cs, ChangesOf(below, k, d[k]));
    SettlesMore(cs, taken, below, k, d[k]);
  }

  /** Reading the list over the parent's view gives the transaction's view. The
      program's assert, that a key missing below has an entry, never fails. */
  method GetChanges(l: LedgerTxns, at: nat) returns (r: T.Result, cs: seq<Change>)
    requires l.Valid() && 0 < at <= |l.txns|
    modifies l
    ensures l.Valid() && (l.Abs(), r) == T.Step(old(l.Abs()), at, T.Op.Seal(true))
    ensures r.Ok? ==> at == |l.txns|
    ensures r.Ok? ==>
              Replay(Reader(Flat(l.store, l.txns[..at - 1]), None), cs) == Some(Reader(Flat(l.store, l.txns), None))
    ensures r.Ok? ==> SettlesOnce(cs, l.txns[at - 1].entry.Keys)
  {
    r := l.Seal(at, true);
    cs := [];
    if r.Ok? {
      ChainAt(l.store, l.txns, at - 1);
      ChainPrefix(l.store, l.txns, at - 1);
      FlatWellKeyed(l.store, l.txns[..at - 1]);
      assert l.txns == l.txns[..at - 1] + [l.txns[at - 1]];
      cs := ListChanges(l, at - 1, l.txns[at - 1].entry, Flat(l.store, l.txns[..at - 1]));
      AllReplayed(Flat(l.store, l.txns[..at - 1]), l.txns[at - 1].entry, cs);
    }
  }

  lemma {:induction false} NothingReplayed(below: T.Entries, d: Changes)
    ensures Replayed(below, d, {}, [])
  {
    OverlayAll(below, d);
  }

  lemma {:induction false} AllReplayed(below: T.Entries, d: Changes, cs: seq<Change>)
    requires Replayed(below, d, d.Keys, cs)
    ensures Replay(Reader(below, None), cs) == Some(Reader(Overlay(below, d), None)) && SettlesOnce(cs, d.Keys)
  {
    OverlayAll(below, d);
  }

  /** One round: the changes of one more key are listed. */
  method ListNext(l: LedgerTxns, at: nat, k: LedgerKey, d: Changes, cs: seq<Change>, ghost below: T.Entries,
                  ghost taken: set<LedgerKey>)
    returns (cs': seq<Change>)
    requires CacheOk(l.store, l.cache) && at <= |l.txns| && below == Flat(l.store, l.txns[..at])
    requires WellKeyed(below) && k in d && k !in taken && Replayed(below, d, taken, cs)
    requires (d[k].None? ==> k in below) && (d[k].Some? ==> KeyOf(d[k].value) == k)
    modifies l`cache
    ensures CacheOk(l.store, l.cache)
    ensures Replayed(below, d, taken + {k}, cs')
  {
    var previous := l.GetNewestVersion(at, k);
    var more := ChangesFor(previous, k, d[k], below);
    ReplayNext(below, d, taken, k, cs);
    cs' := cs + more;
  }

  method ListChanges(l: LedgerTxns, at: nat, d: Changes, ghost below: T.Entries) returns (cs: seq<Change>)
    requires CacheOk(l.store, l.cache) && at <= |l.txns| && below == Flat(l.store, l.txns[..at])
    requires WellKeyed(below) && Exact(below, d) && forall k :: k in d && d[k].Some? ==> KeyOf(d[k].value) == k
    modifies l`cache
    ensures CacheOk(l.store, l.cache)
    ensures Replayed(below, d, d.Keys, cs)
  {
    cs := [];
    var left := d.Keys;
    ghost var taken: set<LedgerKey> := {};
    NothingReplayed(below, d);
    while left != {}
      invariant CacheOk(l.store, l.cache)
      invariant left == d.Keys - taken && taken <= d.Keys
      invariant Replayed(below, d, taken, cs)
    {
      var k :| k in left;
      cs := ListNext(l, at, k, d, cs, below, taken);
      left, taken := left - {k}, taken + {k};
    }
    assert taken == d.Keys;
  }

  /** What is listed for one key; the assert is the program's own. */
  method ChangesFor(previous: Option<LedgerEntry>, k: LedgerKey, e: Option<LedgerEntry>, ghost below: T.Entries)
    returns (cs: seq<Change>)
    requires previous == T.Lookup(below, k) && (e.None? ==> k in below)
    ensures cs == ChangesOf(below, k, e)
  {
    if previous.Some? {
      cs := [ChangeState(previous.value)];
      if e.Some? {
        cs := cs + [ChangeUpdated(e.value)];
      } else {
        cs := cs + [ChangeRemoved(k)];
      }
    } else {
      assert e.Some?;
      cs := [ChangeCreated(e.value)];
    }
  }

  // ----- The delta -----

  datatype Delta = Delta(
    entry: map<LedgerKey, (Option<LedgerEntry>, Option<LedgerEntry>)>,
    header: T.Header, previousHeader: T.Header)

  /** Each held key with what it is now and what it was; under exact consistency
      at least one of the two is there. */
  method GetDelta(l: LedgerTxns, at: nat) returns (r: T.Result, delta: Delta)
    requires l.Valid() && 0 < at <= |l.txns|
    modifies l
    ensures l.Valid() && (l.Abs(), r) == T.Step(old(l.Abs()), at, T.Op.Seal(true))
    ensures r.Ok? ==> at == |l.txns| && delta.entry.Keys == l.txns[at - 1].entry.Keys
    ensures r.Ok? ==> forall k :: k in delta.entry ==>
              && delta.entry[k] == (T.Lookup(Flat(l.store, l.txns), k), T.Lookup(Flat(l.store, l.txns[..at - 1]), k))
              && (delta.entry[k].0.Some? || delta.entry[k].1.Some?)
    ensures r.Ok? ==> delta.header == l.txns[at - 1].header
    ensures r.Ok? ==> delta.previousHeader == if at == 1 then l.header else l.txns[at - 2].header
  {
    r := l.Seal(at, true);
    delta := Delta(map[], l.header, l.header);
    if r.Ok? {
      ChainAt(l.store, l.txns, at - 1);
      var entry := PairUp(l, at);
      delta := Delta(entry, l.txns[at - 1].header, if at == 1 then l.header else l.txns[at - 2].header);
    }
  }

  method PairUp(l: LedgerTxns, at: nat) returns (entry: map<LedgerKey, (Option<LedgerEntry>, Option<LedgerEntry>)>)
    requires CacheOk(l.store, l.cache) && 0 < at == |l.txns|
    modifies l`cache
    ensures CacheOk(l.store, l.cache)
    ensures entry.Keys == l.txns[at - 1].entry.Keys
    ensures forall k :: k in entry ==>
            entry[k] == (l.txns[at - 1].entry[k], T.Lookup(Flat(l.store, l.txns[..at - 1]), k))
  {
    entry := map[];
    var d := l.txns[at - 1].entry;
    var left := d.Keys;
    while left != {}
      invariant CacheOk(l.store, l.cache) && left <= d.Keys && entry.Keys == d.Keys - left
      invariant forall k :: k in entry ==> entry[k] == (d[k], T.Lookup(Flat(l.store, l.txns[..at - 1]), k))
    {
      var k :| k in left;
      var previous := l.GetNewestVersion(at - 1, k);
      entry := entry[k := (d[k], previous)];
      left := left - {k};
    }
  }
}
