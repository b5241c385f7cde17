/** Saving the bucket list with merges running or finished, and restoring it
    (src/history/HistoryArchive.cpp, src/bucket/BucketManagerImpl.cpp). */
module Restart {
  import opened BucketFile
  import opened LevelArithmetic
  import opened BucketList
  import opened BucketListRuns
  import opened FutureBucket

  /** One level of a HistoryArchiveState. */
  datatype SavedLevel = SavedLevel(curr: Hash, snap: Hash, next: Saved)

  /** resolveAnyReadyFutures acts on the copy that is saved: a merge that has
      finished is replaced by its outcome. Which have finished is arbitrary. */
  function ResolveIf<K, V>(ready: bool, f: Future<K, V>): (r: Future<K, V>) {
    if f.IsMerging() && ready then LiveOutput(f.Outcome()) else f
  }

  function SaveLevel<K, V>(hash: Bucket<K, V> -> Hash, ready: set<nat>, i: nat, l: Level<K, V>): (s: SavedLevel) {
    SavedLevel(hash(l.curr), hash(l.snap), Save(hash, ResolveIf(i in ready, l.next)))
  }

  function SaveList<K, V>(hash: Bucket<K, V> -> Hash, ready: set<nat>, levels: seq<Level<K, V>>): (has: seq<SavedLevel>)
    ensures |has| == |levels|
  {
    seq(|levels|, i requires 0 <= i < |levels| => SaveLevel(hash, ready, i, levels[i]))
  }

  /** What is restored at one level: buckets by hash, then restartMerges. */
  function RestoreLevel<K, V>(store: Store<K, V>, n: nat, i: nat, s: SavedLevel): (l: Option<Level<K, V>>) {
    var c, sn, f := BucketByHash(store, s.curr), BucketByHash(store, s.snap), Load<K, V>(s.next);
    if c.None? || sn.None? || f.None? then None
    else if f.value.HashInputs? || f.value.HashOutput? then
      var live := MakeLive(store, f.value, KeepDeadEntries(n, i));
      if live.None? then None else Some(Level(c.value, sn.value, live.value))
    else Some(Level(c.value, sn.value, f.value))
  }

  ghost predicate IsRestored<K, V>(store: Store<K, V>, has: seq<SavedLevel>, levels: seq<Level<K, V>>) {
    && |levels| == |has|
    && forall i :: 0 <= i < |has| ==> RestoreLevel(store, |has|, i, has[i]) == Some(levels[i])
  }

  /** assumeState and restartMerges. */
  method AssumeState<K(==, !new), V(==)>(list: List<K, V>, has: seq<SavedLevel>, store: Store<K, V>) returns (ok: bool)
    requires |list.levels| == |has|
    modifies list
    ensures ok ==> IsRestored(store, has, list.levels)
    ensures !ok ==> exists i :: 0 <= i < |has| && RestoreLevel(store, |has|, i, has[i]).None?
  {
    var n := |has|;
    for i := 0 to n
      invariant |list.levels| == n
      invariant forall j :: 0 <= j < i ==> Assumed(store, has[j], list.levels[j])
    {
      var curr := BucketByHash(store, has[i].curr);
      var snap := BucketByHash(store, has[i].snap);
      var next := Load<K, V>(has[i].next);
      if curr.None? || snap.None? || next.None? {
        assert RestoreLevel(store, n, i, has[i]).None?;
        return false;
      }
      list.SetCurr(i, curr.value);
      list.levels := list.levels[i := list.levels[i].(snap := snap.value)];
      list.levels := list.levels[i := list.levels[i].(next := next.value)];
    }
    for i := 0 to n
      invariant |list.levels| == n
      invariant forall j :: 0 <= j < i ==> RestoreLevel(store, n, j, has[j]) == Some(list.levels[j])
      invariant forall j :: i <= j < n ==> Assumed(store, has[j], list.levels[j])
    {
      var next := list.levels[i].next;
      if next.HashInputs? || next.HashOutput? {
        var live := MakeLive(store, next, KeepDeadEntries(n, i));
        if live.None? {
          assert RestoreLevel(store, n, i, has[i]).None?;
          return false;
        }
        list.levels := list.levels[i := list.levels[i].(next := live.value)];
      }
    }
    return true;
  }

  /** A level after assumeState and before restartMerges. */
  predicate Assumed<K(==), V(==)>(store: Store<K, V>, s: SavedLevel, l: Level<K, V>) {
    && BucketByHash(store, s.curr) == Some(l.curr)
    && BucketByHash(store, s.snap) == Some(l.snap)
    && Load(s.next) == Some(l.next)
  }

  // ----- Lists that will behave alike -----

  /** Same buckets, and pending merges with the same outcome. */
  ghost predicate AlikeLevel<K, V>(a: Level<K, V>, b: Level<K, V>) {
    && a.curr == b.curr && a.snap == b.snap
    && (a.next.IsLive() <==> b.next.IsLive())
    && (a.next.IsLive() ==> a.next.Outcome() == b.next.Outcome())
  }

  ghost predicate Alike<K, V>(a: seq<Level<K, V>>, b: seq<Level<K, V>>) {
    && |a| == |b|
    && forall i :: 0 <= i < |a| ==> AlikeLevel(a[i], b[i])
  }

  lemma {:induction false} AlikeShadows<K, V>(a: seq<Level<K, V>>, b: seq<Level<K, V>>, m: nat)
    requires Alike(a, b) && m <= |a|
    ensures Shadows(a, m) == Shadows(b, m)
  {
    if m > 0 {
      AlikeShadows(a, b, m - 1);
      assert AlikeLevel(a[m - 1], b[m - 1]);
    }
  }

  lemma {:induction false} AlikeSteps<K, V>(a: Level<K, V>, b: Level<K, V>, n: nat, ledger: nat, i: nat)
    requires AlikeLevel(a, b)
    ensures AlikeLevel(Snapped(n, ledger, i, a), Snapped(n, ledger, i, b))
    ensures AlikeLevel(Committed(a), Committed(b))
  {
  }

  lemma {:induction false} AlikePrepared<K, V>(a: Level<K, V>, b: Level<K, V>, n: nat, ledger: nat, i: nat,
                                               snap: Bucket<K, V>, shadows: seq<Bucket<K, V>>)
    requires AlikeLevel(a, b)
    ensures AlikeLevel(Prepared(n, ledger, i, a, snap, shadows), Prepared(n, ledger, i, b, snap, shadows))
  {
  }

  lemma {:induction false} AlikeClosed<K, V>(a: seq<Level<K, V>>, b: seq<Level<K, V>>, ledger: nat,
                                             batch: Bucket<K, V>, i: nat)
    requires Alike(a, b) && i < |a|
    ensures AlikeLevel(Closed(a, ledger, batch, i), Closed(b, ledger, batch, i))
  {
    var n := |a|;
    assert AlikeLevel(a[i], b[i]);
    AlikeSteps(a[i], b[i], n, ledger, i);
    var a', b' := Snapped(n, ledger, i, a[i]), Snapped(n, ledger, i, b[i]);
    if i == 0 {
      AlikePrepared(a', b', n, ledger, 0, batch, []);
      AlikeSteps(Prepared(n, ledger, 0, a', batch, []), Prepared(n, ledger, 0, b', batch, []), n, ledger, 0);
    } else if LevelShouldSpill(n, ledger, i - 1) {
      assert AlikeLevel(a[i - 1], b[i - 1]);
      AlikeShadows(a, b, i - 1);
      AlikeSteps(a', b', n, ledger, i);
      AlikePrepared(Committed(a'), Committed(b'), n, ledger, i, a[i - 1].curr, Shadows(a, i - 1));
    }
  }

  /** Closing further ledgers, the next one being `ledger`. */
  function Continue<K, V>(levels: seq<Level<K, V>>, ledger: nat, batches: seq<Bucket<K, V>>): (r: seq<Level<K, V>>)
    ensures |r| == |levels|
    decreases |batches|
  {
    if batches == [] then levels
    else Continue(CloseLedger(levels, ledger, batches[0]), ledger + 1, batches[1..])
  }

  lemma {:induction false} AlikeContinue<K, V>(a: seq<Level<K, V>>, b: seq<Level<K, V>>, ledger: nat,
                                               batches: seq<Bucket<K, V>>)
    requires Alike(a, b)
    ensures Alike(Continue(a, ledger, batches), Continue(b, ledger, batches))
    decreases |batches|
  {
    if batches != [] {
      var a', b' := CloseLedger(a, ledger, batches[0]), CloseLedger(b, ledger, batches[0]);
      forall i | 0 <= i < |a'|
        ensures AlikeLevel(a'[i], b'[i])
      {
        AlikeClosed(a, b, ledger, batches[0], i);
      }
      AlikeContinue(a', b', ledger + 1, batches[1..]);
    }
  }

  lemma {:induction false} ContinueRun<K, V>(n: nat, hist: seq<Bucket<K, V>>, later: seq<Bucket<K, V>>)
    ensures Continue(Run(n, hist), |hist| + 1, later) == Run(n, hist + later)
    decreases |later|
  {
    if later == [] {
      assert hist + later == hist;
    } else {
      var hist' := hist + [later[0]];
      assert hist'[..|hist|] == hist;
      ContinueRun(n, hist', later[1..]);
      assert hist' + later[1..] == hist + later;
    }
  }

  lemma {:induction false} CloseTracks<K, V>(n: nat, hist: seq<Bucket<K, V>>, levels: seq<Level<K, V>>,
                                             batch: Bucket<K, V>)
    requires Alike(Run(n, hist), levels)
    ensures Alike(Run(n, hist + [batch]), CloseLedger(levels, |hist| + 1, batch))
  {
    AlikeContinue(Run(n, hist), levels, |hist| + 1, [batch]);
    ContinueRun(n, hist, [batch]);
    assert Continue(CloseLedger(levels, |hist| + 1, batch), |hist| + 2, []) == CloseLedger(levels, |hist| + 1, batch);
  }

  lemma {:induction false} AlikeLookup<K, V>(a: seq<Level<K, V>>, b: seq<Level<K, V>>, i: nat, k: K)
    requires Alike(a, b) && i <= |a|
    ensures Lookup(a, i, k) == Lookup(b, i, k)
    ensures KeysFrom(a, i) == KeysFrom(b, i)
    decreases |a| - i
  {
    if i < |a| {
      assert AlikeLevel(a[i], b[i]);
      AlikeLookup(a, b, i + 1, k);
    }
  }

  lemma {:induction false} AlikeFlatView<K(!new), V>(a: seq<Level<K, V>>, b: seq<Level<K, V>>)
    requires Alike(a, b)
    ensures FlatView(a) == FlatView(b)
  {
    forall k
      ensures Lookup(a, 0, k) == Lookup(b, 0, k) && (k in KeysFrom(a, 0) <==> k in KeysFrom(b, 0))
    {
      AlikeLookup(a, b, 0, k);
    }
  }

  // ----- Restarting is invisible -----

  /** Between ledgers each merge keeps tombstones as its level demands. */
  ghost predicate Settled<K, V>(n: nat, i: nat, f: Future<K, V>) {
    f.Clear? || f.LiveOutput? || (f.LiveInputs? && f.keepDead == KeepDeadEntries(n, i))
  }

  lemma {:induction false} RunSettled<K, V>(n: nat, hist: seq<Bucket<K, V>>, i: nat)
    requires i < n
    ensures Settled(n, i, Run(n, hist)[i].next)
  {
    if hist != [] {
      RunSettled(n, hist[..|hist| - 1], i);
    }
  }

  /** The files a saved level needs are there. */
  ghost predicate LevelStored<K, V>(store: Store<K, V>, hash: Bucket<K, V> -> Hash, ready: set<nat>, i: nat,
                                    l: Level<K, V>) {
    HasFile(store, hash, l.curr) && HasFile(store, hash, l.snap) && HasFiles(store, hash, ResolveIf(i in ready, l.next))
  }

  lemma {:induction false} RestoredLevelAlike<K, V>(store: Store<K, V>, hash: Bucket<K, V> -> Hash, ready: set<nat>,
                                                    n: nat, i: nat, l: Level<K, V>)
    requires Settled(n, i, l.next) && LevelStored(store, hash, ready, i, l)
    ensures var r := RestoreLevel(store, n, i, SaveLevel(hash, ready, i, l));
            r.Some? && AlikeLevel(l, r.value)
  {
    var f := ResolveIf(i in ready, l.next);
    if f.IsLive() {
      SaveLoadRoundTrip(store, hash, f, KeepDeadEntries(n, i));
    }
  }

  /** Stop after any ledger, with any merges finished, and start again from the
      files: at every later ledger curr and snap are as if nothing happened. */
  lemma {:induction false} RestartInvisible<K, V>(n: nat, hist: seq<Bucket<K, V>>, later: seq<Bucket<K, V>>,
                                                  hash: Bucket<K, V> -> Hash, ready: set<nat>, store: Store<K, V>,
                                                  restored: seq<Level<K, V>>)
    requires forall i :: 0 <= i < n ==> LevelStored(store, hash, ready, i, Run(n, hist)[i])
    requires IsRestored(store, SaveList(hash, ready, Run(n, hist)), restored)
    ensures var a, b := Continue(restored, |hist| + 1, later), Run(n, hist + later);
            |a| == |b| && forall i :: 0 <= i < n ==> a[i].curr == b[i].curr && a[i].snap == b[i].snap
  {
    var levels := Run(n, hist);
    forall i | 0 <= i < n
      ensures AlikeLevel(levels[i], restored[i])
    {
      RunSettled(n, hist, i);
      assert LevelStored(store, hash, ready, i, levels[i]);
      RestoredLevelAlike(store, hash, ready, n, i, levels[i]);
    }
    AlikeContinue(levels, restored, |hist| + 1, later);
    ContinueRun(n, hist, later);
    var a, b := Continue(restored, |hist| + 1, later), Run(n, hist + later);
    forall i | 0 <= i < n
      ensures a[i].curr == b[i].curr && a[i].snap == b[i].snap
    {
      assert AlikeLevel(b[i], a[i]);
    }
  }

  /** With the files there, restoring does not fail. */
  lemma {:induction false} RestoreSucceeds<K, V>(n: nat, hist: seq<Bucket<K, V>>, hash: Bucket<K, V> -> Hash,
                                                 ready: set<nat>, store: Store<K, V>, i: nat)
    requires i < n && LevelStored(store, hash, ready, i, Run(n, hist)[i])
    ensures RestoreLevel(store, n, i, SaveList(hash, ready, Run(n, hist))[i]).Some?
  {
    RunSettled(n, hist, i);
    RestoredLevelAlike(store, hash, ready, n, i, Run(n, hist)[i]);
  }
}
